/**
 The retry loop of the database repository, against whatever the other workers commit between
 its statements: when it loses the race, when it gives up, and how often it tries.
 */
module BatchUpdates {
  import opened Wrappers
  import opened Batches
  import opened BatchDatabase

  const RECORD_ATTEMPTS: nat := 10

  /**
   What happens around one turn of the loop: whether the context is done when it begins, what others
   commit between its read and its write and before the next turn, and whether they delete the row.
   */
  datatype Window = Window(cancelled: bool, mid: seq<Entry>, midDeleted: bool, post: seq<Entry>, postDeleted: bool)

  const QUIET: Window := Window(false, [], false, [], false)

  datatype UpdateError = ContextDone | BatchNotFound | DidNotMove

  /** The answer, the row left behind, how many attempts were made and the highest `stalled` reached. */
  datatype Outcome = Outcome(result: Result<Counts, UpdateError>, row: Option<Batch>, attempts: nat, peak: nat)

  function Max(a: nat, b: nat): nat {
    if a < b then b else a
  }

  /** What the loop carries from one attempt to the next. */
  datatype Tries = Tries(lastPending: int, lastFailed: int, stalled: nat, attempts: nat, peak: nat)

  const FIRST: Tries := Tries(-1, -1, 0, 0, 0)

  /** `stalled` once the row has been read: counters that moved start it over. */
  function Still(row: Batch, t: Tries): nat {
    if row.pending != t.lastPending || row.failed != t.lastFailed then 0 else t.stalled
  }

  function Ended(result: Result<Counts, UpdateError>, row: Option<Batch>, stalled: nat, t: Tries): Outcome {
    Outcome(result, row, t.attempts + 1, Max(stalled, t.peak))
  }

  /** What others make of a row: their changes in order, and nothing of it once one deletes it. */
  function Meddled(row: Option<Batch>, log: seq<Entry>, deleted: bool): Option<Batch> {
    if row.None? || deleted then None else Some(Replay(row.value, log))
  }

  datatype Verdict = End(outcome: Outcome) | Again(row: Option<Batch>, tries: Tries)

  /** One attempt: read, decide, and write if the counters are still the ones read. */
  function Attempt(row: Option<Batch>, r: Report, w: Window, t: Tries): Verdict {
    if w.cancelled then End(Ended(Err(ContextDone), row, 0, t))
    else if row.None? then End(Ended(Err(BatchNotFound), row, 0, t))
    else
      var before := row.value;
      var still, after := Still(before, t), Apply(before, r);
      var met := Meddled(row, w.mid, w.midDeleted);
      if SameCounters(after, before) then End(Ended(Ok(CountsOf(after)), row, still, t))
      else if met.Some? && SameCounters(met.value, before) then
        End(Ended(Ok(CountsOf(after)), Some(Written(met.value, after)), still, t))
      else if still + 1 >= RECORD_ATTEMPTS then End(Ended(Err(DidNotMove), met, still + 1, t))
      else Again(Meddled(met, w.post, w.postDeleted), After(before, still, t))
  }

  /** The counters an attempt that lost the race carries on. */
  function After(before: Batch, still: nat, t: Tries): Tries {
    Tries(before.pending, before.failed, still + 1, t.attempts + 1, Max(still + 1, t.peak))
  }

  /** Past the last window nobody interferes. */
  function First(others: seq<Window>): Window {
    if others == [] then QUIET else others[0]
  }

  lemma QuietAttemptEnds(row: Option<Batch>, r: Report, t: Tries)
    ensures Attempt(row, r, QUIET, t).End?
  {
  }

  function Loop(row: Option<Batch>, r: Report, others: seq<Window>, t: Tries): Outcome
    decreases |others|
  {
    match Attempt(row, r, First(others), t)
    case End(o) => o
    case Again(next, u) => if others == [] then Ended(Err(DidNotMove), next, 0, u) else Loop(next, r, others[1..], u)
  }

  function RowOf(rows: map<string, Batch>, id: string): Option<Batch> {
    if id in rows then Some(rows[id]) else None
  }

  class DatabaseBatchRepository {
    var rows: map<string, Batch>

    /** What the other workers do to the row between two statements of this one. */
    method Interfere(id: string, log: seq<Entry>, deleted: bool)
      modifies this
      ensures RowOf(rows, id) == Meddled(RowOf(old(rows), id), log, deleted)
      ensures rows - {id} == old(rows) - {id}
    {
      if id in rows {
        rows := if deleted then rows - {id} else rows[id := Replay(rows[id], log)];
      }
    }

    /** One row of the answer, or none. */
    method Find(id: string) returns (b: Option<Batch>)
      ensures b.Some? <==> id in rows
      ensures b.Some? ==> (id, b.value) in rows.Items
    {
      b := None;
      if id in rows {
        b := Some(rows[id]);
      }
    }

    /** The conditional UPDATE, and how many rows it changed. */
    method UpdateWhere(id: string, before: Batch, after: Batch) returns (n: nat)
      modifies this
      ensures n == if id in old(rows) && SameCounters(old(rows)[id], before) then 1 else 0
      ensures rows == if n == 1 then old(rows)[id := Written(old(rows)[id], after)] else old(rows)
    {
      if id in rows && SameCounters(rows[id], before) {
        rows := rows[id := Written(rows[id], after)];
        return 1;
      }
      n := 0;
    }

    /** The body of the loop: the context, the read, the decision, the write, and the count of stalls. */
    method TryOnce(id: string, r: Report, w: Window, t: Tries) returns (v: Verdict)
      modifies this
      ensures v == Attempt(RowOf(old(rows), id), r, w, t)
      ensures RowOf(rows, id) == if v.End? then v.outcome.row else v.row
      ensures rows - {id} == old(rows) - {id}
    {
      if w.cancelled {
        return End(Ended(Err(ContextDone), RowOf(rows, id), 0, t));
      }
      var found := Find(id);
      if found.None? {
        return End(Ended(Err(BatchNotFound), None, 0, t));
      }
      var before := found.value;
      var stalled := if before.pending != t.lastPending || before.failed != t.lastFailed then 0 else t.stalled;
      var after := Apply(before, r);
      if after.pending == before.pending && after.failed == before.failed {
        return End(Ended(Ok(CountsOf(after)), found, stalled, t));
      }
      Interfere(id, w.mid, w.midDeleted);
      var n := UpdateWhere(id, before, after);
      if n > 0 {
        return End(Ended(Ok(CountsOf(after)), RowOf(rows, id), stalled, t));
      }
      if stalled + 1 >= RECORD_ATTEMPTS {
        return End(Ended(Err(DidNotMove), RowOf(rows, id), stalled + 1, t));
      }
      Interfere(id, w.post, w.postDeleted);
      v := Again(RowOf(rows, id), After(before, stalled, t));
    }

    method Update(id: string, r: Report, others: seq<Window>) returns (result: Result<Counts, UpdateError>, tries: nat)
      modifies this
      ensures var o := Loop(RowOf(old(rows), id), r, others, FIRST);
              result == o.result && tries == o.attempts && RowOf(rows, id) == o.row
      ensures rows - {id} == old(rows) - {id}
    {
      var t, i := FIRST, 0;
      while true
        invariant i <= |others| && rows - {id} == old(rows) - {id}
        invariant Loop(RowOf(old(rows), id), r, others, FIRST) == Loop(RowOf(rows, id), r, others[i..], t)
        decreases |others| - i
      {
        var w := if i < |others| then others[i] else QUIET;
        assert w == First(others[i..]);
        QuietAttemptEnds(RowOf(rows, id), r, t);
        var v := TryOnce(id, r, w, t);
        if v.End? {
          return v.outcome.result, v.outcome.attempts;
        }
        assert others[i..][1..] == others[i + 1..];
        t, i := v.tries, i + 1;
      }
    }
  }

  // -------------------------------------------------------------- progress

  /** Reports of named jobs and stamps: anything but jobs added. */
  ghost predicate Plain(e: Entry) {
    !e.Added? && (e.Reported? ==> e.report.job != "")
  }

  ghost predicate PlainWindow(w: Window) {
    && !w.cancelled && !w.midDeleted && !w.postDeleted
    && (forall e :: e in w.mid ==> Plain(e)) && (forall e :: e in w.post ==> Plain(e))
  }

  ghost predicate PlainWindows(others: seq<Window>) {
    forall w :: w in others ==> PlainWindow(w)
  }

  lemma {:induction false} ReplayProgresses(row: Batch, log: seq<Entry>)
    requires Tidy(row) && forall e :: e in log ==> Plain(e)
    ensures Tidy(Replay(row, log)) && Progressed(row, Replay(row, log))
  {
    if log != [] {
      var init, last := log[..|log| - 1], log[|log| - 1];
      assert last in log && forall e :: e in init ==> e in log;
      ReplayProgresses(row, init);
      var now := Replay(row, init);
      if last.Reported? {
        ApplyMoves(now, last.report);
        ProgressedThenReport(row, now, last.report);
      }
    }
  }

  lemma ProgressJoins(a: Batch, b: Batch, c: Batch)
    requires Progressed(a, b) && Progressed(b, c) && !SameCounters(a, b)
    ensures !SameCounters(a, c)
  {
  }

  /** How many windows hold something between the read and the write. */
  function Busy(others: seq<Window>): nat {
    if others == [] then 0 else (if others[0].mid == [] then 0 else 1) + Busy(others[1..])
  }

  /** The row that the attempt which ended the call met: after all that others committed before its write. */
  function Met(row: Batch, others: seq<Window>, attempts: nat): Batch
    requires 0 < attempts
    decreases |others|
  {
    if others == [] then row
    else
      var met := Replay(row, others[0].mid);
      if attempts == 1 then met else Met(Replay(met, others[0].post), others[1..], attempts - 1)
  }

  /** What an end promises: the answer is the atomic change to what was met, or a report that changes nothing. */
  ghost predicate Answered(o: Outcome, met: Batch, r: Report) {
    && o.result.Ok? && o.row.Some? && o.peak <= 1
    && var answer, row := o.result.value, o.row.value;
       && answer == CountsOf(answer.batch) && SameButStamps(answer.batch, row)
       && (row == Apply(met, r) || row == answer.batch == Apply(row, r))
  }

  /** Before an attempt: nothing stalled, because the counters are not the ones of the last read. */
  ghost predicate Moving(row: Batch, t: Tries) {
    Tidy(row) && t.peak <= 1 && Still(row, t) == 0
  }

  /**
   One attempt with no jobs added meanwhile: it ends with the atomic change to the row it met, or
   the next read sees other counters than this one did.
   */
  lemma AttemptProgresses(row: Batch, r: Report, w: Window, t: Tries)
    requires Moving(row, t) && r.job != "" && PlainWindow(w)
    ensures var v := Attempt(Some(row), r, w, t);
            if v.End? then v.outcome.attempts == t.attempts + 1 && Answered(v.outcome, Replay(row, w.mid), r)
            else
              && v.row == Some(Replay(Replay(row, w.mid), w.post))
              && v.tries.attempts == t.attempts + 1 && w.mid != [] && Moving(v.row.value, v.tries)
  {
    ApplyMoves(row, r);
    var met := Replay(row, w.mid);
    ReplayProgresses(row, w.mid);
    if SameCounters(met, row) {
      if !SameCounters(row, Apply(row, r)) { MatchedWriteExactly(row, met, r); }
    } else {
      ReplayProgresses(met, w.post);
      ProgressJoins(row, met, Replay(met, w.post));
    }
  }

  /** What the whole call promises of the outcome it ends with. */
  ghost predicate Kept(o: Outcome, row: Batch, r: Report, others: seq<Window>, soFar: nat) {
    && soFar < o.attempts <= soFar + 1 + Busy(others)
    && Answered(o, Met(row, others, o.attempts - soFar), r)
  }

  lemma KeptAtTheEnd(o: Outcome, row: Batch, r: Report, others: seq<Window>, soFar: nat)
    requires o.attempts == soFar + 1 && Answered(o, Replay(row, First(others).mid), r)
    ensures Kept(o, row, r, others, soFar)
  {
    assert Met(row, others, 1) == Replay(row, First(others).mid);
  }

  lemma KeptOneLater(o: Outcome, row: Batch, r: Report, others: seq<Window>, soFar: nat, next: Batch)
    requires others != [] && others[0].mid != [] && next == Replay(Replay(row, others[0].mid), others[0].post)
    requires Kept(o, next, r, others[1..], soFar + 1)
    ensures Kept(o, row, r, others, soFar)
  {
    assert Met(row, others, o.attempts - soFar) == Met(next, others[1..], o.attempts - soFar - 1);
  }

  /**
   With no jobs added meanwhile the loop always answers: it never stalls twice in a row, so the
   "did not move" error cannot happen; it tries at most once more than there are attempts that
   others wrote in; and the row it leaves and the counters it returns are those of the atomic
   change made after everything it met. A report that changes nothing answers from its read.
   */
  lemma {:induction false} LoopAnswers(row: Batch, r: Report, others: seq<Window>, t: Tries)
    requires Moving(row, t) && r.job != "" && PlainWindows(others)
    ensures Kept(Loop(Some(row), r, others, t), row, r, others, t.attempts)
    decreases |others|
  {
    var v := Attempt(Some(row), r, First(others), t);
    FirstIsPlain(others);
    AttemptProgresses(row, r, First(others), t);
    QuietAttemptEnds(Some(row), r, t);
    if v.End? {
      KeptAtTheEnd(v.outcome, row, r, others, t.attempts);
    } else {
      LoopAnswers(v.row.value, r, others[1..], v.tries);
      KeptOneLater(Loop(v.row, r, others[1..], v.tries), row, r, others, t.attempts, v.row.value);
    }
  }

  lemma FirstIsPlain(others: seq<Window>)
    requires PlainWindows(others)
    ensures PlainWindow(First(others)) && (others != [] ==> PlainWindows(others[1..]))
  {
    if others != [] { assert others[0] in others && forall w :: w in others[1..] ==> w in others; }
  }

  /** The call from its first line, on any row with named jobs. */
  lemma UpdateAnswers(row: Batch, r: Report, others: seq<Window>)
    requires Tidy(row) && r.job != "" && PlainWindows(others)
    ensures Kept(Loop(Some(row), r, others, FIRST), row, r, others, 0)
  {
    LoopAnswers(row, r, others, FIRST);
  }
}
