/**
 When the retry loop gives up, exactly; and what becomes of its guarantee when a job fails without an id.
 */
module BatchStalls {
  import opened Wrappers
  import opened Batches
  import opened BatchDatabase
  import opened BatchUpdates

  // ---------------------------------------------------------------- giving up

  /** The row one turn later. */
  function Later(row: Option<Batch>, w: Window): Option<Batch> {
    Meddled(Meddled(row, w.mid, w.midDeleted), w.post, w.postDeleted)
  }

  /** The row as turn i finds it, if every turn before lost its race. */
  function RowAt(row: Option<Batch>, others: seq<Window>, i: nat): Option<Batch>
    requires i <= |others|
    decreases i
  {
    if i == 0 then row else RowAt(Later(row, others[0]), others[1..], i - 1)
  }

  /** This turn has something to write, and the counters are others by then. */
  predicate Loses(row: Option<Batch>, r: Report, w: Window) {
    && !w.cancelled && row.Some? && !SameCounters(Apply(row.value, r), row.value)
    && var met := Meddled(row, w.mid, w.midDeleted);
       met.None? || !SameCounters(met.value, row.value)
  }

  predicate SameRead(a: Option<Batch>, b: Option<Batch>) {
    a.Some? && b.Some? && SameCounters(a.value, b.value)
  }

  /** The first k + m turns all lose, and the last m of them read the same counters. */
  ghost predicate Streak(row: Option<Batch>, r: Report, others: seq<Window>, k: nat, m: nat) {
    && 0 < m && k + m <= |others|
    && (forall i :: 0 <= i < k + m ==> Loses(RowAt(row, others, i), r, others[i]))
    && (forall i :: k <= i < k + m ==> SameRead(RowAt(row, others, k), RowAt(row, others, i)))
  }

  lemma StreakShift(row: Option<Batch>, r: Report, others: seq<Window>, k: nat, m: nat)
    requires others != [] && 0 < k
    ensures Streak(row, r, others, k, m)
       <==> Loses(row, r, others[0]) && Streak(Later(row, others[0]), r, others[1..], k - 1, m)
  {
    var next, rest := Later(row, others[0]), others[1..];
    assert k <= |others| ==> RowAt(row, others, k) == RowAt(next, rest, k - 1);
    if Streak(row, r, others, k, m) {
      assert RowAt(row, others, 0) == row;
      forall i | 0 <= i < k - 1 + m ensures Loses(RowAt(next, rest, i), r, rest[i]) {
        assert Loses(RowAt(row, others, i + 1), r, others[i + 1]);
      }
      forall i | k - 1 <= i < k - 1 + m ensures SameRead(RowAt(next, rest, k - 1), RowAt(next, rest, i)) {
        assert SameRead(RowAt(row, others, k), RowAt(row, others, i + 1));
      }
    }
    if Loses(row, r, others[0]) && Streak(next, r, rest, k - 1, m) {
      forall i | 0 <= i < k + m ensures Loses(RowAt(row, others, i), r, others[i]) {
        if i > 0 { assert Loses(RowAt(next, rest, i - 1), r, rest[i - 1]); }
      }
      forall i | k <= i < k + m ensures SameRead(RowAt(row, others, k), RowAt(row, others, i)) {
        assert SameRead(RowAt(next, rest, k - 1), RowAt(next, rest, i - 1));
      }
    }
  }

  lemma StreakHead(row: Option<Batch>, r: Report, others: seq<Window>, m: nat)
    requires others != [] && 0 < m
    ensures Streak(row, r, others, 0, m) <==>
            && Loses(row, r, others[0])
            && (m > 1 ==>
                  SameRead(row, Later(row, others[0])) && Streak(Later(row, others[0]), r, others[1..], 0, m - 1))
  {
    var next, rest := Later(row, others[0]), others[1..];
    if Streak(row, r, others, 0, m) {
      assert RowAt(row, others, 0) == row && RowAt(next, rest, 0) == next;
      if m > 1 {
        assert SameRead(RowAt(row, others, 0), RowAt(row, others, 1));
        forall i | 0 <= i < m - 1
          ensures Loses(RowAt(next, rest, i), r, rest[i]) && SameRead(next, RowAt(next, rest, i))
        {
          assert Loses(RowAt(row, others, i + 1), r, others[i + 1]);
          assert SameRead(RowAt(row, others, 0), RowAt(row, others, i + 1));
        }
      }
    }
    if Loses(row, r, others[0])
       && (m > 1 ==> SameRead(row, next) && Streak(next, r, rest, 0, m - 1)) {
      assert RowAt(row, others, 0) == row && RowAt(next, rest, 0) == next;
      forall i | 0 <= i < m
        ensures Loses(RowAt(row, others, i), r, others[i]) && SameRead(row, RowAt(row, others, i))
      {
        if i > 0 {
          assert Loses(RowAt(next, rest, i - 1), r, rest[i - 1]);
          assert SameRead(RowAt(next, rest, 0), RowAt(next, rest, i - 1));
        }
      }
    }
  }

  /** With q stalls behind it: ten in a row counting those, or ten in a row later on. */
  ghost predicate Stalls(row: Option<Batch>, r: Report, others: seq<Window>, q: nat) {
    q < RECORD_ATTEMPTS
    && (Streak(row, r, others, 0, RECORD_ATTEMPTS - q)
        || exists k: nat :: 0 < k && Streak(row, r, others, k, RECORD_ATTEMPTS))
  }

  lemma StallsStep(row: Option<Batch>, r: Report, others: seq<Window>, q: nat)
    requires others != [] && q < RECORD_ATTEMPTS
    ensures var next := Later(row, others[0]);
            Stalls(row, r, others, q) <==>
              && Loses(row, r, others[0])
              && (q == RECORD_ATTEMPTS - 1 || Stalls(next, r, others[1..], if SameRead(row, next) then q + 1 else 0))
  {
    var next, rest := Later(row, others[0]), others[1..];
    var q' := if SameRead(row, next) then q + 1 else 0;
    StreakHead(row, r, others, RECORD_ATTEMPTS - q);
    forall k: nat | 0 < k
      ensures Streak(row, r, others, k, RECORD_ATTEMPTS)
         <==> Loses(row, r, others[0]) && Streak(next, r, rest, k - 1, RECORD_ATTEMPTS)
    {
      StreakShift(row, r, others, k, RECORD_ATTEMPTS);
    }
    if q < RECORD_ATTEMPTS - 1 {
      if Stalls(row, r, others, q) { StallsOn(row, r, others, q); }
      if Loses(row, r, others[0]) && Stalls(next, r, rest, q') { StallsBefore(row, r, others, q); }
    }
  }

  lemma StreakShorter(row: Option<Batch>, r: Report, others: seq<Window>, m: nat, n: nat)
    requires Streak(row, r, others, 0, m) && 0 < n <= m
    ensures Streak(row, r, others, 0, n)
  {
  }

  lemma StallsOn(row: Option<Batch>, r: Report, others: seq<Window>, q: nat)
    requires others != [] && q < RECORD_ATTEMPTS - 1 && Stalls(row, r, others, q)
    ensures var next := Later(row, others[0]);
            Stalls(next, r, others[1..], if SameRead(row, next) then q + 1 else 0)
  {
    var next, rest := Later(row, others[0]), others[1..];
    StreakHead(row, r, others, RECORD_ATTEMPTS - q);
    if !Streak(row, r, others, 0, RECORD_ATTEMPTS - q) {
      var k: nat :| 0 < k && Streak(row, r, others, k, RECORD_ATTEMPTS);
      StreakShift(row, r, others, k, RECORD_ATTEMPTS);
      if k == 1 && SameRead(row, next) { StreakShorter(next, r, rest, RECORD_ATTEMPTS, RECORD_ATTEMPTS - q - 1); }
    }
  }

  lemma StallsBefore(row: Option<Batch>, r: Report, others: seq<Window>, q: nat)
    requires others != [] && q < RECORD_ATTEMPTS - 1 && Loses(row, r, others[0])
    requires var next := Later(row, others[0]);
             Stalls(next, r, others[1..], if SameRead(row, next) then q + 1 else 0)
    ensures Stalls(row, r, others, q)
  {
    var next, rest := Later(row, others[0]), others[1..];
    var q' := if SameRead(row, next) then q + 1 else 0;
    StreakHead(row, r, others, RECORD_ATTEMPTS - q);
    if Streak(next, r, rest, 0, RECORD_ATTEMPTS - q') {
      StreakShift(row, r, others, 1, RECORD_ATTEMPTS);
    } else {
      var k: nat :| 0 < k && Streak(next, r, rest, k, RECORD_ATTEMPTS);
      StreakShift(row, r, others, k + 1, RECORD_ATTEMPTS);
    }
  }

  /** What one turn of the loop does, in these terms. */
  lemma TurnGoes(row: Option<Batch>, r: Report, others: seq<Window>, t: Tries)
    requires row.Some? && Still(row.value, t) < RECORD_ATTEMPTS
    ensures var v := Attempt(row, r, First(others), t);
            var still := Still(row.value, t);
            && (v == Again(Later(row, First(others)), After(row.value, still, t))
                <==> Loses(row, r, First(others)) && still + 1 < RECORD_ATTEMPTS)
            && (v.End? && v.outcome.result == Err(DidNotMove)
                <==> Loses(row, r, First(others)) && still + 1 >= RECORD_ATTEMPTS)
            && (v.Again? ==> v == Again(Later(row, First(others)), After(row.value, still, t)))
  {
  }

  lemma {:induction false} LoopStalls(row: Option<Batch>, r: Report, others: seq<Window>, t: Tries)
    requires row.Some? ==> Still(row.value, t) < RECORD_ATTEMPTS
    ensures Loop(row, r, others, t).result == Err(DidNotMove)
       <==> row.Some? && Stalls(row, r, others, Still(row.value, t))
    decreases |others|
  {
    QuietAttemptEnds(row, r, t);
    if row.Some? {
      TurnGoes(row, r, others, t);
      if others != [] {
        var still, next := Still(row.value, t), Later(row, others[0]);
        StallsStep(row, r, others, still);
        if Loses(row, r, others[0]) && still + 1 < RECORD_ATTEMPTS {
          LoopStalls(next, r, others[1..], After(row.value, still, t));
          StallsStart(next, r, others[1..], 0);
        }
      }
    }
  }

  lemma StreakStarts(row: Option<Batch>, r: Report, others: seq<Window>, k: nat, m: nat)
    ensures Streak(row, r, others, k, m) ==> row.Some?
  {
    if Streak(row, r, others, k, m) { assert Loses(RowAt(row, others, 0), r, others[0]); }
  }

  lemma StallsStart(row: Option<Batch>, r: Report, others: seq<Window>, q: nat)
    ensures Stalls(row, r, others, q) ==> row.Some?
  {
    forall k: nat, m: nat { StreakStarts(row, r, others, k, m); }
  }

  /**
   The did-not-move error is answered exactly when ten turns in a row read the same counters and each
   of them, like every turn before, found others when it came to write.
   */
  lemma GivesUpExactly(row: Option<Batch>, r: Report, others: seq<Window>)
    ensures Loop(row, r, others, FIRST).result == Err(DidNotMove)
       <==> exists k: nat :: Streak(row, r, others, k, RECORD_ATTEMPTS)
  {
    LoopStalls(row, r, others, FIRST);
    forall k: nat { StreakStarts(row, r, others, k, RECORD_ATTEMPTS); }
  }

  /** One success and one job added, over and over: the counters are back at every read. */
  function Churn(n: nat, job: string): seq<Window> {
    seq(n, _ => Window(false, [Reported(Success(job), CountsOf(NOBODY))], false, [Added(1)], false))
  }

  const NO_OPTIONS: Options := Options("", "", false, NO_STEP, NO_STEP, NO_STEP, NO_STEP, NO_STEP, NO_STEP)

  const NOBODY: Batch := Batch("", "", 0, 0, 0, [], NO_OPTIONS, None, None)

  /** Jobs added at the wrong moments do bring the loop to its error. */
  lemma {:induction false} ChurnGivesUp(row: Batch, r: Report, n: nat, t: Tries)
    requires row.failed == 0 && row.failedIds == [] && r.Success?
    requires Still(row, t) == t.stalled < RECORD_ATTEMPTS <= n + t.stalled
    ensures Loop(Some(row), r, Churn(n, "x"), t).result == Err(DidNotMove)
    decreases n
  {
    var w := Churn(n, "x")[0];
    var met := Replay(row, w.mid);
    ReplayOne(row, w.mid[0]);
    ReplayOne(met, w.post[0]);
    assert WithoutFailure([], "x") == [];
    assert met.pending == row.pending - 1 && met.failed == 0 && met.failedIds == [];
    if t.stalled + 1 < RECORD_ATTEMPTS {
      var next := Replay(met, w.post);
      assert next == AddJobs(met, 1);
      assert Churn(n, "x")[1..] == Churn(n - 1, "x");
      ChurnGivesUp(next, r, n - 1, After(row, t.stalled, t));
    }
  }

  lemma ReplayOne(b: Batch, e: Entry)
    ensures Replay(b, [e]) == Replayed(b, e)
  {
    assert [e][..0] == [];
  }

  // ------------------------------------------------------- jobs without an id

  /** A list as every report leaves it, whatever the counter beside it says. */
  ghost predicate Listed(ids: seq<string>) {
    Ascending(ids) && "" !in ids
  }

  /**
   Leaving out the write when the counters would not move loses nothing exactly unless a named failure
   is new to the list and the counter is one ahead of it, which takes a failure without an id.
   */
  lemma ShortCircuitExactly(b: Batch, r: Report)
    requires Listed(b.failedIds)
    ensures (SameCounters(Apply(b, r), b) ==> Apply(b, r) == b)
       <==> !(r.Failure? && r.job != "" && r.job !in b.failedIds && b.failed == |b.failedIds| + 1)
  {
    if r.job != "" {
      WithFailureAdds(b.failedIds, r.job);
      if r.job in b.failedIds { OneEncoding(WithFailure(b.failedIds, r.job), b.failedIds); }
    }
  }

  /** Two lists that hold the same jobs, but perhaps for this one. */
  ghost predicate AgreeBeside(a: seq<string>, b: seq<string>, job: string) {
    forall y :: y != job ==> (y in a <==> y in b)
  }

  /**
   On rows with any counters, a conditional write that matches is the atomic change exactly when the
   two lists hold the same jobs but perhaps for the one that reports.
   */
  lemma AnyMatchedWriteExactly(before: Batch, row: Batch, r: Report)
    requires Listed(before.failedIds) && Listed(row.failedIds) && SameCounters(before, row)
    ensures Written(row, Apply(before, r)) == Apply(row, r) <==> AgreeBeside(before.failedIds, row.failedIds, r.job)
  {
    var a, b := before.failedIds, row.failedIds;
    if r.job == "" {
      if AgreeBeside(a, b, "") {
        forall y ensures y in a <==> y in b {}
        OneEncoding(a, b);
      }
    } else {
      NewLists(a, b, r);
    }
  }

  function NewList(ids: seq<string>, r: Report): seq<string> {
    if r.Success? then WithoutFailure(ids, r.job) else WithFailure(ids, r.job)
  }

  lemma NewLists(a: seq<string>, b: seq<string>, r: Report)
    requires Listed(a) && Listed(b) && r.job != ""
    ensures NewList(a, r) == NewList(b, r) <==> AgreeBeside(a, b, r.job)
  {
    WithFailureAdds(a, r.job);
    WithFailureAdds(b, r.job);
    WithoutFailureRemoves(a, r.job);
    WithoutFailureRemoves(b, r.job);
    var x, y := NewList(a, r), NewList(b, r);
    if x == y {
      forall z | z != r.job ensures z in a <==> z in b {
        assert z in x <==> z in a;
        assert z in y <==> z in b;
      }
    }
    if AgreeBeside(a, b, r.job) {
      forall z ensures z in x <==> z in y {}
      OneEncoding(x, y);
    }
  }

  /** After a failure without an id, the next named one changes the list and not the counters: nothing is written. */
  lemma UnnamedFailureHidesANamedOne(b: Batch, others: seq<Window>)
    requires b.failed == 0 && b.failedIds == []
    ensures var row := Apply(b, Failure(""));
            && Loop(Some(row), Failure("a"), others, FIRST).row == Some(row)
            && Apply(row, Failure("a")).failedIds == ["a"]
  {
    OneFailure("a");
  }

  /** One failure without an id, one with: the counters are back, the write matches and the named failure is lost. */
  lemma UnnamedFailureLosesANamedOne(row: Batch, counts: Counts, t: Tries)
    requires row.failed == 1 && row.failedIds == []
    ensures var mid := [Reported(Failure(""), counts), Reported(Failure("b"), counts)];
            var v := Attempt(Some(row), Success("x"), Window(false, mid, false, [], false), t);
            && v.End? && v.outcome.row.Some? && v.outcome.row.value.failedIds == []
            && Apply(Replay(row, mid), Success("x")).failedIds == ["b"]
  {
    var first, second := Reported(Failure(""), counts), Reported(Failure("b"), counts);
    var mid := [first, second];
    assert mid[..1] == [first];
    ReplayOne(row, first);
    OneFailure("b");
    assert Replay(row, mid) == Apply(Apply(row, Failure("")), Failure("b"));
    assert WithoutFailure([], "x") == [];
    assert Delete(["b"], "x") == ["b"] + Delete([], "x");
  }

  lemma OneFailure(job: string)
    requires job != ""
    ensures WithFailure([], job) == [job]
  {
    var ids: seq<string> := [];
    assert (ids + [job])[..0] == ids && (ids + [job])[0] == job;
    assert Sort(ids + [job]) == Insert(Sort(ids), job);
  }
}
