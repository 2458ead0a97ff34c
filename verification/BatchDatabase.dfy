/**
 Many workers reporting against one row: read, decide, and write conditioned on the two
 counters, with every statement a step of its own. The atomic form it must equal is the
 change made at once, which is what the in-memory repository does under its mutex.
 */
module BatchDatabase {
  import opened Batches
  import opened Queues

  // ------------------------------------------------------------ one report

  predicate SameCounters(a: Batch, b: Batch) {
    a.pending == b.pending && a.failed == b.failed
  }

  /** UPDATE ... SET pending_jobs, failed_jobs, failed_job_ids: the other columns stay. */
  function Written(row: Batch, after: Batch): Batch {
    row.(pending := after.pending, failed := after.failed, failedIds := after.failedIds)
  }

  /** Equal but for the two stamps, which no report reads or writes. */
  predicate SameButStamps(a: Batch, b: Batch) {
    a == b.(cancelledAt := a.cancelledAt, finishedAt := a.finishedAt)
  }

  /**
   How a row has moved since it was read, with nothing added: not at all, to fewer pending
   jobs, or to as many pending and more failed.
   */
  predicate Progressed(was: Batch, row: Batch) {
    && SameButStamps(was.(pending := row.pending, failed := row.failed, failedIds := row.failedIds), row)
    && (row.pending < was.pending
        || (row.pending == was.pending && row.failed > was.failed)
        || (SameCounters(was, row) && row.failedIds == was.failedIds))
  }

  lemma ProgressedThenReport(was: Batch, row: Batch, r: Report)
    requires Tidy(row) && Progressed(was, row) && r.job != ""
    ensures Progressed(was, Apply(row, r))
    ensures SameCounters(row, Apply(row, r)) || !SameCounters(was, Apply(row, r))
  {
    ApplyMoves(row, r);
  }

  /**
   A conditional write that finds the counters it read is the atomic change exactly when it
   also finds the failed list it read, which the WHERE clause does not ask.
   */
  lemma MatchedWriteExactly(before: Batch, row: Batch, r: Report)
    requires Tidy(before) && Tidy(row) && r.job != ""
    requires SameCounters(before, row) && !SameCounters(before, Apply(before, r))
    ensures Written(row, Apply(before, r)) == Apply(row, r) <==> before.failedIds == row.failedIds
  {
    var a, b := before.failedIds, row.failedIds;
    ApplyMoves(before, r);
    ApplyMoves(row, r);
    WithFailureAdds(a, r.job);
    WithFailureAdds(b, r.job);
    WithoutFailureRemoves(a, r.job);
    WithoutFailureRemoves(b, r.job);
    if Written(row, Apply(before, r)) == Apply(row, r) {
      OneEncoding(a, b);
    }
  }

  // --------------------------------------------------------------- workers

  /** Where a call stands: about to read again after a lost race, or holding the row it read. */
  datatype Phase =
    | Retrying(report: Report)
    | HasRead(report: Report, before: Batch, adds: nat)

  datatype Entry =
    | Reported(report: Report, counts: Counts)
    | Added(amount: int)
    | Finished(at: int)
    | Stopped(at: int)

  /**
   The row, the calls under way, how many IncrementTotalJobs have been committed, what has been
   committed in order, how many effects of each committed report have been carried out, the
   callbacks pushed so far, and the queue they are pushed to.
   */
  datatype System = System(row: Batch, workers: map<nat, Phase>, adds: nat,
                           log: seq<Entry>, fired: seq<nat>, pushed: seq<Callback>, queue: seq<Message>)

  datatype Action =
    | Read(worker: nat, report: Report)
    | Write(worker: nat)
    | Add(amount: int)
    | Stop(at: int)
    | Fire(entry: nat, at: int)

  function Start(b: Batch): System {
    System(b, map[], 0, [], [], [], [])
  }

  function Commit(s: System, e: Entry): System {
    s.(log := s.log + [e], fired := s.fired + [0])
  }

  predicate MayRead(s: System, w: nat, r: Report) {
    w !in s.workers || s.workers[w] == Retrying(r)
  }

  function EffectsOf(e: Entry): seq<Effect> {
    if e.Reported? then Effects(e.report, e.counts) else []
  }

  /**
   One statement. A read that decides the report changes nothing ends the call there. Every
   effect of a committed report is a step of its own, in that report's order.
   An action that is not possible where the system stands does nothing.
   */
  function Next(s: System, a: Action): System {
    match a
    case Read(w, r) =>
      if !MayRead(s, w, r) then s
      else
        var after := Apply(s.row, r);
        if SameCounters(s.row, after)
        then Commit(s.(workers := s.workers - {w}), Reported(r, CountsOf(after)))
        else s.(workers := s.workers[w := HasRead(r, s.row, s.adds)])
    case Write(w) =>
      if w !in s.workers || !s.workers[w].HasRead? then s
      else
        var p := s.workers[w];
        var after := Apply(p.before, p.report);
        if SameCounters(s.row, p.before)
        then Commit(s.(row := Written(s.row, after), workers := s.workers - {w}), Reported(p.report, CountsOf(after)))
        else s.(workers := s.workers[w := Retrying(p.report)])
    case Add(n) =>
      if n <= 0 then s else Commit(s.(row := AddJobs(s.row, n), adds := s.adds + 1), Added(n))
    case Stop(at) => Commit(s.(row := Cancelled(s.row, at)), Stopped(at))
    case Fire(i, at) =>
      if i >= |s.log| || i >= |s.fired| || s.fired[i] >= |EffectsOf(s.log[i])| then s
      else
        CarriedOut(s.(fired := s.fired[i := s.fired[i] + 1]), EffectsOf(s.log[i])[s.fired[i]], at)
  }

  function CarriedOut(s: System, e: Effect, at: int): System {
    match e
    case Push(c) =>
      s.(pushed := s.pushed + [c],
         queue := s.queue + [CallbackMessage(s.row.options, CallbackStep(s.row.options, c))])
    case Finish => Commit(s.(row := MarkFinished(s.row, at)), Finished(at))
    case Cancel => Commit(s.(row := Cancelled(s.row, at)), Stopped(at))
  }

  function Exec(s: System, actions: seq<Action>): System {
    if actions == [] then s else Next(Exec(s, actions[..|actions| - 1]), actions[|actions| - 1])
  }

  // ------------------------------------------------------- the atomic form

  function Replayed(b: Batch, e: Entry): Batch {
    match e
    case Reported(r, _) => Apply(b, r)
    case Added(n) => AddJobs(b, n)
    case Finished(at) => MarkFinished(b, at)
    case Stopped(at) => Cancelled(b, at)
  }

  /** The in-memory repository given the committed calls one after another. */
  function Replay(b: Batch, log: seq<Entry>): Batch {
    if log == [] then b else Replayed(Replay(b, log[..|log| - 1]), log[|log| - 1])
  }

  /** Every answer is the one the in-memory repository gives at that place in the log. */
  ghost predicate Explained(b: Batch, log: seq<Entry>) {
    forall i :: 0 <= i < |log| && log[i].Reported? ==>
      && log[i].counts == CountsOf(log[i].counts.batch)
      && SameButStamps(log[i].counts.batch, Apply(Replay(b, log[..i]), log[i].report))
  }

  ghost predicate Named(actions: seq<Action>) {
    forall a :: a in actions && a.Read? ==> a.report.job != ""
  }

  /** No IncrementTotalJobs was committed between the read of this write and the write. */
  predicate Uncrossed(s: System, a: Action) {
    a.Write? && a.worker in s.workers && s.workers[a.worker].HasRead? ==> s.workers[a.worker].adds == s.adds
  }

  ghost predicate NeverCrossed(s: System, actions: seq<Action>) {
    forall i :: 0 <= i < |actions| ==> Uncrossed(Exec(s, actions[..i]), actions[i])
  }

  ghost predicate ReaderFine(s: System, p: Phase) {
    && p.report.job != ""
    && (p.HasRead? ==>
          && Tidy(p.before) && !SameCounters(p.before, Apply(p.before, p.report))
          && p.adds <= s.adds && (p.adds == s.adds ==> Progressed(p.before, s.row)))
  }

  ghost predicate Inv(b: Batch, s: System) {
    && Tidy(s.row) && |s.fired| == |s.log|
    && s.row == Replay(b, s.log) && Explained(b, s.log)
    && (forall w :: w in s.workers ==> ReaderFine(s, s.workers[w]))
  }

  lemma CommitExplains(b: Batch, log: seq<Entry>, e: Entry)
    requires Explained(b, log)
    requires e.Reported? ==> e.counts == CountsOf(e.counts.batch)
    requires e.Reported? ==> SameButStamps(e.counts.batch, Apply(Replay(b, log), e.report))
    ensures Explained(b, log + [e]) && Replay(b, log + [e]) == Replayed(Replay(b, log), e)
  {
    assert (log + [e])[..|log|] == log;
    forall i | 0 <= i < |log| ensures (log + [e])[..i] == log[..i] {}
  }

  lemma ReadKeeps(b: Batch, s: System, w: nat, r: Report)
    requires Inv(b, s) && r.job != ""
    ensures Inv(b, Next(s, Read(w, r)))
  {
    if MayRead(s, w, r) {
      ApplyMoves(s.row, r);
      if SameCounters(s.row, Apply(s.row, r)) { CommitExplains(b, s.log, Reported(r, CountsOf(Apply(s.row, r)))); }
    }
  }

  lemma WriteKeeps(b: Batch, s: System, w: nat)
    requires Inv(b, s) && Uncrossed(s, Write(w))
    ensures Inv(b, Next(s, Write(w)))
  {
    if w in s.workers && s.workers[w].HasRead? {
      var p := s.workers[w];
      if SameCounters(s.row, p.before) {
        MatchedWriteExactly(p.before, s.row, p.report);
        ApplyMoves(s.row, p.report);
        CommitExplains(b, s.log, Reported(p.report, CountsOf(Apply(p.before, p.report))));
        forall v | v in s.workers && s.workers[v].HasRead? && s.workers[v].adds == s.adds
          ensures Progressed(s.workers[v].before, Apply(s.row, p.report))
        {
          ProgressedThenReport(s.workers[v].before, s.row, p.report);
        }
      }
    }
  }

  /** A statement that is no report and leaves the counters where they are, or adds jobs. */
  lemma StatementKeeps(b: Batch, s: System, t: System, e: Entry)
    requires Inv(b, s) && !e.Reported?
    requires t == s.(row := Replayed(s.row, e), adds := if e.Added? then s.adds + 1 else s.adds)
    ensures Inv(b, Commit(t, e))
  {
    CommitExplains(b, s.log, e);
  }

  lemma EffectKeeps(b: Batch, s: System, e: Effect, at: int)
    requires Inv(b, s)
    ensures Inv(b, CarriedOut(s, e, at))
  {
    match e {
      case Push(_) =>
      case Finish => StatementKeeps(b, s, s.(row := MarkFinished(s.row, at)), Finished(at));
      case Cancel => StatementKeeps(b, s, s.(row := Cancelled(s.row, at)), Stopped(at));
    }
  }

  lemma StampsKeep(b: Batch, s: System, a: Action)
    requires Inv(b, s) && (a.Add? || a.Stop? || a.Fire?)
    ensures Inv(b, Next(s, a))
  {
    match a {
      case Add(n) => if n > 0 { StatementKeeps(b, s, s.(row := AddJobs(s.row, n), adds := s.adds + 1), Added(n)); }
      case Stop(at) => StatementKeeps(b, s, s.(row := Cancelled(s.row, at)), Stopped(at));
      case Fire(i, at) => FireKeeps(b, s, i, at);
    }
  }

  lemma SameRow(b: Batch, s: System, t: System)
    requires Inv(b, s) && t.row == s.row && t.log == s.log && |t.fired| == |s.fired|
    requires t.workers == s.workers && t.adds == s.adds
    ensures Inv(b, t)
  {
  }

  lemma FireKeeps(b: Batch, s: System, i: nat, at: int)
    requires Inv(b, s)
    ensures Inv(b, Next(s, Fire(i, at)))
  {
    if i < |s.log| && s.fired[i] < |EffectsOf(s.log[i])| {
      SameRow(b, s, s.(fired := s.fired[i := s.fired[i] + 1]));
      EffectKeeps(b, s.(fired := s.fired[i := s.fired[i] + 1]), EffectsOf(s.log[i])[s.fired[i]], at);
    }
  }

  /**
   Every interleaving of calls about named jobs is the in-memory repository given the same calls
   in the order they committed: same row, same answers, as long as no jobs are added between
   a read and the write it leads to. Comparing two counters is then as good as comparing the row.
   */
  lemma {:induction false} Linearizable(b: Batch, actions: seq<Action>)
    requires Tidy(b) && Named(actions) && NeverCrossed(Start(b), actions)
    ensures Inv(b, Exec(Start(b), actions))
    ensures var s := Exec(Start(b), actions); s.row == Replay(b, s.log) && Explained(b, s.log)
  {
    if actions != [] {
      var init, last := actions[..|actions| - 1], actions[|actions| - 1];
      assert last in actions && forall a :: a in init ==> a in actions;
      forall i | 0 <= i < |init| ensures Uncrossed(Exec(Start(b), init[..i]), init[i]) {
        assert init[..i] == actions[..i];
      }
      Linearizable(b, init);
      var s := Exec(Start(b), init);
      match last {
        case Read(w, r) => ReadKeeps(b, s, w, r);
        case Write(w) => WriteKeeps(b, s, w);
        case _ => StampsKeep(b, s, last);
      }
    }
  }

  // ----------------------------------------------------- the lost failure

  lemma {:induction false} ExecJoins(s: System, a: seq<Action>, b: seq<Action>)
    ensures Exec(s, a + b) == Exec(Exec(s, a), b)
  {
    if b == [] {
      assert a + b == a;
    } else {
      assert (a + b)[..|a + b| - 1] == a + b[..|b| - 1];
      ExecJoins(s, a, b[..|b| - 1]);
    }
  }

  lemma ExecOne(s: System, a: Action)
    ensures Exec(s, [a]) == Next(s, a)
  {
    assert [a][..0] == [];
  }

  lemma ExecTwo(s: System, a: Action, b: Action)
    ensures Exec(s, [a, b]) == Next(Next(s, a), b)
  {
    assert [a, b] == [a] + [b];
    ExecJoins(s, [a], [b]);
    ExecOne(s, a);
    ExecOne(Next(s, a), b);
  }

  lemma WrittenIsApplied(row: Batch, r: Report)
    ensures Written(row, Apply(row, r)) == Apply(row, r)
  {
  }

  /** A write that finds the row as it was read. */
  lemma WriteAfterRead(s: System, t: System, w: nat, r: Report)
    requires w !in s.workers && t == s.(workers := s.workers[w := HasRead(r, s.row, s.adds)])
    ensures Next(t, Write(w)) == Commit(s.(row := Apply(s.row, r)), Reported(r, CountsOf(Apply(s.row, r))))
  {
    WrittenIsApplied(s.row, r);
    assert t.workers - {w} == s.workers;
  }

  /** A call nobody interrupts is the atomic change. */
  lemma Uninterrupted(s: System, w: nat, r: Report)
    requires w !in s.workers && !SameCounters(s.row, Apply(s.row, r))
    ensures Exec(s, [Read(w, r), Write(w)])
         == Commit(s.(row := Apply(s.row, r)), Reported(r, CountsOf(Apply(s.row, r))))
  {
    ExecTwo(s, Read(w, r), Write(w));
    WriteAfterRead(s, Next(s, Read(w, r)), w, r);
  }

  lemma ReplayJoins(b: Batch, log: seq<Entry>, e: Entry)
    ensures Replay(b, log + [e]) == Replayed(Replay(b, log), e)
  {
    assert (log + [e])[..|log|] == log;
  }

  lemma ListsInTheScenario()
    ensures WithFailure(["a"], "c") == ["a", "c"] && WithFailure(["b"], "c") == ["b", "c"]
    ensures WithFailure([], "b") == ["b"] && WithoutFailure(["a"], "a") == []
  {
    forall x | x in ["a", "b"] ensures WithFailure([x], "c") == [x, "c"] {
      assert ([x] + ["c"])[..1] == [x];
      SortKeepsAscending([x]);
      InsertLast([x], "c");
    }
    assert ([] + ["b"])[..0] == [];
  }

  /** The calls between the read and the write of worker 0. */
  const BETWEEN: seq<Action> :=
    [Read(1, Success("a")), Write(1)] + [Read(1, Failure("b")), Write(1)] + [Add(1)]

  lemma BetweenReadAndWrite(s: System) returns (t: System)
    requires 1 !in s.workers && s.row.pending == 2 && s.row.failed == 1 && s.row.failedIds == ["a"]
    ensures t == Exec(s, BETWEEN)
    ensures t.workers == s.workers && SameCounters(t.row, s.row) && t.row.failedIds == ["b"]
    ensures s.log == [] ==> Replay(s.row, t.log).failedIds == ["b"]
  {
    ListsInTheScenario();
    Uninterrupted(s, 1, Success("a"));
    var s1 := Exec(s, [Read(1, Success("a")), Write(1)]);
    Uninterrupted(s1, 1, Failure("b"));
    var s2 := Exec(s1, [Read(1, Failure("b")), Write(1)]);
    ExecOne(s2, Add(1));
    ExecJoins(s, [Read(1, Success("a")), Write(1)], [Read(1, Failure("b")), Write(1)]);
    ExecJoins(s, [Read(1, Success("a")), Write(1)] + [Read(1, Failure("b")), Write(1)], [Add(1)]);
    t := Next(s2, Add(1));
    ReplayJoins(s.row, s.log, Reported(Success("a"), CountsOf(s1.row)));
    ReplayJoins(s.row, s1.log, Reported(Failure("b"), CountsOf(s2.row)));
    ReplayJoins(s.row, s2.log, Added(1));
  }

  lemma MatchedWrite(t: System, w: nat, r: Report, before: Batch, adds: nat)
    requires w in t.workers && t.workers[w] == HasRead(r, before, adds) && SameCounters(t.row, before)
    ensures var s := Next(t, Write(w));
            && s.row.failedIds == Apply(before, r).failedIds
            && s.log == t.log + [Reported(r, CountsOf(Apply(before, r)))]
  {
  }

  /**
   A job added in between brings the counters back and a failure is overwritten. Worker 0 reads
   (2 pending, "a" failed) to report "c"; meanwhile "a" succeeds, "b" fails and one job is added;
   worker 0's write then matches. The failure of "b" is gone, where the in-memory repository
   given the same calls keeps it.
   */
  lemma AddedJobLosesAFailure(b: Batch)
    requires b.pending == 2 && b.failed == 1 && b.failedIds == ["a"]
    ensures var s := Exec(Start(b), [Read(0, Failure("c"))] + BETWEEN + [Write(0)]);
            s.row.failedIds == ["a", "c"] && Replay(b, s.log).failedIds == ["b", "c"]
  {
    ListsInTheScenario();
    var read := Read(0, Failure("c"));
    ExecOne(Start(b), read);
    var s := Next(Start(b), read);
    assert s == Start(b).(workers := map[0 := HasRead(Failure("c"), b, 0)]);
    var t := BetweenReadAndWrite(s);
    ExecJoins(Start(b), [read], BETWEEN);
    ExecJoins(Start(b), [read] + BETWEEN, [Write(0)]);
    ExecOne(t, Write(0));
    MatchedWrite(t, 0, Failure("c"), b, 0);
    ReplayJoins(b, t.log, Reported(Failure("c"), CountsOf(Apply(b, Failure("c")))));
  }
}
