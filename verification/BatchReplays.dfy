/**
 Runs in which jobs are added too: exactly which of them leave the row of the atomic repository.
 */
module BatchReplays {
  import opened Batches
  import opened BatchDatabase

  /** Equal but for the stamps and the number of jobs in all, which an addition moves and no report reads. */
  predicate SameReport(a: Batch, b: Batch) {
    a == b.(total := a.total, cancelledAt := a.cancelledAt, finishedAt := a.finishedAt)
  }

  /** Every answer has the counters and the list the atomic repository has at that place in the log. */
  ghost predicate Told(b: Batch, log: seq<Entry>) {
    forall i :: 0 <= i < |log| && log[i].Reported? ==> ToldAt(Replay(b, log[..i]), log[i])
  }

  predicate ToldAt(row: Batch, e: Entry)
    requires e.Reported?
  {
    e.counts == CountsOf(e.counts.batch) && SameReport(e.counts.batch, Apply(row, e.report))
  }

  /** The row, and every answer so far, are those of the committed calls made one at a time. */
  ghost predicate Replays(b: Batch, s: System) {
    s.row == Replay(b, s.log) && Told(b, s.log)
  }

  /** A conditional write that matches finds the failed list it read. */
  predicate FindsItsList(s: System, a: Action) {
    a.Write? && a.worker in s.workers && s.workers[a.worker].HasRead? ==>
      var before := s.workers[a.worker].before;
      SameCounters(s.row, before) ==> s.row.failedIds == before.failedIds
  }

  // ----------------------------------------------------- what every run keeps

  /** What was read is the row but for what statements move. */
  predicate SameBatch(before: Batch, row: Batch) {
    SameReport(before.(pending := row.pending, failed := row.failed, failedIds := row.failedIds), row)
  }

  ghost predicate ReadFine(row: Batch, p: Phase) {
    && p.report.job != ""
    && (p.HasRead? ==>
          Tidy(p.before) && SameBatch(p.before, row) && !SameCounters(p.before, Apply(p.before, p.report)))
  }

  ghost predicate Sane(s: System) {
    && Tidy(s.row) && |s.fired| == |s.log|
    && forall w :: w in s.workers ==> ReadFine(s.row, s.workers[w])
  }

  lemma ReadFineLater(row: Batch, row': Batch, p: Phase)
    requires ReadFine(row, p) && SameBatch(row, row')
    ensures ReadFine(row', p)
  {
  }

  lemma SaneAfter(s: System, t: System)
    requires Sane(s) && Tidy(t.row) && SameBatch(s.row, t.row) && |t.fired| == |t.log|
    requires forall w :: w in t.workers ==> w in s.workers && t.workers[w] == s.workers[w]
    ensures Sane(t)
  {
    forall w | w in t.workers ensures ReadFine(t.row, t.workers[w]) { ReadFineLater(s.row, t.row, s.workers[w]); }
  }

  lemma AppliedRow(row: Batch, r: Report)
    requires Tidy(row) && r.job != ""
    ensures Tidy(Apply(row, r)) && SameBatch(row, Apply(row, r))
  {
    ApplyMoves(row, r);
  }

  lemma SaneRead(s: System, w: nat, r: Report)
    requires Sane(s) && r.job != ""
    ensures Sane(Next(s, Read(w, r)))
  {
  }

  lemma SaneWrite(s: System, w: nat)
    requires Sane(s)
    ensures Sane(Next(s, Write(w)))
  {
    if w in s.workers && s.workers[w].HasRead? {
      var p := s.workers[w];
      AppliedRow(p.before, p.report);
      if SameCounters(s.row, p.before) { SaneAfter(s, Next(s, Write(w))); }
    }
  }

  lemma SaneStatement(s: System, t: System, e: Entry)
    requires Sane(s) && !e.Reported? && t == s.(row := Replayed(s.row, e), adds := t.adds, fired := t.fired)
    requires |t.fired| == |s.fired|
    ensures Sane(Commit(t, e))
  {
    SaneAfter(s, Commit(t, e));
  }

  lemma SaneEffect(s: System, e: Effect, at: int)
    requires Sane(s)
    ensures Sane(CarriedOut(s, e, at))
  {
    match e {
      case Push(_) =>
      case Finish => SaneStatement(s, s.(row := MarkFinished(s.row, at)), Finished(at));
      case Cancel => SaneStatement(s, s.(row := Cancelled(s.row, at)), Stopped(at));
    }
  }

  lemma SaneFire(s: System, i: nat, at: int)
    requires Sane(s)
    ensures Sane(Next(s, Fire(i, at)))
  {
    if i < |s.log| && s.fired[i] < |EffectsOf(s.log[i])| {
      SaneAfter(s, s.(fired := s.fired[i := s.fired[i] + 1]));
      SaneEffect(s.(fired := s.fired[i := s.fired[i] + 1]), EffectsOf(s.log[i])[s.fired[i]], at);
    }
  }

  lemma SaneAdd(s: System, n: int)
    requires Sane(s)
    ensures Sane(Next(s, Add(n)))
  {
    if n > 0 { SaneStatement(s, s.(row := AddJobs(s.row, n), adds := s.adds + 1), Added(n)); }
  }

  lemma SaneNext(s: System, a: Action)
    requires Sane(s) && (a.Read? ==> a.report.job != "")
    ensures Sane(Next(s, a))
  {
    match a {
      case Read(w, r) => SaneRead(s, w, r);
      case Write(w) => SaneWrite(s, w);
      case Add(n) => SaneAdd(s, n);
      case Stop(at) => SaneStatement(s, s.(row := Cancelled(s.row, at)), Stopped(at));
      case Fire(i, at) => SaneFire(s, i, at);
    }
  }

  lemma {:induction false} SaneAlways(b: Batch, actions: seq<Action>)
    requires Tidy(b) && Named(actions)
    ensures Sane(Exec(Start(b), actions))
  {
    if actions != [] {
      var init, last := actions[..|actions| - 1], actions[|actions| - 1];
      assert last in actions && forall a :: a in init ==> a in actions;
      SaneAlways(b, init);
      SaneNext(Exec(Start(b), init), last);
    }
  }

  // ---------------------------------------------------------------- one step

  /** One more entry replays if and only if it leaves the row, and tells what, the atomic call would. */
  lemma EntryReplays(b: Batch, log: seq<Entry>, e: Entry, row: Batch, row': Batch)
    requires row == Replay(b, log) && Told(b, log)
    ensures row' == Replay(b, log + [e]) && Told(b, log + [e])
       <==> row' == Replayed(row, e) && (e.Reported? ==> ToldAt(row, e))
  {
    var all := log + [e];
    assert all[..|log|] == log && all[|log|] == e;
    forall i | 0 <= i < |log| ensures all[..i] == log[..i] && all[i] == log[i] {}
    if Told(b, all) && e.Reported? { assert ToldAt(Replay(b, all[..|log|]), all[|log|]); }
    if e.Reported? ==> ToldAt(row, e) {
      forall i | 0 <= i < |all| && all[i].Reported? ensures ToldAt(Replay(b, all[..i]), all[i]) {
        if i < |log| { assert ToldAt(Replay(b, log[..i]), log[i]); }
      }
    }
  }

  lemma ReadReplays(b: Batch, s: System, w: nat, r: Report)
    requires Replays(b, s) && Tidy(s.row) && r.job != ""
    ensures Replays(b, Next(s, Read(w, r)))
  {
    var after := Apply(s.row, r);
    if MayRead(s, w, r) && SameCounters(s.row, after) {
      ApplyMoves(s.row, r);
      EntryReplays(b, s.log, Reported(r, CountsOf(after)), s.row, s.row);
    }
  }

  /** A matched write tells what the atomic call would if it finds its list. */
  lemma MatchedTells(row: Batch, p: Phase)
    requires p.HasRead? && SameBatch(p.before, row)
    requires SameCounters(row, p.before) && row.failedIds == p.before.failedIds
    ensures ToldAt(row, Reported(p.report, CountsOf(Apply(p.before, p.report))))
  {
  }

  lemma WriteReplays(b: Batch, s: System, w: nat)
    requires Replays(b, s) && Sane(s)
    ensures Replays(b, Next(s, Write(w))) <==> FindsItsList(s, Write(w))
  {
    if w in s.workers && s.workers[w].HasRead? && SameCounters(s.row, s.workers[w].before) {
      var p := s.workers[w];
      var after := Apply(p.before, p.report);
      MatchedWriteExactly(p.before, s.row, p.report);
      if s.row.failedIds == p.before.failedIds { MatchedTells(s.row, p); }
      EntryReplays(b, s.log, Reported(p.report, CountsOf(after)), s.row, Written(s.row, after));
    }
  }

  lemma StatementReplays(b: Batch, s: System, t: System, e: Entry)
    requires Replays(b, s) && !e.Reported? && t.log == s.log && t.row == Replayed(s.row, e)
    ensures Replays(b, Commit(t, e))
  {
    EntryReplays(b, s.log, e, s.row, t.row);
  }

  lemma EffectReplays(b: Batch, s: System, e: Effect, at: int)
    requires Replays(b, s)
    ensures Replays(b, CarriedOut(s, e, at))
  {
    match e {
      case Push(_) =>
      case Finish => StatementReplays(b, s, s.(row := MarkFinished(s.row, at)), Finished(at));
      case Cancel => StatementReplays(b, s, s.(row := Cancelled(s.row, at)), Stopped(at));
    }
  }

  /** A step of a run that replays so far replays too if and only if no matched write missed its list. */
  lemma StepReplays(b: Batch, s: System, a: Action)
    requires Replays(b, s) && Sane(s) && (a.Read? ==> a.report.job != "")
    ensures Replays(b, Next(s, a)) <==> FindsItsList(s, a)
  {
    match a {
      case Read(w, r) => ReadReplays(b, s, w, r);
      case Write(w) => WriteReplays(b, s, w);
      case Add(n) => if n > 0 { StatementReplays(b, s, s.(row := AddJobs(s.row, n), adds := s.adds + 1), Added(n)); }
      case Stop(at) => StatementReplays(b, s, s.(row := Cancelled(s.row, at)), Stopped(at));
      case Fire(i, at) =>
        if i < |s.log| && s.fired[i] < |EffectsOf(s.log[i])| {
          EffectReplays(b, s.(fired := s.fired[i := s.fired[i] + 1]), EffectsOf(s.log[i])[s.fired[i]], at);
        }
    }
  }

  // ------------------------------------------------------------------- runs

  /** After each of the first k steps. */
  ghost predicate AlwaysReplays(b: Batch, actions: seq<Action>, k: nat)
    requires k <= |actions|
  {
    Replays(b, Exec(Start(b), actions[..k])) && (k > 0 ==> AlwaysReplays(b, actions, k - 1))
  }

  /** At each of the first k steps. */
  ghost predicate AlwaysFinds(b: Batch, actions: seq<Action>, k: nat)
    requires k <= |actions|
  {
    k > 0 ==> FindsItsList(Exec(Start(b), actions[..k - 1]), actions[k - 1]) && AlwaysFinds(b, actions, k - 1)
  }

  lemma RunStep(b: Batch, actions: seq<Action>, k: nat)
    requires Tidy(b) && Named(actions) && k < |actions| && Replays(b, Exec(Start(b), actions[..k]))
    ensures Replays(b, Exec(Start(b), actions[..k + 1])) <==> FindsItsList(Exec(Start(b), actions[..k]), actions[k])
  {
    assert forall a :: a in actions[..k] ==> a in actions;
    assert actions[k] in actions && actions[..k + 1][..k] == actions[..k];
    SaneAlways(b, actions[..k]);
    StepReplays(b, Exec(Start(b), actions[..k]), actions[k]);
  }

  /**
   Every interleaving of statements about named jobs, additions at any moment included, is the atomic repository
   given the same calls in commit order, step by step up to the k-th, if and only if every conditional write
   that matched found the failed list it had read.
   */
  lemma {:induction false} ReplaysExactly(b: Batch, actions: seq<Action>, k: nat)
    requires Tidy(b) && Named(actions) && k <= |actions|
    ensures AlwaysReplays(b, actions, k) <==> AlwaysFinds(b, actions, k)
  {
    if k == 0 {
      assert actions[..0] == [];
    } else {
      ReplaysExactly(b, actions, k - 1);
      if AlwaysReplays(b, actions, k - 1) { RunStep(b, actions, k - 1); }
    }
  }
}
