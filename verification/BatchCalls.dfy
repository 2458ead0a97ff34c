/**
 What no interleaving loses: a call that was begun, and a cancellation.
 */
module BatchCalls {
  import opened Batches
  import opened BatchDatabase
  import opened Wrappers

  // --------------------------------------------------------------- the calls

  /** The workers with a call about this report under way. */
  function Under(s: System, r: Report): set<nat> {
    set w | w in s.workers && s.workers[w].report == r
  }

  function Logged(log: seq<Entry>, r: Report): nat {
    if log == [] then 0
    else
      var last := log[|log| - 1];
      Logged(log[..|log| - 1], r) + if last.Reported? && last.report == r then 1 else 0
  }

  /** How many calls about this report have begun: reads by a worker that had none under way. */
  function Begun(s: System, actions: seq<Action>, r: Report): nat {
    if actions == [] then 0
    else
      var init, last := actions[..|actions| - 1], actions[|actions| - 1];
      Begun(s, init, r) + if last.Read? && last.report == r && last.worker !in Exec(s, init).workers then 1 else 0
  }

  lemma LoggedNext(log: seq<Entry>, e: Entry, r: Report)
    ensures Logged(log + [e], r) == Logged(log, r) + if e.Reported? && e.report == r then 1 else 0
  {
    assert (log + [e])[..|log|] == log;
  }

  /** A call that ends is one less under way, if it was. */
  lemma UnderWithout(s: System, t: System, w: nat, r: Report)
    requires t.workers == s.workers - {w}
    ensures |Under(t, r)| == |Under(s, r)| - if w in Under(s, r) then 1 else 0
  {
    assert Under(t, r) == Under(s, r) - {w};
  }

  lemma AlikeBeside(a: set<nat>, b: set<nat>, w: nat)
    requires forall v :: v != w ==> (v in a <==> v in b)
    ensures |b| == |a| - (if w in a then 1 else 0) + if w in b then 1 else 0
  {
    assert a - {w} == b - {w};
    assert w !in a ==> a - {w} == a;
    assert w !in b ==> b - {w} == b;
  }

  lemma UnderWith(s: System, t: System, w: nat, p: Phase, r: Report)
    requires t.workers == s.workers[w := p]
    ensures |Under(t, r)| == |Under(s, r)| - (if w in Under(s, r) then 1 else 0) + if p.report == r then 1 else 0
  {
    AlikeBeside(Under(s, r), Under(t, r), w);
  }

  lemma CommitLogs(s: System, e: Entry, r: Report)
    ensures Logged(Commit(s, e).log, r) == Logged(s.log, r) + if e.Reported? && e.report == r then 1 else 0
    ensures Under(Commit(s, e), r) == Under(s, r)
  {
    LoggedNext(s.log, e, r);
  }

  /** Calls under way and calls answered. */
  function Standing(s: System, r: Report): nat {
    |Under(s, r)| + Logged(s.log, r)
  }

  lemma ReadStands(s: System, w: nat, said: Report, r: Report)
    ensures Standing(Next(s, Read(w, said)), r) == Standing(s, r) + if said == r && w !in s.workers then 1 else 0
  {
    if MayRead(s, w, said) {
      var after := Apply(s.row, said);
      if SameCounters(s.row, after) {
        var t := s.(workers := s.workers - {w});
        UnderWithout(s, t, w, r);
        CommitLogs(t, Reported(said, CountsOf(after)), r);
      } else {
        UnderWith(s, Next(s, Read(w, said)), w, HasRead(said, s.row, s.adds), r);
      }
    }
  }

  lemma WriteStands(s: System, w: nat, r: Report)
    ensures Standing(Next(s, Write(w)), r) == Standing(s, r)
  {
    if w in s.workers && s.workers[w].HasRead? {
      var p := s.workers[w];
      var after := Apply(p.before, p.report);
      if SameCounters(s.row, p.before) {
        var t := s.(row := Written(s.row, after), workers := s.workers - {w});
        UnderWithout(s, t, w, r);
        CommitLogs(t, Reported(p.report, CountsOf(after)), r);
      } else {
        UnderWith(s, Next(s, Write(w)), w, Retrying(p.report), r);
      }
    }
  }

  lemma CarriedStands(s: System, e: Effect, at: int, r: Report)
    ensures Standing(CarriedOut(s, e, at), r) == Standing(s, r)
  {
    match e {
      case Push(_) => assert Under(CarriedOut(s, e, at), r) == Under(s, r);
      case Finish => CommitLogs(s.(row := MarkFinished(s.row, at)), Finished(at), r);
      case Cancel => CommitLogs(s.(row := Cancelled(s.row, at)), Stopped(at), r);
    }
  }

  lemma OtherStands(s: System, a: Action, r: Report)
    requires a.Add? || a.Stop? || a.Fire?
    ensures Standing(Next(s, a), r) == Standing(s, r)
  {
    match a {
      case Add(n) => CommitLogs(s.(row := AddJobs(s.row, n), adds := s.adds + 1), Added(n), r);
      case Stop(at) => CommitLogs(s.(row := Cancelled(s.row, at)), Stopped(at), r);
      case Fire(i, at) =>
        if i < |s.log| && i < |s.fired| && s.fired[i] < |EffectsOf(s.log[i])| {
          CarriedStands(s.(fired := s.fired[i := s.fired[i] + 1]), EffectsOf(s.log[i])[s.fired[i]], at, r);
        }
    }
  }

  /**
   Over every interleaving, the calls begun about a report are those under way and those answered:
   a call that loses a race is begun again and never dropped, and none is answered twice.
   */
  lemma {:induction false} CallsConserved(b: Batch, actions: seq<Action>, r: Report)
    ensures var s := Exec(Start(b), actions);
            Begun(Start(b), actions, r) == Standing(s, r) == |Under(s, r)| + Logged(s.log, r)
  {
    if actions == [] {
      assert Under(Start(b), r) == {};
    } else {
      var init, last := actions[..|actions| - 1], actions[|actions| - 1];
      CallsConserved(b, init, r);
      var s := Exec(Start(b), init);
      match last {
        case Read(w, said) => ReadStands(s, w, said, r);
        case Write(w) => WriteStands(s, w, r);
        case _ => OtherStands(s, last, r);
      }
    }
  }

  // -------------------------------------------------------- the cancellation

  lemma {:induction false} CancelledForGood(s: System, actions: seq<Action>)
    requires s.row.cancelledAt.Some?
    ensures Exec(s, actions).row.cancelledAt == s.row.cancelledAt
  {
    if actions != [] {
      var init, last := actions[..|actions| - 1], actions[|actions| - 1];
      CancelledForGood(s, init);
      var t := Exec(s, init);
      if last.Fire? && last.entry < |t.log| && last.entry < |t.fired| {
        assert Next(t, last).row.cancelledAt == t.row.cancelledAt;
      }
    }
  }

  /**
   A cancellation is kept by every interleaving that follows: no report that was under way when it came,
   no addition and no later cancellation moves it.
   */
  lemma StopsForGood(b: Batch, before: seq<Action>, at: int, after: seq<Action>)
    ensures var was := Exec(Start(b), before).row.cancelledAt;
            Exec(Start(b), before + [Stop(at)] + after).row.cancelledAt == if was.Some? then was else Some(at)
  {
    var s := Exec(Start(b), before);
    ExecJoins(Start(b), before, [Stop(at)]);
    ExecOne(s, Stop(at));
    ExecJoins(Start(b), before + [Stop(at)], after);
    CancelledForGood(Next(s, Stop(at)), after);
  }
}
