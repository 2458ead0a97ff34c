/**
 Who fires what: over every interleaving of the workers, how often each callback is pushed.
 */
module BatchCallbacks {
  import opened Batches
  import opened BatchDatabase

  // ------------------------------------------------------------ accounting

  function Occurs<T(==)>(s: seq<T>, x: T): nat {
    if s == [] then 0 else Occurs(s[..|s| - 1], x) + if s[|s| - 1] == x then 1 else 0
  }

  lemma {:induction false} OccursJoins<T>(a: seq<T>, b: seq<T>, x: T)
    ensures Occurs(a + b, x) == Occurs(a, x) + Occurs(b, x)
  {
    if b == [] {
      assert a + b == a;
    } else {
      assert (a + b)[..|a + b| - 1] == a + b[..|b| - 1];
      OccursJoins(a, b[..|b| - 1], x);
    }
  }

  /** What each committed report asks for. */
  function Plan(log: seq<Entry>): seq<seq<Effect>> {
    if log == [] then [] else Plan(log[..|log| - 1]) + [EffectsOf(log[|log| - 1])]
  }

  lemma {:induction false} PlanAt(log: seq<Entry>)
    ensures |Plan(log)| == |log|
    ensures forall i :: 0 <= i < |log| ==> Plan(log)[i] == EffectsOf(log[i])
  {
    if log != [] {
      var n := |log| - 1;
      PlanAt(log[..n]);
      forall i | 0 <= i < n ensures Plan(log)[i] == EffectsOf(log[i]) {
        assert Plan(log[..n])[i] == EffectsOf(log[..n][i]);
      }
    }
  }

  lemma PlanAppends(log: seq<Entry>, x: Entry)
    ensures Plan(log + [x]) == Plan(log) + [EffectsOf(x)]
  {
    assert (log + [x])[..|log|] == log;
  }

  ghost predicate Within(plan: seq<seq<Effect>>, fired: seq<nat>) {
    |plan| == |fired| && forall i :: 0 <= i < |plan| ==> fired[i] <= |plan[i]|
  }

  /** How often an effect has been carried out. */
  function Fired(plan: seq<seq<Effect>>, fired: seq<nat>, e: Effect): nat
    requires Within(plan, fired)
  {
    if plan == [] then 0
    else
      var n := |plan| - 1;
      Fired(plan[..n], fired[..n], e) + Occurs(plan[n][..fired[n]], e)
  }

  /** How often it will have been once every report is done. */
  function Total(plan: seq<seq<Effect>>, e: Effect): nat {
    if plan == [] then 0 else Total(plan[..|plan| - 1], e) + Occurs(plan[|plan| - 1], e)
  }

  function Stops(log: seq<Entry>): nat {
    if log == [] then 0 else Stops(log[..|log| - 1]) + if log[|log| - 1].Stopped? then 1 else 0
  }

  function Ends(log: seq<Entry>): nat {
    if log == [] then 0 else Ends(log[..|log| - 1]) + if log[|log| - 1].Finished? then 1 else 0
  }

  lemma FiredAppends(plan: seq<seq<Effect>>, fired: seq<nat>, effects: seq<Effect>, e: Effect)
    requires Within(plan, fired)
    ensures Fired(plan + [effects], fired + [0], e) == Fired(plan, fired, e)
  {
    assert (plan + [effects])[..|plan|] == plan && (fired + [0])[..|fired|] == fired;
    assert effects[..0] == [];
  }

  lemma {:induction false} FiredOneMore(plan: seq<seq<Effect>>, fired: seq<nat>, i: nat, e: Effect)
    requires Within(plan, fired) && i < |plan| && fired[i] < |plan[i]|
    ensures Fired(plan, fired[i := fired[i] + 1], e)
         == Fired(plan, fired, e) + if plan[i][fired[i]] == e then 1 else 0
  {
    var n := |plan| - 1;
    var more := fired[i := fired[i] + 1];
    if i == n {
      assert more[..n] == fired[..n];
      assert plan[n][..fired[n] + 1][..fired[n]] == plan[n][..fired[n]];
    } else {
      assert more[..n] == fired[..n][i := fired[i] + 1];
      FiredOneMore(plan[..n], fired[..n], i, e);
    }
  }

  lemma {:induction false} FiredWithinTotal(plan: seq<seq<Effect>>, fired: seq<nat>, e: Effect)
    requires Within(plan, fired)
    ensures Fired(plan, fired, e) <= Total(plan, e)
    ensures (forall i :: 0 <= i < |plan| ==> fired[i] == |plan[i]|) ==> Fired(plan, fired, e) == Total(plan, e)
  {
    if plan != [] {
      var n := |plan| - 1;
      FiredWithinTotal(plan[..n], fired[..n], e);
      OccursJoins(plan[n][..fired[n]], plan[n][fired[n]..], e);
      assert plan[n] == plan[n][..fired[n]] + plan[n][fired[n]..];
    }
  }

  /** Every push, every cancellation and every finish so far is one effect of one committed report. */
  ghost predicate Balanced(plan: seq<seq<Effect>>, fired: seq<nat>, pushed: seq<Callback>, stops: nat, ends: nat) {
    && Within(plan, fired)
    && (forall c :: Occurs(pushed, c) == Fired(plan, fired, Push(c)))
    && stops == Fired(plan, fired, Cancel) && ends == Fired(plan, fired, Finish)
  }

  ghost predicate Accounted(s: System) {
    Balanced(Plan(s.log), s.fired, s.pushed, Stops(s.log), Ends(s.log))
  }

  lemma BalancedAppends(plan: seq<seq<Effect>>, fired: seq<nat>, pushed: seq<Callback>, stops: nat,
                        ends: nat, effects: seq<Effect>)
    requires Balanced(plan, fired, pushed, stops, ends)
    ensures Balanced(plan + [effects], fired + [0], pushed, stops, ends)
  {
    forall e ensures Fired(plan + [effects], fired + [0], e) == Fired(plan, fired, e) {
      FiredAppends(plan, fired, effects, e);
    }
    FiredAppends(plan, fired, effects, Cancel);
    FiredAppends(plan, fired, effects, Finish);
  }

  /** Carrying out the next effect of one report keeps the balance. */
  lemma BalancedFires(plan: seq<seq<Effect>>, fired: seq<nat>, pushed: seq<Callback>, stops: nat, ends: nat, i: nat)
    requires Balanced(plan, fired, pushed, stops, ends) && i < |plan| && fired[i] < |plan[i]|
    ensures var e := plan[i][fired[i]];
            Balanced(plan, fired[i := fired[i] + 1], if e.Push? then pushed + [e.callback] else pushed,
                     if e.Cancel? then stops + 1 else stops, if e.Finish? then ends + 1 else ends)
  {
    var e := plan[i][fired[i]];
    forall c ensures e.Push? ==> Occurs(pushed + [e.callback], c) == Occurs(pushed, c) + One(e.callback == c) {
      if e.Push? { assert (pushed + [e.callback])[..|pushed|] == pushed; }
    }
    forall x ensures Fired(plan, fired[i := fired[i] + 1], x)
                  == Fired(plan, fired, x) + if plan[i][fired[i]] == x then 1 else 0 {
      FiredOneMore(plan, fired, i, x);
    }
    FiredOneMore(plan, fired, i, Cancel);
    FiredOneMore(plan, fired, i, Finish);
  }

  lemma StampsAppend(log: seq<Entry>, x: Entry)
    ensures Stops(log + [x]) == Stops(log) + if x.Stopped? then 1 else 0
    ensures Ends(log + [x]) == Ends(log) + if x.Finished? then 1 else 0
  {
    assert (log + [x])[..|log|] == log;
  }

  lemma CommitBalanced(s: System, x: Entry, stops: nat, ends: nat)
    requires Balanced(Plan(s.log), s.fired, s.pushed, stops, ends)
    requires stops == Stops(s.log) + if x.Stopped? then 1 else 0
    requires ends == Ends(s.log) + if x.Finished? then 1 else 0
    ensures Accounted(Commit(s, x))
  {
    PlanAppends(s.log, x);
    StampsAppend(s.log, x);
    BalancedAppends(Plan(s.log), s.fired, s.pushed, stops, ends, EffectsOf(x));
  }

  lemma NextFire(s: System, i: nat, at: int)
    requires |s.log| == |s.fired| == |Plan(s.log)|
    ensures Next(s, Fire(i, at)) ==
              if i < |s.log| && s.fired[i] < |Plan(s.log)[i]|
              then CarriedOut(s.(fired := s.fired[i := s.fired[i] + 1]), Plan(s.log)[i][s.fired[i]], at) else s
  {
    PlanAt(s.log);
  }

  lemma FireAccounted(s: System, i: nat, at: int)
    requires Accounted(s)
    ensures Accounted(Next(s, Fire(i, at)))
  {
    PlanAt(s.log);
    NextFire(s, i, at);
    if i < |s.log| && s.fired[i] < |Plan(s.log)[i]| { OneEffectAccounted(s, Plan(s.log), i, at); }
  }

  lemma OneEffectAccounted(s: System, plan: seq<seq<Effect>>, i: nat, at: int)
    requires Accounted(s) && plan == Plan(s.log) && i < |plan| && s.fired[i] < |plan[i]|
    ensures Accounted(CarriedOut(s.(fired := s.fired[i := s.fired[i] + 1]), plan[i][s.fired[i]], at))
  {
    BalancedFires(plan, s.fired, s.pushed, Stops(s.log), Ends(s.log), i);
    FiredAccounted(s.(fired := s.fired[i := s.fired[i] + 1]), plan[i][s.fired[i]], at);
  }

  /** The balance once the effect has been counted as fired is the balance once it is carried out. */
  lemma FiredAccounted(t: System, e: Effect, at: int)
    requires Balanced(Plan(t.log), t.fired, if e.Push? then t.pushed + [e.callback] else t.pushed,
                      if e.Cancel? then Stops(t.log) + 1 else Stops(t.log),
                      if e.Finish? then Ends(t.log) + 1 else Ends(t.log))
    ensures Accounted(CarriedOut(t, e, at))
  {
    match e {
      case Push(_) =>
      case Finish => CommitBalanced(t.(row := MarkFinished(t.row, at)), Finished(at), Stops(t.log), Ends(t.log) + 1);
      case Cancel => CommitBalanced(t.(row := Cancelled(t.row, at)), Stopped(at), Stops(t.log) + 1, Ends(t.log));
    }
  }

  predicate Reporting(a: Action) {
    a.Read? || a.Write? || a.Fire?
  }

  lemma {:induction false} AccountedAlways(b: Batch, actions: seq<Action>)
    requires forall a :: a in actions ==> Reporting(a)
    ensures Accounted(Exec(Start(b), actions))
  {
    if actions != [] {
      var init, last := actions[..|actions| - 1], actions[|actions| - 1];
      assert last in actions && forall a :: a in init ==> a in actions;
      AccountedAlways(b, init);
      var s := Exec(Start(b), init);
      if last.Fire? { FireAccounted(s, last.entry, last.at); } else { StatementAccounted(s, last); }
    }
  }

  lemma StatementAccounted(s: System, a: Action)
    requires Accounted(s) && (a.Read? || a.Write?)
    ensures Accounted(Next(s, a))
  {
    var s' := Next(s, a);
    if s'.log != s.log {
      CommitBalanced(s.(row := s'.row, workers := s'.workers), s'.log[|s.log|], Stops(s.log), Ends(s.log));
    }
  }

  /** Every committed report has done all it asks for. */
  ghost predicate AllFired(s: System) {
    |s.log| == |s.fired| && forall i :: 0 <= i < |s.log| ==> s.fired[i] == |EffectsOf(s.log[i])|
  }

  /** What has been pushed is part of what the reports ask for, and all of it once they are done. */
  lemma PushedWithinTotal(s: System, c: Callback)
    requires Accounted(s)
    ensures Occurs(s.pushed, c) <= Total(Plan(s.log), Push(c))
    ensures AllFired(s) ==> Occurs(s.pushed, c) == Total(Plan(s.log), Push(c))
  {
    PlanAt(s.log);
    FiredWithinTotal(Plan(s.log), s.fired, Push(c));
  }

  // ---------------------------------------------- what one report asks for

  function Asks(r: Report, c: Counts, e: Effect): nat {
    var o := c.batch.options;
    var yes :=
      match e
      case Push(Then) => r.Success? && c.pending == 0 && o.onThen.Declared()
      case Push(Catch) => r.Failure? && c.failed == 1 && o.onCatch.Declared()
      case Push(Finally) => AllReported(c) && o.onFinally.Declared()
      case Push(OnFailure) => r.Failure? && o.allowFailures && o.failure.Declared()
      case Push(Progress) => (r.Success? || o.allowFailures) && o.progress.Declared()
      case Push(Before_) => false
      case Finish => r.Success? && c.pending == 0
      case Cancel => r.Failure? && c.failed == 1 && !o.allowFailures;
    if yes then 1 else 0
  }

  function One(condition: bool): nat {
    if condition then 1 else 0
  }

  function Wanted(guards: seq<Guarded>, e: Effect): nat {
    if guards == [] then 0
    else
      var n := |guards| - 1;
      Wanted(guards[..n], e) + One(guards[n].when && guards[n].effect == e)
  }

  lemma {:induction false} OccursChosen(guards: seq<Guarded>, e: Effect)
    ensures Occurs(Chosen(guards), e) == Wanted(guards, e)
  {
    if guards != [] {
      var n := |guards| - 1;
      OccursChosen(guards[..n], e);
      if guards[n].when { OccursAppends(Chosen(guards[..n]), guards[n].effect, e); }
    }
  }

  lemma OccursAppends<T>(s: seq<T>, x: T, y: T)
    ensures Occurs(s + [x], y) == Occurs(s, y) + One(x == y)
  {
    assert (s + [x])[..|s|] == s;
  }

  function Wants(g: Guarded, e: Effect): nat {
    One(g.when && g.effect == e)
  }

  lemma WantedFour(g: seq<Guarded>, e: Effect)
    requires |g| == 4
    ensures Wanted(g, e) == Wants(g[0], e) + Wants(g[1], e) + Wants(g[2], e) + Wants(g[3], e)
  {
    assert g[..3][..2] == g[..2] && g[..2][..1] == g[..1] && g[..1][..0] == [];
    assert Wanted(g[..1], e) == Wants(g[0], e);
    assert Wanted(g[..2], e) == Wanted(g[..1], e) + Wants(g[1], e);
    assert Wanted(g[..3], e) == Wanted(g[..2], e) + Wants(g[2], e);
  }

  lemma WantedFive(g: seq<Guarded>, e: Effect)
    requires |g| == 5
    ensures Wanted(g, e) == Wants(g[0], e) + Wants(g[1], e) + Wants(g[2], e) + Wants(g[3], e) + Wants(g[4], e)
  {
    WantedFour(g[..4], e);
  }

  lemma ReportAsks(r: Report, c: Counts, e: Effect)
    ensures Occurs(Effects(r, c), e) == Asks(r, c, e)
  {
    OccursChosen(Guards(r, c), e);
    GuardsAsk(r, c, Guards(r, c), e);
  }

  lemma GuardsAsk(r: Report, c: Counts, g: seq<Guarded>, e: Effect)
    requires g == Guards(r, c)
    ensures Wanted(g, e) == Asks(r, c, e)
  {
    if r.Success? { WantedFour(g, e); } else { WantedFive(g, e); }
  }

  lemma EntryAsks(x: Entry, e: Effect)
    ensures Occurs(EffectsOf(x), e) == if x.Reported? then Asks(x.report, x.counts, e) else 0
  {
    if x.Reported? { ReportAsks(x.report, x.counts, e); }
  }

  lemma TotalAppends(log: seq<Entry>, x: Entry, e: Effect)
    ensures Total(Plan(log + [x]), e)
         == Total(Plan(log), e) + if x.Reported? then Asks(x.report, x.counts, e) else 0
  {
    PlanAppends(log, x);
    var plan := Plan(log + [x]);
    assert plan[..|plan| - 1] == Plan(log);
    EntryAsks(x, e);
  }

  // ------------------------------------------------- one report for each job

  function Successes(log: seq<Entry>): nat {
    if log == [] then 0
    else Successes(log[..|log| - 1]) + One(log[|log| - 1].Reported? && log[|log| - 1].report.Success?)
  }

  function Failures(log: seq<Entry>): nat {
    if log == [] then 0
    else Failures(log[..|log| - 1]) + One(log[|log| - 1].Reported? && log[|log| - 1].report.Failure?)
  }

  function JobsOf(log: seq<Entry>): set<string> {
    if log == [] then {}
    else JobsOf(log[..|log| - 1]) + if log[|log| - 1].Reported? then {log[|log| - 1].report.job} else {}
  }

  /** Every report names a job that no report before it named. */
  ghost predicate OncePerJob(log: seq<Entry>) {
    log != [] ==>
      var init, last := log[..|log| - 1], log[|log| - 1];
      OncePerJob(init) && (last.Reported? ==> last.report.job != "" && last.report.job !in JobsOf(init))
  }

  /** A batch as it is stored: nothing reported, nothing cancelled. */
  ghost predicate Stored(b: Batch) {
    1 <= b.pending && b.failed == 0 && b.failedIds == [] && b.cancelledAt.None?
  }

  ghost predicate NothingAdded(log: seq<Entry>) {
    forall x :: x in log ==> !x.Added?
  }

  /** The counters say how many of each there were, and the list names only jobs that reported. */
  ghost predicate Tallied(b: Batch, log: seq<Entry>, row: Batch) {
    && Tidy(row) && row.options == b.options
    && row.pending == b.pending - Successes(log) && row.failed == Failures(log)
    && (row.cancelledAt.Some? <==> 0 < Stops(log))
    && (row.finishedAt.Some? <==> b.finishedAt.Some? || 0 < Stops(log) || 0 < Ends(log))
    && forall y :: y in row.failedIds ==> y in JobsOf(log)
  }

  lemma SuccessesAppend(log: seq<Entry>, x: Entry)
    ensures Successes(log + [x]) == Successes(log) + One(x.Reported? && x.report.Success?)
  {
    assert (log + [x])[..|log|] == log;
  }

  lemma FailuresAppend(log: seq<Entry>, x: Entry)
    ensures Failures(log + [x]) == Failures(log) + One(x.Reported? && x.report.Failure?)
  {
    assert (log + [x])[..|log|] == log;
  }

  lemma JobsAppend(log: seq<Entry>, x: Entry)
    ensures JobsOf(log + [x]) == JobsOf(log) + if x.Reported? then {x.report.job} else {}
    ensures OncePerJob(log + [x]) && x.Reported? ==> x.report.job != "" && x.report.job !in JobsOf(log)
  {
    assert (log + [x])[..|log|] == log;
  }

  lemma TallyNext(b: Batch, log: seq<Entry>, row: Batch, x: Entry)
    requires Tallied(b, log, row) && !x.Added? && OncePerJob(log + [x])
    ensures Tallied(b, log + [x], Replayed(row, x))
  {
    SuccessesAppend(log, x);
    FailuresAppend(log, x);
    JobsAppend(log, x);
    StampsAppend(log, x);
    if x.Reported? { ReportTallied(row, x.report, JobsOf(log)); }
  }

  /** A first report of a job, as the row counts it. */
  lemma ReportTallied(row: Batch, r: Report, jobs: set<string>)
    requires Tidy(row) && r.job != "" && r.job !in jobs && forall y :: y in row.failedIds ==> y in jobs
    ensures var after := Apply(row, r);
            && Tidy(after) && after.options == row.options
            && after.cancelledAt == row.cancelledAt && after.finishedAt == row.finishedAt
            && after.pending == row.pending - One(r.Success?) && after.failed == row.failed + One(r.Failure?)
            && forall y :: y in after.failedIds ==> y in jobs + {r.job}
  {
    ApplyMoves(row, r);
    WithFailureAdds(row.failedIds, r.job);
    WithoutFailureRemoves(row.failedIds, r.job);
  }

  lemma AddedPrefix(log: seq<Entry>)
    requires log != [] && NothingAdded(log)
    ensures NothingAdded(log[..|log| - 1]) && !log[|log| - 1].Added?
    ensures log == log[..|log| - 1] + [log[|log| - 1]]
  {
    var init := log[..|log| - 1];
    assert log[|log| - 1] in log;
    forall x | x in init ensures x in log {}
  }

  lemma {:induction false} OnceTallies(b: Batch, log: seq<Entry>)
    requires Stored(b) && OncePerJob(log) && NothingAdded(log)
    ensures Tallied(b, log, Replay(b, log))
  {
    if log != [] {
      AddedPrefix(log);
      OnceTallies(b, log[..|log| - 1]);
      TallyNext(b, log[..|log| - 1], Replay(b, log[..|log| - 1]), log[|log| - 1]);
    }
  }

  /** How often each outcome is asked for, by a log in which every job reported at most once. */
  ghost predicate Totalled(b: Batch, log: seq<Entry>) {
    var plan := Plan(log);
    Due(b, Successes(log), Failures(log),
        Total(plan, Push(Finally)), Total(plan, Push(Then)), Total(plan, Push(Catch)), Total(plan, Cancel))
  }

  /** The four totals after s successes and f failures. */
  predicate Due(b: Batch, s: nat, f: nat, finally_: nat, then_: nat, catch_: nat, cancel: nat) {
    && finally_ == One(b.options.onFinally.Declared() && s + f == b.pending)
    && then_ == One(b.options.onThen.Declared() && s == b.pending)
    && catch_ == One(b.options.onCatch.Declared() && 0 < f)
    && cancel == One(!b.options.allowFailures && 0 < f)
  }

  lemma DueNext(b: Batch, s: nat, f: nat, finally_: nat, then_: nat, catch_: nat, cancel: nat, r: Report, c: Counts)
    requires Stored(b) && Due(b, s, f, finally_, then_, catch_, cancel) && s + f < b.pending
    requires c.pending == b.pending - s - One(r.Success?) && c.failed == f + One(r.Failure?)
    requires c.batch.options == b.options
    ensures Due(b, s + One(r.Success?), f + One(r.Failure?), finally_ + Asks(r, c, Push(Finally)),
                then_ + Asks(r, c, Push(Then)), catch_ + Asks(r, c, Push(Catch)), cancel + Asks(r, c, Cancel))
  {
  }

  lemma TotalNext(b: Batch, log: seq<Entry>, x: Entry)
    requires Stored(b) && Totalled(b, log) && Successes(log + [x]) + Failures(log + [x]) <= b.pending
    requires x.Reported? ==> x.counts.pending == b.pending - Successes(log + [x])
    requires x.Reported? ==> x.counts.failed == Failures(log + [x]) && x.counts.batch.options == b.options
    ensures Totalled(b, log + [x])
  {
    assert (log + [x])[..|log|] == log;
    TotalAppends(log, x, Push(Finally));
    TotalAppends(log, x, Push(Then));
    TotalAppends(log, x, Push(Catch));
    TotalAppends(log, x, Cancel);
    if x.Reported? {
      var plan := Plan(log);
      DueNext(b, Successes(log), Failures(log), Total(plan, Push(Finally)), Total(plan, Push(Then)),
              Total(plan, Push(Catch)), Total(plan, Cancel), x.report, x.counts);
    }
  }

  lemma {:induction false} OnceTotals(b: Batch, log: seq<Entry>)
    requires Stored(b) && OncePerJob(log) && NothingAdded(log) && Explained(b, log)
    requires Successes(log) + Failures(log) <= b.pending
    ensures Totalled(b, log)
  {
    if log != [] {
      var init, x := log[..|log| - 1], log[|log| - 1];
      AddedPrefix(log);
      forall i | 0 <= i < |init| ensures init[..i] == log[..i] && init[i] == log[i] {}
      OnceTotals(b, init);
      OnceTallies(b, log);
      assert Replay(b, log) == Replayed(Replay(b, init), x);
      TotalNext(b, init, x);
    }
  }

  // ------------------------------------------------------------- the theorem

  /** No job was added, and no read under way saw one added. */
  ghost predicate Unadded(s: System) {
    && s.adds == 0 && NothingAdded(s.log)
    && forall w :: w in s.workers && s.workers[w].HasRead? ==> s.workers[w].adds == 0
  }

  lemma UnaddedCommit(s: System, t: System, x: Entry)
    requires Unadded(s) && !x.Added? && t.log == s.log && t.adds == s.adds
    requires forall w :: w in t.workers ==> w in s.workers && t.workers[w] == s.workers[w]
    ensures Unadded(Commit(t, x))
  {
  }

  lemma UnaddedNext(s: System, a: Action)
    requires Unadded(s) && Reporting(a)
    ensures Unadded(Next(s, a))
  {
    match a {
      case Read(w, r) =>
        if MayRead(s, w, r) && SameCounters(s.row, Apply(s.row, r)) {
          UnaddedCommit(s, s.(workers := s.workers - {w}), Reported(r, CountsOf(Apply(s.row, r))));
        }
      case Write(w) =>
        if w in s.workers && s.workers[w].HasRead? && SameCounters(s.row, s.workers[w].before) {
          var after := Apply(s.workers[w].before, s.workers[w].report);
          UnaddedCommit(s, s.(row := Written(s.row, after), workers := s.workers - {w}),
                        Reported(s.workers[w].report, CountsOf(after)));
        }
      case Fire(i, at) =>
        var t := s.(fired := if i < |s.fired| then s.fired[i := s.fired[i] + 1] else s.fired);
        UnaddedCommit(s, t.(row := MarkFinished(s.row, at)), Finished(at));
        UnaddedCommit(s, t.(row := Cancelled(s.row, at)), Stopped(at));
    }
  }

  lemma {:induction false} NeverAdded(b: Batch, actions: seq<Action>)
    requires forall a :: a in actions ==> Reporting(a)
    ensures Unadded(Exec(Start(b), actions))
  {
    if actions != [] {
      var init, last := actions[..|actions| - 1], actions[|actions| - 1];
      assert last in actions && forall a :: a in init ==> a in actions;
      NeverAdded(b, init);
      UnaddedNext(Exec(Start(b), init), last);
    }
  }

  lemma NeverCrossedWithoutAdds(b: Batch, actions: seq<Action>)
    requires forall a :: a in actions ==> Reporting(a)
    ensures NeverCrossed(Start(b), actions)
  {
    forall i | 0 <= i < |actions| ensures Uncrossed(Exec(Start(b), actions[..i]), actions[i]) {
      assert forall a :: a in actions[..i] ==> a in actions;
      NeverAdded(b, actions[..i]);
    }
  }

  /**
   Every interleaving of a stored batch's jobs reporting once each. At no point has Finally, Then
   or Catch been pushed twice, or before its condition; and once every job has reported and every
   reporter is done, Finally was pushed exactly once, Then exactly once if all succeeded and never
   otherwise, Catch exactly once if any failed and never otherwise, the batch is cancelled exactly
   if one failed and failures are not allowed, and it is finished exactly if all succeeded or it is
   cancelled, or if it was to begin with.
   */
  lemma CallbacksExactlyOnce(b: Batch, actions: seq<Action>)
    requires Stored(b) && Named(actions) && forall a :: a in actions ==> Reporting(a)
    requires OncePerJob(Exec(Start(b), actions).log)
    requires Reports(Exec(Start(b), actions).log) <= b.pending
    ensures var s, o := Exec(Start(b), actions), b.options;
            var done, bad := Successes(s.log), Failures(s.log);
            && Occurs(s.pushed, Finally) <= One(o.onFinally.Declared() && done + bad == b.pending)
            && Occurs(s.pushed, Then) <= One(o.onThen.Declared() && done == b.pending)
            && Occurs(s.pushed, Catch) <= One(o.onCatch.Declared() && 0 < bad)
            && (s.row.cancelledAt.Some? ==> 0 < bad && !o.allowFailures)
            && (s.row.finishedAt.Some? ==>
                  b.finishedAt.Some? || done == b.pending || (0 < bad && !o.allowFailures))
            && (AllFired(s) ==>
                  && Occurs(s.pushed, Finally) == One(o.onFinally.Declared() && done + bad == b.pending)
                  && Occurs(s.pushed, Then) == One(o.onThen.Declared() && done == b.pending)
                  && Occurs(s.pushed, Catch) == One(o.onCatch.Declared() && 0 < bad)
                  && (s.row.cancelledAt.Some? <==> 0 < bad && !o.allowFailures)
                  && (s.row.finishedAt.Some? <==>
                        b.finishedAt.Some? || done == b.pending || (0 < bad && !o.allowFailures)))
  {
    var s := Exec(Start(b), actions);
    NeverCrossedWithoutAdds(b, actions);
    NeverAdded(b, actions);
    Linearizable(b, actions);
    AccountedAlways(b, actions);
    OnceTotals(b, s.log);
    OnceTallies(b, s.log);
    PushedWithinTotal(s, Finally);
    PushedWithinTotal(s, Then);
    PushedWithinTotal(s, Catch);
    StampsWithinTotal(s);
    ThenAtMostOnce(b, actions);
  }

  lemma StampsWithinTotal(s: System)
    requires Accounted(s)
    ensures Stops(s.log) <= Total(Plan(s.log), Cancel) && Ends(s.log) <= Total(Plan(s.log), Finish)
    ensures AllFired(s) ==> Stops(s.log) == Total(Plan(s.log), Cancel) && Ends(s.log) == Total(Plan(s.log), Finish)
  {
    PlanAt(s.log);
    FiredWithinTotal(Plan(s.log), s.fired, Cancel);
    FiredWithinTotal(Plan(s.log), s.fired, Finish);
  }

  function Reports(log: seq<Entry>): nat {
    Successes(log) + Failures(log)
  }

  /** A report that finds every job accounted for is the last of them. */
  lemma LastReportSeesAll(b: Batch, log: seq<Entry>, i: nat)
    requires Stored(b) && OncePerJob(log) && NothingAdded(log) && Explained(b, log)
    requires i < |log| && log[i].Reported?
    ensures AllReported(log[i].counts) <==> Reports(log[..i + 1]) == b.pending
  {
    var head := log[..i + 1];
    assert head[..i] == log[..i] && head[i] == log[i];
    forall x | x in head ensures x in log {}
    OncePrefix(log, i + 1);
    OnceTallies(b, head);
  }

  lemma {:induction false} OncePrefix(log: seq<Entry>, i: nat)
    requires OncePerJob(log) && i <= |log|
    ensures OncePerJob(log[..i])
  {
    if i == |log| {
      assert log[..i] == log;
    } else {
      OncePrefix(log[..|log| - 1], i);
      assert log[..|log| - 1][..i] == log[..i];
    }
  }

  lemma {:induction false} ReportsGrow(log: seq<Entry>, i: nat)
    requires i <= |log|
    ensures Reports(log[..i]) <= Reports(log)
    ensures forall j :: i <= j < |log| && log[j].Reported? ==> Reports(log[..i]) < Reports(log)
  {
    if i == |log| {
      assert log[..i] == log;
    } else {
      var init := log[..|log| - 1];
      assert init[..i] == log[..i];
      ReportsGrow(init, i);
      forall j | i <= j < |log| && log[j].Reported? ensures Reports(log[..i]) < Reports(log) {
        if j < |init| { assert init[j] == log[j]; }
      }
    }
  }

  /** The report that asks for Finally is the last one: no report follows it in the log. */
  lemma FinallyIsLast(b: Batch, log: seq<Entry>, i: nat)
    requires Stored(b) && OncePerJob(log) && NothingAdded(log) && Explained(b, log)
    requires Reports(log) <= b.pending && i < |log| && log[i].Reported? && AllReported(log[i].counts)
    ensures forall j :: i < j < |log| ==> !log[j].Reported?
  {
    LastReportSeesAll(b, log, i);
    ReportsGrow(log, i + 1);
  }

  // --------------------------------------------- Then, under any duplication

  /** Whatever was reported, pending is what was stored less the successes committed. */
  ghost predicate PendingFine(b: Batch, s: System) {
    && s.row.pending == b.pending - Successes(s.log) && s.row.options == b.options
    && (forall w :: w in s.workers && s.workers[w].HasRead? ==> s.workers[w].before.options == b.options)
    && AtZero(b, s.log)
  }

  /** One success found pending at zero if so many succeeded, else none: Finish asks for it, and Then where declared. */
  ghost predicate AtZero(b: Batch, log: seq<Entry>) {
    && Total(Plan(log), Finish) == One(1 <= b.pending <= Successes(log))
    && Total(Plan(log), Push(Then)) == One(b.options.onThen.Declared() && 1 <= b.pending <= Successes(log))
  }

  lemma AsksAtZero(r: Report, c: Counts)
    ensures Asks(r, c, Finish) == One(r.Success? && c.pending == 0)
    ensures Asks(r, c, Push(Then)) == One(c.batch.options.onThen.Declared() && r.Success? && c.pending == 0)
  {
  }

  lemma AtZeroNext(b: Batch, log: seq<Entry>, x: Entry)
    requires AtZero(b, log) && (x.Reported? ==> x.counts.batch.options == b.options)
    requires x.Reported? && x.report.Success? ==> x.counts.pending == b.pending - Successes(log) - 1
    ensures AtZero(b, log + [x])
  {
    SuccessesAppend(log, x);
    TotalAppends(log, x, Finish);
    TotalAppends(log, x, Push(Then));
    if x.Reported? { AsksAtZero(x.report, x.counts); }
  }

  lemma PendingCommit(b: Batch, s: System, t: System, x: Entry)
    requires PendingFine(b, s) && t.log == s.log && t.row.options == b.options
    requires forall w :: w in t.workers ==> w in s.workers && t.workers[w] == s.workers[w]
    requires t.row.pending == s.row.pending - One(x.Reported? && x.report.Success?)
    requires x.Reported? ==> x.counts.batch.options == b.options
    requires x.Reported? && x.report.Success? ==> x.counts.pending == t.row.pending
    ensures PendingFine(b, Commit(t, x))
  {
    assert (s.log + [x])[..|s.log|] == s.log;
    AtZeroNext(b, s.log, x);
  }

  lemma PendingRead(b: Batch, s: System, w: nat, r: Report)
    requires PendingFine(b, s)
    ensures PendingFine(b, Next(s, Read(w, r)))
  {
    var after := Apply(s.row, r);
    if MayRead(s, w, r) && SameCounters(s.row, after) {
      PendingCommit(b, s, s.(workers := s.workers - {w}), Reported(r, CountsOf(after)));
    }
  }

  lemma PendingWrite(b: Batch, s: System, w: nat)
    requires PendingFine(b, s)
    ensures PendingFine(b, Next(s, Write(w)))
  {
    if w in s.workers && s.workers[w].HasRead? && SameCounters(s.row, s.workers[w].before) {
      var after := Apply(s.workers[w].before, s.workers[w].report);
      PendingCommit(b, s, s.(row := Written(s.row, after), workers := s.workers - {w}),
                    Reported(s.workers[w].report, CountsOf(after)));
    }
  }

  lemma PendingFire(b: Batch, s: System, i: nat, at: int)
    requires PendingFine(b, s) && |s.log| == |s.fired|
    ensures PendingFine(b, Next(s, Fire(i, at)))
  {
    PlanAt(s.log);
    NextFire(s, i, at);
    if i < |s.log| && s.fired[i] < |Plan(s.log)[i]| {
      PendingCarried(b, s, s.(fired := s.fired[i := s.fired[i] + 1]), Plan(s.log)[i][s.fired[i]], at);
    }
  }

  lemma PendingCarried(b: Batch, s: System, t: System, e: Effect, at: int)
    requires PendingFine(b, s) && t == s.(fired := t.fired)
    ensures PendingFine(b, CarriedOut(t, e, at))
  {
    match e {
      case Push(_) =>
      case Finish => PendingCommit(b, s, t.(row := MarkFinished(t.row, at)), Finished(at));
      case Cancel => PendingCommit(b, s, t.(row := Cancelled(t.row, at)), Stopped(at));
    }
  }

  lemma PendingStep(b: Batch, s: System, a: Action)
    requires PendingFine(b, s) && Reporting(a) && |s.log| == |s.fired|
    ensures PendingFine(b, Next(s, a))
  {
    match a {
      case Read(w, r) => PendingRead(b, s, w, r);
      case Write(w) => PendingWrite(b, s, w);
      case Fire(i, at) => PendingFire(b, s, i, at);
    }
  }

  /**
   Then at most once, with no hypothesis on the reports: duplicate deliveries, retries and jobs
   without an id included. A success always lowers pending, below zero too, so at most one of them
   leaves it at zero; the jobs may only not be added to.
   */
  lemma {:induction false} ThenAtMostOnce(b: Batch, actions: seq<Action>)
    requires forall a :: a in actions ==> Reporting(a)
    ensures var s := Exec(Start(b), actions);
            && PendingFine(b, s) && Total(Plan(s.log), Finish) == One(1 <= b.pending <= Successes(s.log))
            && Occurs(s.pushed, Then) <= One(1 <= b.pending <= Successes(s.log))
  {
    if actions != [] {
      var init, last := actions[..|actions| - 1], actions[|actions| - 1];
      assert last in actions && forall a :: a in init ==> a in actions;
      ThenAtMostOnce(b, init);
      AccountedAlways(b, init);
      PlanAt(Exec(Start(b), init).log);
      PendingStep(b, Exec(Start(b), init), last);
    }
    AccountedAlways(b, actions);
    PushedWithinTotal(Exec(Start(b), actions), Then);
  }
}
