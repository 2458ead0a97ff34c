/**
 What arrives in the queue: over every interleaving of the workers, how many copies of each message the reports of a
 batch have pushed, in terms of the steps its options name.
 */
module BatchMessages {
  import opened Batches
  import opened BatchCallbacks
  import opened BatchDatabase
  import opened Queues

  /** `n` if this is the bare message of a step that is declared, on its own queue or else the batch's; else none. */
  function Copies(o: Options, f: Step, n: nat, m: Message): nat {
    if f.Declared() && m == Message(if f.queue != "" then f.queue else o.queue, f.name, f.payload) then n else 0
  }

  /** How often each of the steps a report can push is to be pushed. */
  datatype Quota = Quota(progress: nat, failure: nat, then_: nat, catch_: nat, finally_: nat)

  /** How many copies of a message that comes to. */
  function Expected(o: Options, q: Quota, m: Message): nat {
    Copies(o, o.progress, q.progress, m) + Copies(o, o.failure, q.failure, m) + Copies(o, o.onThen, q.then_, m)
    + Copies(o, o.onCatch, q.catch_, m) + Copies(o, o.onFinally, q.finally_, m)
  }

  // ---------------------------------------------------- callbacks as messages

  /** The queue holds the callbacks pushed, one message for each, in their order. */
  ghost predicate Carries(o: Options, pushed: seq<Callback>, queue: seq<Message>) {
    && |pushed| == |queue|
    && forall k :: 0 <= k < |pushed| ==> queue[k] == CallbackMessage(o, CallbackStep(o, pushed[k]))
  }

  /** The options never change: in the row, in what workers have read, and in what reports were told. */
  ghost predicate Kept(o: Options, s: System) {
    && s.row.options == o && Carries(o, s.pushed, s.queue)
    && (forall w :: w in s.workers && s.workers[w].HasRead? ==> s.workers[w].before.options == o)
    && (forall x :: x in s.log && x.Reported? ==> x.counts.batch.options == o)
  }

  lemma CarriedKept(o: Options, s: System, e: Effect, at: int)
    requires Kept(o, s)
    ensures Kept(o, CarriedOut(s, e, at))
  {
  }

  lemma NextKept(o: Options, s: System, a: Action)
    requires Kept(o, s)
    ensures Kept(o, Next(s, a))
  {
    match a {
      case Fire(i, at) =>
        if i < |s.log| && i < |s.fired| && s.fired[i] < |EffectsOf(s.log[i])| {
          CarriedKept(o, s.(fired := s.fired[i := s.fired[i] + 1]), EffectsOf(s.log[i])[s.fired[i]], at);
        }
      case _ =>
    }
  }

  lemma {:induction false} AlwaysKept(b: Batch, actions: seq<Action>)
    ensures Kept(b.options, Exec(Start(b), actions))
  {
    if actions != [] {
      AlwaysKept(b, actions[..|actions| - 1]);
      NextKept(b.options, Exec(Start(b), actions[..|actions| - 1]), actions[|actions| - 1]);
    }
  }

  /** The callbacks pushed that come to this message. */
  function Coming(o: Options, pushed: seq<Callback>, m: Message): nat {
    As(o, o.before, Occurs(pushed, Before_), m) + As(o, o.progress, Occurs(pushed, Progress), m)
    + As(o, o.onThen, Occurs(pushed, Then), m) + As(o, o.onCatch, Occurs(pushed, Catch), m)
    + As(o, o.failure, Occurs(pushed, OnFailure), m) + As(o, o.onFinally, Occurs(pushed, Finally), m)
  }

  function As(o: Options, f: Step, n: nat, m: Message): nat {
    if CallbackMessage(o, f) == m then n else 0
  }

  lemma OfOneMore(o: Options, pushed: seq<Callback>, c: Callback, x: Callback, f: Step, m: Message)
    requires f == CallbackStep(o, x)
    ensures As(o, f, Occurs(pushed + [c], x), m)
         == As(o, f, Occurs(pushed, x), m) + if c == x then One(CallbackMessage(o, CallbackStep(o, c)) == m) else 0
  {
    OccursAppends(pushed, c, x);
  }

  lemma ComingOneMore(o: Options, pushed: seq<Callback>, c: Callback, m: Message)
    ensures Coming(o, pushed + [c], m) == Coming(o, pushed, m) + One(CallbackMessage(o, CallbackStep(o, c)) == m)
  {
    OfOneMore(o, pushed, c, Before_, o.before, m);
    OfOneMore(o, pushed, c, Progress, o.progress, m);
    OfOneMore(o, pushed, c, Then, o.onThen, m);
    OfOneMore(o, pushed, c, Catch, o.onCatch, m);
    OfOneMore(o, pushed, c, OnFailure, o.failure, m);
    OfOneMore(o, pushed, c, Finally, o.onFinally, m);
  }

  lemma {:induction false} QueueIsComing(o: Options, pushed: seq<Callback>, queue: seq<Message>, m: Message)
    requires Carries(o, pushed, queue)
    ensures Occurs(queue, m) == Coming(o, pushed, m)
  {
    if pushed != [] {
      var n := |pushed| - 1;
      QueueIsComing(o, pushed[..n], queue[..n], m);
      ComingOneMore(o, pushed[..n], pushed[n], m);
      assert pushed[..n] + [pushed[n]] == pushed;
    }
  }

  // --------------------------------------------------- one for every report

  /** Progress for every success and every allowed failure, Failure for every allowed failure, Before for none. */
  ghost predicate EachAsks(o: Options, log: seq<Entry>) {
    var done, allowed := Successes(log), if o.allowFailures then Failures(log) else 0;
    && Total(Plan(log), Push(Progress)) == (if o.progress.Declared() then done + allowed else 0)
    && Total(Plan(log), Push(OnFailure)) == (if o.failure.Declared() then allowed else 0)
    && Total(Plan(log), Push(Before_)) == 0
  }

  lemma EachAsksNext(o: Options, log: seq<Entry>, x: Entry)
    requires EachAsks(o, log) && (x.Reported? ==> x.counts.batch.options == o)
    ensures EachAsks(o, log + [x])
  {
    SuccessesAppend(log, x);
    FailuresAppend(log, x);
    TotalAppends(log, x, Push(Progress));
    TotalAppends(log, x, Push(OnFailure));
    TotalAppends(log, x, Push(Before_));
  }

  lemma {:induction false} EachAlwaysAsks(o: Options, log: seq<Entry>)
    requires forall x :: x in log && x.Reported? ==> x.counts.batch.options == o
    ensures EachAsks(o, log)
  {
    if log != [] {
      var init, x := log[..|log| - 1], log[|log| - 1];
      assert log == init + [x] && x in log && forall y :: y in init ==> y in log;
      EachAlwaysAsks(o, init);
      EachAsksNext(o, init, x);
    }
  }

  /** What is pushed of a step is no more, or no less, than this many if it is declared, and nothing if it is not. */
  predicate AtMost(k: nat, f: Step, n: nat) {
    k <= if f.Declared() then n else 0
  }

  predicate AtLeast(k: nat, f: Step, n: nat) {
    f.Declared() ==> n <= k
  }

  /** At most once for each report, Catch only for failures. */
  lemma {:induction false} TotalWithinReports(o: Options, log: seq<Entry>)
    requires forall x :: x in log && x.Reported? ==> x.counts.batch.options == o
    ensures AtMost(Total(Plan(log), Push(Catch)), o.onCatch, Failures(log))
    ensures AtMost(Total(Plan(log), Push(Finally)), o.onFinally, Reports(log))
  {
    if log != [] {
      var init, x := log[..|log| - 1], log[|log| - 1];
      assert log == init + [x] && x in log && forall y :: y in init ==> y in log;
      TotalWithinReports(o, init);
      TotalAppends(init, x, Push(Catch));
      TotalAppends(init, x, Push(Finally));
      SuccessesAppend(init, x);
      FailuresAppend(init, x);
    }
  }

  lemma EachPushed(b: Batch, actions: seq<Action>, s: System)
    requires s == Exec(Start(b), actions) && forall a :: a in actions ==> Reporting(a)
    ensures var o := b.options;
            var done, allowed := Successes(s.log), if o.allowFailures then Failures(s.log) else 0;
            && Occurs(s.pushed, Before_) == 0
            && Occurs(s.pushed, Progress) <= (if o.progress.Declared() then done + allowed else 0)
            && Occurs(s.pushed, OnFailure) <= (if o.failure.Declared() then allowed else 0)
            && (AllFired(s) ==>
                  && Occurs(s.pushed, Progress) == (if o.progress.Declared() then done + allowed else 0)
                  && Occurs(s.pushed, OnFailure) == (if o.failure.Declared() then allowed else 0))
  {
    AlwaysKept(b, actions);
    AccountedAlways(b, actions);
    EachAlwaysAsks(b.options, s.log);
    PushedWithinTotal(s, Before_);
    PushedWithinTotal(s, Progress);
    PushedWithinTotal(s, OnFailure);
  }

  /** Of the callbacks a report can push, no more, or no less, than the quota. */
  predicate AllAtMost(o: Options, pushed: seq<Callback>, q: Quota) {
    && Occurs(pushed, Before_) == 0
    && AtMost(Occurs(pushed, Progress), o.progress, q.progress)
    && AtMost(Occurs(pushed, OnFailure), o.failure, q.failure)
    && AtMost(Occurs(pushed, Then), o.onThen, q.then_) && AtMost(Occurs(pushed, Catch), o.onCatch, q.catch_)
    && AtMost(Occurs(pushed, Finally), o.onFinally, q.finally_)
  }

  predicate AllAtLeast(o: Options, pushed: seq<Callback>, q: Quota) {
    && AtLeast(Occurs(pushed, Progress), o.progress, q.progress)
    && AtLeast(Occurs(pushed, OnFailure), o.failure, q.failure)
    && AtLeast(Occurs(pushed, Then), o.onThen, q.then_) && AtLeast(Occurs(pushed, Catch), o.onCatch, q.catch_)
    && AtLeast(Occurs(pushed, Finally), o.onFinally, q.finally_)
  }

  lemma ComingAtMost(o: Options, pushed: seq<Callback>, m: Message, q: Quota)
    requires AllAtMost(o, pushed, q)
    ensures Coming(o, pushed, m) <= Expected(o, q, m)
  {
  }

  lemma ComingAtLeast(o: Options, pushed: seq<Callback>, m: Message, q: Quota)
    requires AllAtLeast(o, pushed, q)
    ensures Expected(o, q, m) <= Coming(o, pushed, m)
  {
  }

  lemma QueueHolds(b: Batch, actions: seq<Action>, s: System, m: Message)
    requires s == Exec(Start(b), actions)
    ensures Occurs(s.queue, m) == Coming(b.options, s.pushed, m)
  {
    AlwaysKept(b, actions);
    QueueIsComing(b.options, s.pushed, s.queue, m);
  }

  // -------------------------------------------------------------- the theorems

  /**
   What the reports call for when each job reports at most once: Progress for each success and each allowed failure,
   Failure for each allowed failure, Then once all succeeded, Catch once one failed, Finally once all reported.
   */
  function OnceEach(b: Batch, done: nat, bad: nat): Quota {
    var allowed := if b.options.allowFailures then bad else 0;
    Quota(done + allowed, allowed, One(done == b.pending), One(0 < bad), One(done + bad == b.pending))
  }

  lemma PushedOnce(b: Batch, actions: seq<Action>, s: System, q: Quota)
    requires Stored(b) && Named(actions) && forall a :: a in actions ==> Reporting(a)
    requires s == Exec(Start(b), actions) && OncePerJob(s.log) && Reports(s.log) <= b.pending
    requires q == OnceEach(b, Successes(s.log), Failures(s.log))
    ensures AllAtMost(b.options, s.pushed, q)
    ensures AllFired(s) ==> AllAtLeast(b.options, s.pushed, q)
  {
    CallbacksExactlyOnce(b, actions);
    EachPushed(b, actions, s);
  }

  /** What they call for whatever was reported, with so many of Catch and Finally. */
  function AnyOf(b: Batch, done: nat, bad: nat, catch_: nat, finally_: nat): Quota {
    var allowed := if b.options.allowFailures then bad else 0;
    Quota(done + allowed, allowed, One(1 <= b.pending <= done), catch_, finally_)
  }

  lemma PushedUnderDuplication(b: Batch, actions: seq<Action>, s: System, low: Quota, high: Quota)
    requires s == Exec(Start(b), actions) && forall a :: a in actions ==> Reporting(a)
    requires low == AnyOf(b, Successes(s.log), Failures(s.log), 0, 0)
    requires high == AnyOf(b, Successes(s.log), Failures(s.log), Failures(s.log), Reports(s.log))
    ensures AllAtMost(b.options, s.pushed, high)
    ensures AllFired(s) ==> AllAtLeast(b.options, s.pushed, low)
  {
    ThenAtMostOnce(b, actions);
    AccountedAlways(b, actions);
    PushedWithinTotal(s, Then);
    PushedWithinTotal(s, Catch);
    PushedWithinTotal(s, Finally);
    AlwaysKept(b, actions);
    TotalWithinReports(b.options, s.log);
    EachPushed(b, actions, s);
  }

  lemma HeldAtMost(b: Batch, actions: seq<Action>, s: System, q: Quota, m: Message)
    requires s == Exec(Start(b), actions) && AllAtMost(b.options, s.pushed, q)
    ensures Occurs(s.queue, m) <= Expected(b.options, q, m)
  {
    QueueHolds(b, actions, s, m);
    ComingAtMost(b.options, s.pushed, m, q);
  }

  lemma HeldAtLeast(b: Batch, actions: seq<Action>, s: System, q: Quota, m: Message)
    requires s == Exec(Start(b), actions) && AllAtLeast(b.options, s.pushed, q)
    ensures Expected(b.options, q, m) <= Occurs(s.queue, m)
  {
    QueueHolds(b, actions, s, m);
    ComingAtLeast(b.options, s.pushed, m, q);
  }

  /**
   Every interleaving of a stored batch's jobs reporting once each, and every message. The queue never holds more
   copies of it than: one for each success and each allowed failure if it is the Progress message, one for each
   allowed failure if it is the Failure message, one if it is the Then message and all succeeded, one if it is the
   Catch message and one failed, one if it is the Finally message and all reported. Once every reporter is done it
   holds exactly that many, so a message that is none of these is never there.
   */
  lemma MessagesExactly(b: Batch, actions: seq<Action>, s: System, m: Message)
    requires Stored(b) && Named(actions) && forall a :: a in actions ==> Reporting(a)
    requires s == Exec(Start(b), actions) && OncePerJob(s.log) && Reports(s.log) <= b.pending
    ensures Occurs(s.queue, m) <= Expected(b.options, OnceEach(b, Successes(s.log), Failures(s.log)), m)
    ensures AllFired(s) ==>
              Occurs(s.queue, m) == Expected(b.options, OnceEach(b, Successes(s.log), Failures(s.log)), m)
  {
    var q := OnceEach(b, Successes(s.log), Failures(s.log));
    PushedOnce(b, actions, s, q);
    HeldAtMost(b, actions, s, q, m);
    if AllFired(s) { HeldAtLeast(b, actions, s, q, m); }
  }

  /**
   With no hypothesis on the reports: duplicate deliveries, retries and jobs without an id included. Then's message is
   there at most once and only if as many succeeded as there were jobs; Progress and Failure keep to one for each
   report that calls for them; and a message that is neither Catch's nor Finally's is there exactly so often once every
   reporter is done.
   */
  lemma MessagesUnderDuplication(b: Batch, actions: seq<Action>, s: System, low: Quota, high: Quota, m: Message)
    requires s == Exec(Start(b), actions) && forall a :: a in actions ==> Reporting(a)
    requires low == AnyOf(b, Successes(s.log), Failures(s.log), 0, 0)
    requires high == AnyOf(b, Successes(s.log), Failures(s.log), Failures(s.log), Reports(s.log))
    ensures Occurs(s.queue, m) <= Expected(b.options, high, m)
    ensures AllFired(s) ==> Expected(b.options, low, m) <= Occurs(s.queue, m)
  {
    PushedUnderDuplication(b, actions, s, low, high);
    HeldAtMost(b, actions, s, high, m);
    if AllFired(s) { HeldAtLeast(b, actions, s, low, m); }
  }
}
