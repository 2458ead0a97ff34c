/**
 RunWith: goroutines that share a results slice, a first failure, a counting semaphore and a
 cancelled context, as interleaved steps; the caller returns once all of them are done.
 */
module RunWith {
  import opened Wrappers

  /** What a call returns: (nil, nil), a nil slice and an error, or the slice, unwritten slots as None. */
  datatype Outcome<V, E> = Nothing | Failed(error: E) | Complete(results: seq<Option<V>>)

  /**
   Where a goroutine stands: not started, in the select on the semaphore, past it, in its task,
   with a failure to report, inside once.Do, unwinding with its slot, at wg.Done, over.
   */
  datatype Pc<E> =
    | Unborn | Queued | Admitted | Running | Failing(error: E) | Cancelling | Leaving | Finishing | Finished

  datatype Once = Unused | Busy(owner: nat) | Over

  /**
   `ceiling` is the capacity of the semaphore, zero when there is none; `slots` how much of it is
   taken. `answers` is what each task returned and `ran` how often it was called.
   */
  datatype State<V, E> = State(tasks: nat, ceiling: nat, pcs: seq<Pc<E>>, spawned: nat, slots: nat, once: Once,
                               cancelled: bool, parent: Option<E>, failure: Option<E>, results: seq<Option<V>>,
                               answers: seq<Option<Result<V, E>>>, ran: seq<nat>, returned: Option<Outcome<V, E>>)

  datatype Action<V, E> =
    | Spawn
    | Acquire(i: nat)
    | GiveUp(i: nat)
    | Check(i: nat)
    | Answer(i: nat, answer: Result<V, E>)
    | EnterOnce(i: nat)
    | LeaveOnce(i: nat)
    | Unwind(i: nat)
    | SayDone(i: nat)
    | CancelParent(error: E)
    | Return

  /** The entry checks: no tasks, a context already done, and whether there is a semaphore at all. */
  function Enter<V, E>(tasks: nat, limit: int, parent: Option<E>): State<V, E> {
    State(tasks, if 0 < limit < tasks then limit else 0, seq(tasks, _ => Unborn), 0, 0, Unused, false, parent, None,
          seq(tasks, _ => None), seq(tasks, _ => None), seq(tasks, _ => 0),
          if tasks == 0 then Some(Nothing) else if parent.Some? then Some(Failed(parent.value)) else None)
  }

  /** The context the tasks run under is done. */
  predicate Done<V, E>(s: State<V, E>) {
    s.cancelled || s.parent.Some?
  }

  predicate At<V, E>(s: State<V, E>, i: nat) {
    i < s.tasks && |s.pcs| == |s.results| == |s.answers| == |s.ran| == s.tasks
  }

  function Go<V, E>(s: State<V, E>, i: nat, pc: Pc<E>): State<V, E>
    requires At(s, i)
  {
    s.(pcs := s.pcs[i := pc])
  }

  predicate AllFinished<E>(pcs: seq<Pc<E>>) {
    forall i :: 0 <= i < |pcs| ==> pcs[i].Finished?
  }

  /** An action that is not possible where the system stands does nothing. */
  function Next<V, E>(s: State<V, E>, a: Action<V, E>): State<V, E> {
    if s.returned.Some? then s
    else match a
      case Spawn =>
        if At(s, s.spawned)
        then Go(s, s.spawned, if s.ceiling > 0 then Queued else Admitted).(spawned := s.spawned + 1) else s
      case Acquire(i) =>
        if At(s, i) && s.pcs[i].Queued? && s.slots < s.ceiling
        then Go(s, i, Admitted).(slots := s.slots + 1) else s
      case GiveUp(i) =>
        if At(s, i) && s.pcs[i].Queued? && Done(s) then Go(s, i, Finishing) else s
      case Check(i) =>
        if !(At(s, i) && s.pcs[i].Admitted?) then s
        else if Done(s) then Go(s, i, Leaving) else Go(s, i, Running).(ran := s.ran[i := s.ran[i] + 1])
      case Answer(i, answer) =>
        if !(At(s, i) && s.pcs[i].Running?) then s
        else (
          var t := s.(answers := s.answers[i := Some(answer)]);
          match answer
          case Err(e) => Go(t, i, Failing(e))
          case Ok(v) => Go(t, i, Leaving).(results := s.results[i := Some(v)])
        )
      case EnterOnce(i) =>
        if !(At(s, i) && s.pcs[i].Failing?) then s
        else (
          match s.once
          case Unused => Go(s, i, Cancelling).(once := Busy(i), failure := Some(s.pcs[i].error))
          case Busy(_) => s
          case Over => Go(s, i, Leaving)
        )
      case LeaveOnce(i) =>
        if At(s, i) && s.pcs[i].Cancelling? then Go(s, i, Leaving).(once := Over, cancelled := true) else s
      case Unwind(i) =>
        if At(s, i) && s.pcs[i].Leaving?
        then Go(s, i, Finishing).(slots := if s.ceiling > 0 && s.slots > 0 then s.slots - 1 else s.slots) else s
      case SayDone(i) =>
        if At(s, i) && s.pcs[i].Finishing? then Go(s, i, Finished) else s
      case CancelParent(e) =>
        if s.parent.None? then s.(parent := Some(e)) else s
      case Return =>
        if s.spawned == s.tasks && AllFinished(s.pcs)
        then s.(returned := Some(if s.failure.Some? then Failed(s.failure.value)
                                 else if s.parent.Some? then Failed(s.parent.value) else Complete(s.results)))
        else s
  }

  function Exec<V, E>(s: State<V, E>, actions: seq<Action<V, E>>): State<V, E> {
    if actions == [] then s else Next(Exec(s, actions[..|actions| - 1]), actions[|actions| - 1])
  }

  // ------------------------------------------------------------- invariant

  predicate Holds<E>(pc: Pc<E>) {
    pc.Admitted? || pc.Running? || pc.Failing? || pc.Cancelling? || pc.Leaving?
  }

  function Holders<E>(pcs: seq<Pc<E>>): nat {
    if pcs == [] then 0 else Holders(pcs[..|pcs| - 1]) + if Holds(pcs[|pcs| - 1]) then 1 else 0
  }

  lemma {:induction false} HoldersUpdate<E>(pcs: seq<Pc<E>>, i: nat, pc: Pc<E>)
    requires i < |pcs|
    ensures Holders(pcs[i := pc]) == Holders(pcs) - (if Holds(pcs[i]) then 1 else 0) + (if Holds(pc) then 1 else 0)
    ensures Holds(pcs[i]) ==> 0 < Holders(pcs)
  {
    var n := |pcs| - 1;
    if i == n {
      assert pcs[i := pc][..n] == pcs[..n];
    } else {
      assert pcs[i := pc][..n] == pcs[..n][i := pc];
      HoldersUpdate(pcs[..n], i, pc);
    }
  }

  /** What is known of one goroutine: whether its task ran, what came of it, and why not. */
  ghost predicate TaskFine<V, E>(s: State<V, E>, i: nat)
    requires At(s, i)
  {
    var pc := s.pcs[i];
    && (pc.Unborn? <==> s.spawned <= i)
    && (pc.Queued? ==> 0 < s.ceiling)
    && (s.ran[i] == if pc.Running? || s.answers[i].Some? then 1 else 0)
    && (pc.Unborn? || pc.Queued? || pc.Admitted? || pc.Running? ==> s.answers[i].None?)
    && (pc.Failing? ==> s.answers[i] == Some(Err(pc.error)))
    && (pc.Cancelling? ==> s.once == Busy(i) && s.answers[i].Some? && s.answers[i].value.Err?)
    && (pc.Leaving? || pc.Finishing? || pc.Finished? ==>
          match s.answers[i]
          case None => Done(s)
          case Some(Ok(_)) => true
          case Some(Err(_)) => s.once == Over)
    && (s.answers[i].Some? && s.answers[i].value.Ok? ==> s.results[i] == Some(s.answers[i].value.value))
  }

  ghost predicate TasksFine<V, E>(s: State<V, E>) {
    forall i :: 0 <= i < s.tasks ==> At(s, i) && TaskFine(s, i)
  }

  /** The failure kept is one a task answered, set once and before the cancellation. */
  ghost predicate OnceFine<V, E>(s: State<V, E>) {
    && (s.once.Unused? <==> s.failure.None?) && (s.once.Over? <==> s.cancelled)
    && (s.once.Busy? ==> At(s, s.once.owner) && s.pcs[s.once.owner].Cancelling?)
    && (s.failure.Some? ==> Some(Err(s.failure.value)) in s.answers)
  }

  ghost predicate SlotsFine<V, E>(s: State<V, E>) {
    s.slots <= s.ceiling && (0 < s.ceiling ==> s.slots == Holders(s.pcs))
  }

  /** What the caller is told, once it is told. */
  ghost predicate ReturnFine<V, E>(s: State<V, E>) {
    s.returned.Some? ==>
      && AllFinished(s.pcs)
      && s.returned.value == if s.failure.Some? then Failed(s.failure.value)
                             else if s.parent.Some? then Failed(s.parent.value) else Complete(s.results)
  }

  predicate Shaped<V, E>(s: State<V, E>) {
    |s.pcs| == |s.results| == |s.answers| == |s.ran| == s.tasks && s.spawned <= s.tasks
  }

  ghost predicate Inv<V, E>(s: State<V, E>) {
    && Shaped(s) && TasksFine(s) && OnceFine(s) && SlotsFine(s) && ReturnFine(s)
  }

  lemma EnterFine<V, E>(tasks: nat, limit: int, parent: Option<E>)
    requires 0 < tasks && parent.None?
    ensures Inv(Enter<V, E>(tasks, limit, parent))
  {
    NoHolders<E>(tasks);
  }

  lemma {:induction false} NoHolders<E>(n: nat)
    ensures Holders<E>(seq(n, _ => Unborn)) == 0
  {
    if n > 0 {
      var pcs: seq<Pc<E>> := seq(n, _ => Unborn);
      NoHolders<E>(n - 1);
      assert pcs[..n - 1] == seq(n - 1, _ => Unborn);
    }
  }

  /** The goroutine an action moves, if any. */
  function Mover<V, E>(s: State<V, E>, a: Action<V, E>): nat {
    match a
    case Spawn => s.spawned
    case CancelParent(_) => s.tasks
    case Return => s.tasks
    case _ => a.i
  }

  /** A step of a goroutine moves that goroutine, and the slot it gains or gives up is counted. */
  lemma NextMoves<V, E>(s: State<V, E>, a: Action<V, E>, i: nat)
    requires Inv(s) && i == Mover(s, a)
    ensures var s' := Next(s, a);
            && |s'.pcs| == s'.tasks == s.tasks && s'.ceiling == s.ceiling
            && (if i < s.tasks then s'.pcs == s.pcs[i := s'.pcs[i]] else s'.pcs == s.pcs && s'.slots == s.slots)
  {
  }

  lemma SlotsMove<V, E>(s: State<V, E>, a: Action<V, E>, i: nat)
    requires Inv(s) && i == Mover(s, a) && i < s.tasks && 0 < s.ceiling
    requires Holds(s.pcs[i]) ==> 0 < s.slots
    ensures |Next(s, a).pcs| == s.tasks
    ensures Next(s, a).slots
         == s.slots - (if Holds(s.pcs[i]) then 1 else 0) + (if Holds(Next(s, a).pcs[i]) then 1 else 0)
    ensures Next(s, a).slots <= s.ceiling
  {
    assert TaskFine(s, i);
  }

  lemma SlotsKept<V, E>(s: State<V, E>, a: Action<V, E>)
    requires Inv(s)
    ensures SlotsFine(Next(s, a))
  {
    var i, s' := Mover(s, a), Next(s, a);
    NextMoves(s, a, i);
    if i < s.tasks && 0 < s.ceiling {
      HoldersUpdate(s.pcs, i, s'.pcs[i]);
      SlotsMove(s, a, i);
    }
  }

  /** A failure kept is never replaced, and an answer given is never taken back. */
  lemma AnswersStay<V, E>(s: State<V, E>, a: Action<V, E>, k: nat)
    requires Inv(s) && k < s.tasks && s.answers[k].Some?
    ensures k < |Next(s, a).answers| && Next(s, a).answers[k] == s.answers[k]
    ensures s.failure.Some? ==> Next(s, a).failure == s.failure
  {
    assert TaskFine(s, k);
  }

  lemma OnceMoves<V, E>(s: State<V, E>, a: Action<V, E>)
    requires Shaped(s) && OnceFine(s) && (Mover(s, a) < s.tasks ==> TaskFine(s, Mover(s, a)))
    ensures var s' := Next(s, a);
            && (s'.once.Unused? <==> s'.failure.None?) && (s'.once.Over? <==> s'.cancelled)
            && (s'.once.Busy? ==> At(s', s'.once.owner) && s'.pcs[s'.once.owner].Cancelling?)
            && (s.failure.None? && s'.failure.Some? ==> Some(Err(s'.failure.value)) in s'.answers)
  {
    var i := Mover(s, a);
    if i < s.tasks && s.pcs[i].Failing? { assert s.answers[i] == Some(Err(s.pcs[i].error)); }
  }

  lemma OnceKept<V, E>(s: State<V, E>, a: Action<V, E>)
    requires Inv(s)
    ensures OnceFine(Next(s, a))
  {
    OnceMoves(s, a);
    if s.failure.Some? {
      var k :| 0 <= k < |s.answers| && s.answers[k] == Some(Err(s.failure.value));
      AnswersStay(s, a, k);
    }
  }

  /** What an action leaves alone of a goroutine it does not move, and what only ever grows. */
  lemma NextFrame<V, E>(s: State<V, E>, a: Action<V, E>, k: nat)
    requires Shaped(s) && k < s.tasks && k != Mover(s, a)
    ensures var s' := Next(s, a);
            && At(s', k) && s'.pcs[k] == s.pcs[k] && s'.answers[k] == s.answers[k]
            && s'.ran[k] == s.ran[k] && s'.results[k] == s.results[k] && s'.ceiling == s.ceiling
            && (s'.spawned <= k <==> s.spawned <= k) && (Done(s) ==> Done(s')) && (s.once == Over ==> s'.once == Over)
  {
  }

  lemma OthersKept<V, E>(s: State<V, E>, a: Action<V, E>, k: nat)
    requires Inv(s) && k < s.tasks && k != Mover(s, a)
    ensures At(Next(s, a), k) && TaskFine(Next(s, a), k)
  {
    NextFrame(s, a, k);
    assert TaskFine(s, k);
    if s.once == Busy(k) {
      var i := Mover(s, a);
      assert i < s.tasks ==> TaskFine(s, i);
      assert Next(s, a).once == s.once;
    }
  }

  predicate Early<V, E>(a: Action<V, E>) {
    a.Spawn? || a.Acquire? || a.GiveUp? || a.Check?
  }

  lemma EarlyMoverKept<V, E>(s: State<V, E>, a: Action<V, E>, i: nat)
    requires Shaped(s) && OnceFine(s) && i < s.tasks && i == Mover(s, a) && TaskFine(s, i) && Early(a)
    ensures At(Next(s, a), i) && TaskFine(Next(s, a), i)
  {
  }

  lemma MoverKept<V, E>(s: State<V, E>, a: Action<V, E>, i: nat)
    requires Shaped(s) && OnceFine(s) && i < s.tasks && i == Mover(s, a) && TaskFine(s, i)
    ensures At(Next(s, a), i) && TaskFine(Next(s, a), i)
  {
    if Early(a) { EarlyMoverKept(s, a, i); }
  }

  lemma TasksKept<V, E>(s: State<V, E>, a: Action<V, E>)
    requires Inv(s)
    ensures |Next(s, a).pcs| == Next(s, a).tasks == s.tasks && TasksFine(Next(s, a))
  {
    var i := Mover(s, a);
    forall k | 0 <= k < s.tasks ensures At(Next(s, a), k) && TaskFine(Next(s, a), k) {
      if k == i { MoverKept(s, a, i); } else { OthersKept(s, a, k); }
    }
  }

  lemma NextKeeps<V, E>(s: State<V, E>, a: Action<V, E>)
    requires Inv(s)
    ensures Inv(Next(s, a))
  {
    SlotsKept(s, a);
    OnceKept(s, a);
    TasksKept(s, a);
  }

  lemma {:induction false} AlwaysFine<V, E>(tasks: nat, limit: int, actions: seq<Action<V, E>>)
    requires 0 < tasks
    ensures Inv(Exec(Enter<V, E>(tasks, limit, None), actions))
  {
    if actions == [] {
      EnterFine<V, E>(tasks, limit, None);
    } else {
      AlwaysFine<V, E>(tasks, limit, actions[..|actions| - 1]);
      NextKeeps(Exec(Enter<V, E>(tasks, limit, None), actions[..|actions| - 1]), actions[|actions| - 1]);
    }
  }

  // --------------------------------------------------------- what is returned

  /** Every task was called once and answered, and its slot holds the answer. */
  ghost predicate AllAnswered<V, E>(s: State<V, E>, results: seq<Option<V>>) {
    |results| == |s.answers| == |s.ran| == s.tasks
    && forall i :: 0 <= i < s.tasks ==>
         && s.ran[i] == 1 && s.answers[i].Some? && s.answers[i].value.Ok?
         && results[i] == Some(s.answers[i].value.value)
  }

  ghost predicate SomeFailed<V, E>(s: State<V, E>) {
    exists i :: 0 <= i < |s.answers| && s.answers[i].Some? && s.answers[i].value.Err?
  }

  lemma CompleteIsWhole<V, E>(s: State<V, E>)
    requires Inv(s) && s.returned.Some? && s.returned.value.Complete?
    ensures AllAnswered(s, s.returned.value.results)
  {
    forall i | 0 <= i < s.tasks
      ensures s.ran[i] == 1 && s.answers[i].Some? && s.answers[i].value.Ok?
      ensures s.results[i] == Some(s.answers[i].value.value)
    {
      assert TaskFine(s, i) && s.pcs[i].Finished?;
    }
  }

  lemma FailureIsSomebodys<V, E>(s: State<V, E>)
    requires Inv(s) && s.returned.Some?
    ensures s.failure.Some? <==> SomeFailed(s)
  {
    if s.failure.Some? {
      var k :| 0 <= k < |s.answers| && s.answers[k] == Some(Err(s.failure.value));
    }
    forall i | 0 <= i < s.tasks && s.answers[i].Some? && s.answers[i].value.Err? ensures s.failure.Some? {
      assert TaskFine(s, i) && s.pcs[i].Finished?;
    }
  }

  /**
   In every interleaving, whatever is returned is returned after every goroutine is over. Results
   come back exactly if no task failed and the parent was not cancelled, and then every task was
   called exactly once, answered without error, and the slot at its position holds its answer;
   otherwise the error is the failure that won, which some task answered, or the parent's.
   */
  lemma ReturnsTheTruth<V, E>(tasks: nat, limit: int, actions: seq<Action<V, E>>)
    requires 0 < tasks
    requires Exec(Enter<V, E>(tasks, limit, None), actions).returned.Some?
    ensures var s := Exec(Enter<V, E>(tasks, limit, None), actions);
            var r := s.returned.value;
            && s.tasks == |s.pcs| == tasks && AllFinished(s.pcs)
            && (r.Complete? <==> !SomeFailed(s) && s.parent.None?)
            && (r.Complete? ==> AllAnswered(s, r.results))
            && (SomeFailed(s) ==>
                  s.failure.Some? && r == Failed(s.failure.value) && Some(Err(s.failure.value)) in s.answers)
            && (!SomeFailed(s) && s.parent.Some? ==> r == Failed(s.parent.value))
  {
    AlwaysFine<V, E>(tasks, limit, actions);
    ShapeKept<V, E>(tasks, limit, actions);
    var s := Exec(Enter<V, E>(tasks, limit, None), actions);
    FailureIsSomebodys(s);
    if s.returned.value.Complete? { CompleteIsWhole(s); }
  }

  lemma {:induction false} ShapeKept<V, E>(tasks: nat, limit: int, actions: seq<Action<V, E>>)
    ensures var s := Exec(Enter<V, E>(tasks, limit, None), actions);
            s.tasks == tasks && s.ceiling == if 0 < limit < tasks then limit else 0
  {
    if actions != [] { ShapeKept<V, E>(tasks, limit, actions[..|actions| - 1]); }
  }

  /** The first failure wins: once there is one, no step of anybody replaces it. */
  lemma FailureKept<V, E>(s: State<V, E>, a: Action<V, E>)
    requires OnceFine(s) && s.failure.Some?
    ensures Next(s, a).failure == s.failure
  {
  }

  lemma {:induction false} FirstFailureWins<V, E>(s: State<V, E>, actions: seq<Action<V, E>>)
    requires Inv(s) && s.failure.Some?
    ensures Inv(Exec(s, actions)) && Exec(s, actions).failure == s.failure
  {
    if actions != [] {
      FirstFailureWins(s, actions[..|actions| - 1]);
      var t := Exec(s, actions[..|actions| - 1]);
      NextKeeps(t, actions[|actions| - 1]);
      FailureKept(t, actions[|actions| - 1]);
    }
  }

  /** A step under a context that is done calls no task, and the context stays done. */
  lemma DoneStep<V, E>(s: State<V, E>, a: Action<V, E>)
    requires Done(s)
    ensures Done(Next(s, a)) && Next(s, a).ran == s.ran
  {
  }

  /** Once the context is done, whoever was not called by then never is. */
  lemma {:induction false} DoneCallsNobody<V, E>(s: State<V, E>, actions: seq<Action<V, E>>)
    requires Done(s)
    ensures Done(Exec(s, actions)) && Exec(s, actions).ran == s.ran
  {
    if actions != [] {
      DoneCallsNobody(s, actions[..|actions| - 1]);
      DoneStep(Exec(s, actions[..|actions| - 1]), actions[|actions| - 1]);
    }
  }

  lemma {:induction false} InvAlways<V, E>(s: State<V, E>, actions: seq<Action<V, E>>)
    requires Inv(s)
    ensures Inv(Exec(s, actions))
  {
    if actions != [] {
      InvAlways(s, actions[..|actions| - 1]);
      NextKeeps(Exec(s, actions[..|actions| - 1]), actions[|actions| - 1]);
    }
  }

  /** A task that was not called has not answered. */
  lemma UncalledIsSilent<V, E>(s: State<V, E>, i: nat)
    requires Inv(s) && i < s.tasks && s.ran[i] == 0
    ensures s.answers[i].None?
  {
    assert TaskFine(s, i);
  }

  lemma DoneFails<V, E>(s: State<V, E>)
    requires Inv(s) && Done(s) && s.returned.Some?
    ensures s.returned.value.Failed?
  {
  }

  /**
   From any reachable state in which a failure has cancelled the tasks, or the parent was cancelled, the rest of the
   run calls no task that was not called yet, so none of them ever answers; and a return is an error.
   */
  lemma FailureStopsTheRest<V, E>(tasks: nat, limit: int, before: seq<Action<V, E>>, after: seq<Action<V, E>>)
    requires 0 < tasks && Done(Exec(Enter<V, E>(tasks, limit, None), before))
    ensures var s := Exec(Enter<V, E>(tasks, limit, None), before);
            var t := Exec(s, after);
            && t.ran == s.ran && |t.answers| == |s.ran|
            && (forall i :: 0 <= i < |s.ran| && s.ran[i] == 0 ==> t.answers[i].None?)
            && (t.returned.Some? ==> t.returned.value.Failed?)
  {
    var s := Exec(Enter<V, E>(tasks, limit, None), before);
    AlwaysFine<V, E>(tasks, limit, before);
    InvAlways(s, after);
    DoneCallsNobody(s, after);
    StoppedTasks(Exec(s, after));
  }

  lemma StoppedTasks<V, E>(t: State<V, E>)
    requires Inv(t) && Done(t)
    ensures |t.answers| == |t.ran| && forall i :: 0 <= i < |t.ran| && t.ran[i] == 0 ==> t.answers[i].None?
    ensures t.returned.Some? ==> t.returned.value.Failed?
  {
    forall i | 0 <= i < |t.ran| && t.ran[i] == 0 ensures t.answers[i].None? { UncalledIsSilent(t, i); }
    if t.returned.Some? { DoneFails(t); }
  }

  /** A context that is done on entry runs nothing, and no tasks return nothing. */
  lemma {:induction false} EntryChecks<V, E>(tasks: nat, limit: int, parent: Option<E>, actions: seq<Action<V, E>>)
    requires tasks == 0 || parent.Some?
    ensures Exec(Enter<V, E>(tasks, limit, parent), actions) == Enter<V, E>(tasks, limit, parent)
    ensures Exec(Enter<V, E>(tasks, limit, parent), actions).returned
         == Some(if tasks == 0 then Nothing else Failed(parent.value))
  {
    if actions != [] { EntryChecks(tasks, limit, parent, actions[..|actions| - 1]); }
  }

  // ---------------------------------------------------------------- the limit

  function RunningNow<E>(pcs: seq<Pc<E>>): nat {
    if pcs == [] then 0 else RunningNow(pcs[..|pcs| - 1]) + if pcs[|pcs| - 1].Running? then 1 else 0
  }

  lemma {:induction false} RunningHold<E>(pcs: seq<Pc<E>>)
    ensures RunningNow(pcs) <= Holders(pcs) && RunningNow(pcs) <= |pcs|
  {
    if pcs != [] { RunningHold(pcs[..|pcs| - 1]); }
  }

  /** A positive limit is a ceiling on the tasks running at any moment; any other is none. */
  lemma NeverAboveTheLimit<V, E>(tasks: nat, limit: int, actions: seq<Action<V, E>>)
    requires 0 < tasks
    ensures var s := Exec(Enter<V, E>(tasks, limit, None), actions);
            RunningNow(s.pcs) <= if 0 < limit < tasks then limit else tasks
  {
    AlwaysFine<V, E>(tasks, limit, actions);
    ShapeKept<V, E>(tasks, limit, actions);
    RunningHold(Exec(Enter<V, E>(tasks, limit, None), actions).pcs);
  }

  // -------------------------------------------------------------- termination

  function Rank<E>(pc: Pc<E>): nat {
    match pc
    case Unborn => 8
    case Queued => 7
    case Admitted => 6
    case Running => 5
    case Failing(_) => 4
    case Cancelling => 3
    case Leaving => 2
    case Finishing => 1
    case Finished => 0
  }

  function Ranks<E>(pcs: seq<Pc<E>>): nat {
    if pcs == [] then 0 else Ranks(pcs[..|pcs| - 1]) + Rank(pcs[|pcs| - 1])
  }

  /** How much is left to happen. */
  function Left<V, E>(s: State<V, E>): nat {
    Ranks(s.pcs) + (if s.parent.None? then 1 else 0) + (if s.returned.None? then 1 else 0)
  }

  lemma {:induction false} RanksUpdate<E>(pcs: seq<Pc<E>>, i: nat, pc: Pc<E>)
    requires i < |pcs|
    ensures Ranks(pcs[i := pc]) == Ranks(pcs) - Rank(pcs[i]) + Rank(pc)
  {
    var n := |pcs| - 1;
    if i == n {
      assert pcs[i := pc][..n] == pcs[..n];
    } else {
      assert pcs[i := pc][..n] == pcs[..n][i := pc];
      RanksUpdate(pcs[..n], i, pc);
    }
  }

  lemma MoverGoesDown<V, E>(s: State<V, E>, a: Action<V, E>, i: nat)
    requires Inv(s) && i == Mover(s, a) && i < s.tasks && Next(s, a) != s
    ensures |Next(s, a).pcs| == s.tasks && Rank(Next(s, a).pcs[i]) < Rank(s.pcs[i])
    ensures Next(s, a).parent == s.parent && Next(s, a).returned == s.returned
  {
    assert TaskFine(s, i);
  }

  /** Every step that does anything leaves less to do. */
  lemma StepsRunOut<V, E>(s: State<V, E>, a: Action<V, E>)
    requires Inv(s) && Next(s, a) != s
    ensures Left(Next(s, a)) < Left(s)
  {
    var i := Mover(s, a);
    NextMoves(s, a, i);
    if i < s.tasks {
      MoverGoesDown(s, a, i);
      RanksUpdate(s.pcs, i, Next(s, a).pcs[i]);
    }
  }

  lemma {:induction false} RanksAtMost<E>(pcs: seq<Pc<E>>)
    ensures Ranks(pcs) <= 8 * |pcs|
  {
    if pcs != [] { RanksAtMost(pcs[..|pcs| - 1]); }
  }

  /** The steps of a run that did something. */
  ghost function Effective<V, E>(s: State<V, E>, actions: seq<Action<V, E>>): nat {
    if actions == [] then 0
    else
      var before := Exec(s, actions[..|actions| - 1]);
      Effective(s, actions[..|actions| - 1]) + if Next(before, actions[|actions| - 1]) != before then 1 else 0
  }

  lemma {:induction false} EffectiveRunsOut<V, E>(s: State<V, E>, actions: seq<Action<V, E>>)
    requires Inv(s)
    ensures Inv(Exec(s, actions)) && Effective(s, actions) + Left(Exec(s, actions)) <= Left(s)
  {
    if actions != [] {
      EffectiveRunsOut(s, actions[..|actions| - 1]);
      var before, last := Exec(s, actions[..|actions| - 1]), actions[|actions| - 1];
      NextKeeps(before, last);
      if Next(before, last) != before { StepsRunOut(before, last); }
    }
  }

  /** No run takes more than eight steps a task and two. */
  lemma RunsEnd<V, E>(tasks: nat, limit: int, actions: seq<Action<V, E>>)
    requires 0 < tasks
    ensures Effective(Enter<V, E>(tasks, limit, None), actions) <= 8 * tasks + 2
  {
    var s := Enter<V, E>(tasks, limit, None);
    EnterFine<V, E>(tasks, limit, None);
    EffectiveRunsOut(s, actions);
    RanksAtMost(s.pcs);
  }

  /** A goroutine that has started and is past the semaphore can always go on, or waits for one that can. */
  lemma Unstuck<V, E>(s: State<V, E>, i: nat, answer: Result<V, E>) returns (a: Action<V, E>)
    requires Inv(s) && s.returned.None? && i < s.tasks && (Holds(s.pcs[i]) || s.pcs[i].Finishing?)
    ensures Next(s, a) != s && !a.CancelParent?
  {
    assert TaskFine(s, i);
    match s.pcs[i] {
      case Admitted => a := Check(i);
      case Running => a := Answer(i, answer);
      case Failing(_) => a := if s.once.Busy? then LeaveOnce(s.once.owner) else EnterOnce(i);
      case Cancelling => a := LeaveOnce(i);
      case Leaving => a := Unwind(i);
      case Finishing => a := SayDone(i);
    }
    var j := Mover(s, a);
    assert Next(s, a).pcs[j] != s.pcs[j];
  }

  lemma {:induction false} NobodyHolds<E>(pcs: seq<Pc<E>>)
    requires forall i :: 0 <= i < |pcs| ==> !Holds(pcs[i])
    ensures Holders(pcs) == 0
  {
    if pcs != [] { NobodyHolds(pcs[..|pcs| - 1]); }
  }

  /**
   No deadlock: until the call returns, some step other than the parent being cancelled is always
   possible, so with tasks that answer every run comes to its return.
   */
  lemma SomebodyMoves<V, E>(s: State<V, E>, answer: Result<V, E>) returns (a: Action<V, E>)
    requires Inv(s) && s.returned.None?
    ensures Next(s, a) != s && !a.CancelParent?
  {
    if i :| 0 <= i < s.tasks && (Holds(s.pcs[i]) || s.pcs[i].Finishing?) {
      a := Unstuck(s, i, answer);
    } else if s.spawned < s.tasks {
      a := Spawn;
      assert TaskFine(s, s.spawned);
      assert Next(s, a).spawned != s.spawned;
    } else if i :| 0 <= i < s.tasks && s.pcs[i].Queued? {
      assert TaskFine(s, i);
      NobodyHolds(s.pcs);
      a := Acquire(i);
      assert Next(s, a).slots != s.slots;
    } else {
      forall i | 0 <= i < s.tasks ensures s.pcs[i].Finished? { assert TaskFine(s, i); }
      a := Return;
      assert Next(s, a).returned.Some?;
    }
  }
}
