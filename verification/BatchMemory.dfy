/**
 The in-memory repository, which makes every change at once, and the dispatch, the additions and the
 reports that go through it.
 */
module BatchMemory {
  import opened Wrappers
  import opened Batches
  import opened Queues
  import Keys

  datatype BusError = NoTenant | NotFound | EmptyBatch | NoName | PushFailed

  /** Tenant and id, with a byte between them that no tenant holds. */
  function RowKey(tenant: string, id: string): string {
    tenant + "\0" + id
  }

  lemma RowKeyInjective(t1: string, i1: string, t2: string, i2: string)
    requires Keys.ValidTenant(t1) && Keys.ValidTenant(t2) && RowKey(t1, i1) == RowKey(t2, i2)
    ensures t1 == t2 && i1 == i2
  {
    assert RowKey(t1, i1) == t1 + ['\0'] + i1 && RowKey(t2, i2) == t2 + ['\0'] + i2;
    Keys.CutAtFirst(t1, i1, t2, i2, '\0');
  }

  function JobMessage(b: Batch, j: Step, job: string): Message {
    Message(if j.queue != "" then j.queue else b.options.queue, j.name,
            Enveloped(b.id, job, [], NO_STEP, j.payload))
  }

  function JobMessages(b: Batch, jobs: seq<Step>, ids: seq<string>): seq<Message>
    requires |jobs| <= |ids|
  {
    if jobs == [] then []
    else JobMessages(b, jobs[..|jobs| - 1], ids) + [JobMessage(b, jobs[|jobs| - 1], ids[|jobs| - 1])]
  }

  function NewBatch(id: string, tenant: string, jobs: nat, o: Options): Batch {
    Batch(id, tenant, jobs, jobs, 0, [], o, None, None)
  }

  function BeforeMessages(b: Batch): seq<Message> {
    if b.options.before.Declared() then [CallbackMessage(b.options, b.options.before)] else []
  }

  function DispatchMessages(b: Batch, jobs: seq<Step>, ids: seq<string>): seq<Message>
    requires |jobs| <= |ids|
  {
    BeforeMessages(b) + JobMessages(b, jobs, ids)
  }

  /** The messages the effects of a report come to, in order. */
  function Pushed(o: Options, effects: seq<Effect>): seq<Message> {
    if effects == [] then []
    else
      var n := |effects| - 1;
      Pushed(o, effects[..n])
      + if effects[n].Push? then [CallbackMessage(o, CallbackStep(o, effects[n].callback))] else []
  }

  /** What the effects of a report do to the row. */
  function Stamped(b: Batch, effects: seq<Effect>, now: int): Batch {
    if effects == [] then b
    else
      var n := |effects| - 1;
      match effects[n]
      case Push(_) => Stamped(b, effects[..n], now)
      case Finish => MarkFinished(Stamped(b, effects[..n], now), now)
      case Cancel => Cancelled(Stamped(b, effects[..n], now), now)
  }

  /** The bare message of a step, if the time has come and the step is declared. */
  function BareIf(when: bool, o: Options, f: Step): seq<Message> {
    if when && f.Declared() then [Message(if f.queue != "" then f.queue else o.queue, f.name, f.payload)] else []
  }

  /** What one guarded effect comes to. */
  function PushedOf(o: Options, g: Guarded): seq<Message> {
    if g.when && g.effect.Push? then [CallbackMessage(o, CallbackStep(o, g.effect.callback))] else []
  }

  function StampedOf(b: Batch, g: Guarded, now: int): Batch {
    if g.when && g.effect.Finish? then MarkFinished(b, now)
    else if g.when && g.effect.Cancel? then Cancelled(b, now) else b
  }

  lemma ChosenPushes(o: Options, guards: seq<Guarded>, g: Guarded)
    ensures Pushed(o, Chosen(guards + [g])) == Pushed(o, Chosen(guards)) + PushedOf(o, g)
  {
    assert (guards + [g])[..|guards|] == guards;
    var all := Chosen(guards);
    assert (all + [g.effect])[..|all|] == all;
  }

  lemma ChosenStamps(b: Batch, guards: seq<Guarded>, g: Guarded, now: int)
    ensures Stamped(b, Chosen(guards + [g]), now) == StampedOf(Stamped(b, Chosen(guards), now), g, now)
  {
    assert (guards + [g])[..|guards|] == guards;
    var all := Chosen(guards);
    assert (all + [g.effect])[..|all|] == all;
  }

  function Joined<T>(parts: seq<seq<T>>): seq<T> {
    if parts == [] then [] else Joined(parts[..|parts| - 1]) + parts[|parts| - 1]
  }

  lemma JoinedOneMore<T>(parts: seq<seq<T>>, part: seq<T>)
    ensures Joined(parts + [part]) == Joined(parts) + part
  {
    assert (parts + [part])[..|parts|] == parts;
  }

  lemma JoinedFour<T>(a: seq<T>, b: seq<T>, c: seq<T>, d: seq<T>)
    ensures Joined([a, b, c, d]) == a + b + c + d
  {
    assert [] + [a] == [a] && [a] + [b] == [a, b] && [a, b] + [c] == [a, b, c] && [a, b, c] + [d] == [a, b, c, d];
    JoinedOneMore([], a);
    JoinedOneMore([a], b);
    JoinedOneMore([a, b], c);
    JoinedOneMore([a, b, c], d);
  }

  lemma JoinedSuccess<T>(p: seq<T>, t: seq<T>, y: seq<T>)
    ensures Joined([p, [], t, y]) == p + t + y
  {
    JoinedFour(p, [], t, y);
    assert p + [] == p;
  }

  lemma JoinedFailure<T>(p: seq<T>, f: seq<T>, x: seq<T>, y: seq<T>)
    ensures Joined([[], p, f, x] + [y]) == p + f + x + y
  {
    JoinedFour([], p, f, x);
    JoinedOneMore([[], p, f, x], y);
    assert [] + p == p;
  }

  /** What each of the guarded effects comes to. */
  function Parts(o: Options, guards: seq<Guarded>): (parts: seq<seq<Message>>)
    ensures |parts| == |guards| && forall i :: 0 <= i < |guards| ==> parts[i] == PushedOf(o, guards[i])
  {
    seq(|guards|, i requires 0 <= i < |guards| => PushedOf(o, guards[i]))
  }

  lemma {:induction false} PushedIsJoined(o: Options, guards: seq<Guarded>)
    ensures Pushed(o, Chosen(guards)) == Joined(Parts(o, guards))
  {
    if guards != [] {
      var init, last := guards[..|guards| - 1], guards[|guards| - 1];
      assert guards == init + [last];
      PushedIsJoined(o, init);
      ChosenPushes(o, init, last);
      assert Parts(o, guards) == Parts(o, init) + [PushedOf(o, last)];
      JoinedOneMore(Parts(o, init), PushedOf(o, last));
    }
  }

  lemma FourStamps(b: Batch, g: Guarded, h: Guarded, i: Guarded, j: Guarded, now: int)
    ensures Stamped(b, Chosen([g, h, i, j]), now)
         == StampedOf(StampedOf(StampedOf(StampedOf(b, g, now), h, now), i, now), j, now)
  {
    assert [g, h, i, j] == [] + [g] + [h] + [i] + [j];
    ChosenStamps(b, [], g, now);
    ChosenStamps(b, [] + [g], h, now);
    ChosenStamps(b, [] + [g] + [h], i, now);
    ChosenStamps(b, [] + [g] + [h] + [i], j, now);
  }

  lemma SuccessParts(o: Options, g: seq<Guarded>, job: string, c: Counts)
    requires o == c.batch.options && g == Guards(Success(job), c)
    ensures Parts(o, g)
         == [BareIf(true, o, o.progress), [], BareIf(c.pending == 0, o, o.onThen),
             BareIf(c.pending == c.failed, o, o.onFinally)]
  {
  }

  /** After a success: Progress, then Then with nothing pending, then Finally with every job reported. */
  lemma SuccessMessages(o: Options, job: string, c: Counts)
    requires o == c.batch.options
    ensures Pushed(o, Effects(Success(job), c))
         == BareIf(true, o, o.progress) + BareIf(c.pending == 0, o, o.onThen)
            + BareIf(c.pending == c.failed, o, o.onFinally)
  {
    var g := Guards(Success(job), c);
    PushedIsJoined(o, g);
    SuccessParts(o, g, job, c);
    JoinedSuccess(BareIf(true, o, o.progress), BareIf(c.pending == 0, o, o.onThen),
                  BareIf(c.pending == c.failed, o, o.onFinally));
  }

  lemma FailureParts(o: Options, g: seq<Guarded>, job: string, c: Counts)
    requires o == c.batch.options && g == Guards(Failure(job), c)
    ensures Parts(o, g)
         == [[], BareIf(o.allowFailures, o, o.progress), BareIf(o.allowFailures, o, o.failure),
             BareIf(c.failed == 1, o, o.onCatch)] + [BareIf(c.pending == c.failed, o, o.onFinally)]
  {
  }

  /**
   After a failure: where failures are allowed Progress and Failure, then Catch for the first, then Finally with every
   job reported.
   */
  lemma FailureMessages(o: Options, job: string, c: Counts)
    requires o == c.batch.options
    ensures Pushed(o, Effects(Failure(job), c))
         == BareIf(o.allowFailures, o, o.progress) + BareIf(o.allowFailures, o, o.failure)
            + BareIf(c.failed == 1, o, o.onCatch) + BareIf(c.pending == c.failed, o, o.onFinally)
  {
    var g := Guards(Failure(job), c);
    PushedIsJoined(o, g);
    FailureParts(o, g, job, c);
    JoinedFailure(BareIf(o.allowFailures, o, o.progress), BareIf(o.allowFailures, o, o.failure),
                  BareIf(c.failed == 1, o, o.onCatch), BareIf(c.pending == c.failed, o, o.onFinally));
  }

  /** The messages of a report, in order, by the steps of the options. */
  function MessagesOf(r: Report, c: Counts): seq<Message> {
    var o := c.batch.options;
    if r.Success? then
      BareIf(true, o, o.progress) + BareIf(c.pending == 0, o, o.onThen) + BareIf(c.pending == c.failed, o, o.onFinally)
    else
      BareIf(o.allowFailures, o, o.progress) + BareIf(o.allowFailures, o, o.failure)
      + BareIf(c.failed == 1, o, o.onCatch) + BareIf(c.pending == c.failed, o, o.onFinally)
  }

  lemma MessagesFollow(r: Report, c: Counts)
    ensures Pushed(c.batch.options, Effects(r, c)) == MessagesOf(r, c)
  {
    if r.Success? { SuccessMessages(c.batch.options, r.job, c); } else { FailureMessages(c.batch.options, r.job, c); }
  }

  /**
   The row a report leaves, beside the counted one: cancelled by a first failure unless they are allowed, finished by a
   success with nothing pending or by the cancellation, and otherwise the same.
   */
  predicate StampsDue(r: Report, was: Batch, b: Batch) {
    && b == was.(cancelledAt := b.cancelledAt, finishedAt := b.finishedAt)
    && (b.cancelledAt.Some? <==>
          was.cancelledAt.Some? || (r.Failure? && was.failed == 1 && !was.options.allowFailures))
    && (b.finishedAt.Some? <==>
          || was.finishedAt.Some? || (r.Success? && was.pending == 0)
          || (was.cancelledAt.None? && b.cancelledAt.Some?))
  }

  lemma StampsAreDue(r: Report, b: Batch, now: int)
    ensures StampsDue(r, b, Stamped(b, Effects(r, CountsOf(b)), now))
  {
    ReportStamps(r, CountsOf(b), now);
  }

  /** A success that leaves nothing pending finishes the row; a first failure cancels it unless they are allowed. */
  lemma ReportStamps(r: Report, c: Counts, now: int)
    ensures Stamped(c.batch, Effects(r, c), now)
         == if r.Success? then if c.pending == 0 then MarkFinished(c.batch, now) else c.batch
            else if c.failed == 1 && !c.batch.options.allowFailures then Cancelled(c.batch, now) else c.batch
  {
    var g := Guards(r, c);
    FourStamps(c.batch, g[0], g[1], g[2], g[3], now);
    if r.Success? {
      assert g == [g[0], g[1], g[2], g[3]];
    } else {
      assert g == [g[0], g[1], g[2], g[3]] + [g[4]];
      ChosenStamps(c.batch, [g[0], g[1], g[2], g[3]], g[4], now);
    }
  }

  /** Whether an addition gets as far as the counters. */
  predicate Addable(batches: map<string, Batch>, tenant: string, b: Batch, jobs: seq<Step>) {
    && jobs != [] && (forall j :: j in jobs ==> j.Declared())
    && Keys.ValidTenant(tenant) && RowKey(tenant, b.id) in batches
  }

  function AddAnswer(batches: map<string, Batch>, o: Outcomes, tenant: string, b: Batch, jobs: seq<Step>,
                     ids: seq<string>)
    : Result<Batch, BusError>
    requires |jobs| <= |ids|
  {
    if jobs == [] then Ok(b)
    else if exists j :: j in jobs && !j.Declared() then Err(NoName)
    else if !Keys.ValidTenant(tenant) then Err(NoTenant)
    else if RowKey(tenant, b.id) !in batches then Err(NotFound)
    else if Until(o, |jobs|) < |jobs| then Err(PushFailed)
    else Ok(AddJobs(batches[RowKey(tenant, b.id)], |jobs|))
  }

  class Memory {
    var batches: map<string, Batch>

    constructor ()
      ensures batches == map[]
    {
      batches := map[];
    }

    method Find(tenant: string, id: string) returns (r: Result<Batch, BusError>)
      ensures r == if !Keys.ValidTenant(tenant) then Err(NoTenant)
                   else if RowKey(tenant, id) !in batches then Err(NotFound) else Ok(batches[RowKey(tenant, id)])
    {
      if !Keys.ValidTenant(tenant) {
        return Err(NoTenant);
      }
      if RowKey(tenant, id) !in batches {
        return Err(NotFound);
      }
      r := Ok(batches[RowKey(tenant, id)]);
    }

    method Store(tenant: string, id: string, jobs: nat, o: Options) returns (r: Result<Batch, BusError>)
      modifies this
      ensures !Keys.ValidTenant(tenant) ==> r == Err(NoTenant) && batches == old(batches)
      ensures Keys.ValidTenant(tenant) ==>
                r == Ok(NewBatch(id, tenant, jobs, o)) && batches == old(batches)[RowKey(tenant, id) := r.value]
    {
      if !Keys.ValidTenant(tenant) {
        return Err(NoTenant);
      }
      var b := NewBatch(id, tenant, jobs, o);
      batches := batches[RowKey(tenant, id) := b];
      r := Ok(b);
    }

    /** Read, change and write back under the mutex. */
    method Update(tenant: string, id: string, report: Report) returns (r: Result<Counts, BusError>)
      modifies this
      ensures r.Err? ==> batches == old(batches)
      ensures r == if !Keys.ValidTenant(tenant) then Err(NoTenant)
                   else if RowKey(tenant, id) !in old(batches) then Err(NotFound)
                   else Ok(CountsOf(Apply(old(batches)[RowKey(tenant, id)], report)))
      ensures r.Ok? ==> batches == old(batches)[RowKey(tenant, id) := r.value.batch]
    {
      var found := Find(tenant, id);
      if found.Err? {
        return Err(found.error);
      }
      var b := Apply(found.value, report);
      batches := batches[RowKey(tenant, id) := b];
      r := Ok(CountsOf(b));
    }

    method IncrementTotalJobs(tenant: string, id: string, amount: int) returns (r: Result<(), BusError>)
      modifies this
      ensures r == if !Keys.ValidTenant(tenant) then Err(NoTenant) else if amount <= 0 then Ok(())
                   else if RowKey(tenant, id) !in old(batches) then Err(NotFound) else Ok(())
      ensures batches == if r.Ok? && 0 < amount
                         then old(batches)[RowKey(tenant, id) := AddJobs(old(batches)[RowKey(tenant, id)], amount)]
                         else old(batches)
    {
      if !Keys.ValidTenant(tenant) {
        return Err(NoTenant);
      }
      if amount <= 0 {
        return Ok(());
      }
      var k := RowKey(tenant, id);
      if k !in batches {
        return Err(NotFound);
      }
      var b := batches[k];
      batches := batches[k := b.(total := b.total + amount, pending := b.pending + amount, finishedAt := None)];
      r := Ok(());
    }

    method MarkAsFinished(tenant: string, id: string, now: int) returns (r: Result<(), BusError>)
      modifies this
      ensures r.Ok? <==> Keys.ValidTenant(tenant) && RowKey(tenant, id) in old(batches)
      ensures batches == if r.Ok?
                         then old(batches)[RowKey(tenant, id) := MarkFinished(old(batches)[RowKey(tenant, id)], now)]
                         else old(batches)
    {
      var found := Find(tenant, id);
      if found.Err? {
        return Err(found.error);
      }
      if found.value.finishedAt.Some? {
        assert batches[RowKey(tenant, id) := batches[RowKey(tenant, id)]] == batches;
        return Ok(());
      }
      batches := batches[RowKey(tenant, id) := found.value.(finishedAt := Some(now))];
      r := Ok(());
    }

    method Cancel(tenant: string, id: string, now: int) returns (r: Result<(), BusError>)
      modifies this
      ensures r.Ok? <==> Keys.ValidTenant(tenant) && RowKey(tenant, id) in old(batches)
      ensures batches == if r.Ok?
                         then old(batches)[RowKey(tenant, id) := Cancelled(old(batches)[RowKey(tenant, id)], now)]
                         else old(batches)
    {
      var found := Find(tenant, id);
      if found.Err? {
        return Err(found.error);
      }
      if found.value.cancelledAt.Some? {
        assert batches[RowKey(tenant, id) := batches[RowKey(tenant, id)]] == batches;
        return Ok(());
      }
      batches := batches[RowKey(tenant, id) := found.value.(cancelledAt := Some(now), finishedAt := Some(now))];
      r := Ok(());
    }

    /** Before, then every job with an id of its own, up to the first push that fails. */
    method PushJobs(q: Queue, b: Batch, jobs: seq<Step>, ids: seq<string>) returns (ok: bool)
      requires |jobs| <= |ids|
      modifies q
      ensures ok == (Until(old(q.outcomes), |DispatchMessages(b, jobs, ids)|) == |DispatchMessages(b, jobs, ids)|)
      ensures q.messages == old(q.messages) + Sent(old(q.outcomes), DispatchMessages(b, jobs, ids))
    {
      var first, rest := BeforeMessages(b), JobMessages(b, jobs, ids);
      SentJoins(q.outcomes, first, rest);
      ok := q.PushAll(first);
      if ok {
        ok := q.PushAll(rest);
      }
    }

    /**
     PendingBatch.Dispatch: the row first, then Before, then the jobs. A push that fails leaves the
     messages already queued and a cancelled batch.
     */
    method Dispatch(q: Queue, tenant: string, id: string, jobs: seq<Step>, o: Options, ids: seq<string>, now: int)
      returns (r: Result<Batch, BusError>)
      requires |jobs| <= |ids|
      modifies this, q
      ensures jobs == [] ==> r == Err(EmptyBatch)
      ensures jobs != [] && !Keys.ValidTenant(tenant) ==> r == Err(NoTenant)
      ensures jobs == [] || !Keys.ValidTenant(tenant) ==> batches == old(batches) && q.messages == old(q.messages)
      ensures jobs != [] && Keys.ValidTenant(tenant) ==>
                var b := NewBatch(id, tenant, |jobs|, o);
                var all := DispatchMessages(b, jobs, ids);
                && q.messages == old(q.messages) + Sent(old(q.outcomes), all)
                && r == (if Until(old(q.outcomes), |all|) == |all| then Ok(b) else Err(PushFailed))
                && batches == old(batches)[RowKey(tenant, id) := if r.Ok? then b else Cancelled(b, now)]
    {
      if jobs == [] {
        return Err(EmptyBatch);
      }
      var stored := Store(tenant, id, |jobs|, o);
      if stored.Err? {
        return Err(stored.error);
      }
      var ok := PushJobs(q, stored.value, jobs, ids);
      if !ok {
        var _ := Cancel(tenant, id, now);
        return Err(PushFailed);
      }
      r := Ok(stored.value);
    }

    /**
     Batch.Add: every job has a name or nothing happens, then room in the counters, then the jobs; a
     failed push leaves the counters raised.
     */
    method Add(q: Queue, tenant: string, b: Batch, jobs: seq<Step>, ids: seq<string>)
      returns (r: Result<Batch, BusError>)
      requires |jobs| <= |ids|
      modifies this, q
      ensures r == AddAnswer(old(batches), old(q.outcomes), tenant, b, jobs, ids)
      ensures !Addable(old(batches), tenant, b, jobs) ==> batches == old(batches) && q.messages == old(q.messages)
      ensures Addable(old(batches), tenant, b, jobs) ==>
                && batches == old(batches)[RowKey(tenant, b.id) := AddJobs(old(batches)[RowKey(tenant, b.id)], |jobs|)]
                && q.messages == old(q.messages) + Sent(old(q.outcomes), JobMessages(b, jobs, ids))
    {
      if jobs == [] {
        return Ok(b);
      }
      for i := 0 to |jobs|
        invariant forall k :: 0 <= k < i ==> jobs[k].Declared()
      {
        if !jobs[i].Declared() {
          return Err(NoName);
        }
      }
      var raised := IncrementTotalJobs(tenant, b.id, |jobs|);
      if raised.Err? {
        return Err(raised.error);
      }
      JobMessagesLength(b, jobs, ids);
      var ok := q.PushAll(JobMessages(b, jobs, ids));
      if !ok {
        return Err(PushFailed);
      }
      r := Find(tenant, b.id);
    }

    /**
     Carries out what a report decided on, first to last: pushes, and the stamps of the row. A push
     that fails is noted and the rest goes on.
     */
    method CarryOut(q: Queue, tenant: string, id: string, o: Options, effects: seq<Effect>, now: int)
      requires Keys.ValidTenant(tenant) && RowKey(tenant, id) in batches
      modifies this, q
      ensures q.messages == old(q.messages) + Through(old(q.outcomes), Pushed(o, effects))
      ensures q.outcomes == Rest(old(q.outcomes), |Pushed(o, effects)|)
      ensures batches == old(batches)[RowKey(tenant, id) := Stamped(old(batches)[RowKey(tenant, id)], effects, now)]
    {
      if effects == [] {
        assert batches[RowKey(tenant, id) := batches[RowKey(tenant, id)]] == batches;
        return;
      }
      var n := |effects| - 1;
      CarryOut(q, tenant, id, o, effects[..n], now);
      match effects[n] {
        case Push(c) =>
          var m := CallbackMessage(o, CallbackStep(o, c));
          ThroughOneMore(old(q.outcomes), Pushed(o, effects[..n]), m);
          var _ := q.Push(m);
        case Finish =>
          assert Pushed(o, effects) == Pushed(o, effects[..n]);
          var _ := MarkAsFinished(tenant, id, now);
        case Cancel =>
          assert Pushed(o, effects) == Pushed(o, effects[..n]);
          var _ := Cancel(tenant, id, now);
      }
    }

    /** What a report goes on to do with the counts it got back. */
    method GoOn(q: Queue, tenant: string, id: string, report: Report, c: Counts, now: int)
      requires Keys.ValidTenant(tenant) && RowKey(tenant, id) in batches && batches[RowKey(tenant, id)] == c.batch
      requires c == CountsOf(c.batch)
      modifies this, q
      ensures q.messages == old(q.messages) + Through(old(q.outcomes), Pushed(c.batch.options, Effects(report, c)))
      ensures q.outcomes == Rest(old(q.outcomes), |Pushed(c.batch.options, Effects(report, c))|)
      ensures Pushed(c.batch.options, Effects(report, c)) == MessagesOf(report, c)
      ensures batches == old(batches)[RowKey(tenant, id) := Stamped(c.batch, Effects(report, c), now)]
      ensures StampsDue(report, c.batch, Stamped(c.batch, Effects(report, c), now))
    {
      MessagesFollow(report, c);
      StampsAreDue(report, c.batch, now);
      CarryOut(q, tenant, id, c.batch.options, Effects(report, c), now);
    }

    /**
     RecordSuccessfulJob and RecordFailedJob: the counters move, and the counts that come back say
     which messages follow, in which order, and whether the row is finished or cancelled. A push
     that fails stops nothing after it.
     */
    method Record(q: Queue, tenant: string, id: string, report: Report, now: int) returns (r: Result<Counts, BusError>)
      modifies this, q
      ensures r == if !Keys.ValidTenant(tenant) then Err(NoTenant)
                   else if RowKey(tenant, id) !in old(batches) then Err(NotFound)
                   else Ok(CountsOf(Apply(old(batches)[RowKey(tenant, id)], report)))
      ensures r.Err? ==> batches == old(batches) && q.messages == old(q.messages) && q.outcomes == old(q.outcomes)
      ensures r.Ok? ==>
                var all := Pushed(r.value.batch.options, Effects(report, r.value));
                && q.messages == old(q.messages) + Through(old(q.outcomes), all)
                && q.outcomes == Rest(old(q.outcomes), |all|)
      ensures r.Ok? ==> q.messages == old(q.messages) + Through(old(q.outcomes), MessagesOf(report, r.value))
      ensures r.Ok? ==>
                batches == old(batches)[RowKey(tenant, id) := Stamped(r.value.batch, Effects(report, r.value), now)]
      ensures r.Ok? ==> RowKey(tenant, id) in batches && StampsDue(report, r.value.batch, batches[RowKey(tenant, id)])
    {
      r := Update(tenant, id, report);
      if r.Ok? {
        GoOn(q, tenant, id, report, r.value, now);
      }
    }
  }

  lemma ThroughOneMore(o: Outcomes, ms: seq<Message>, m: Message)
    ensures Through(o, ms + [m]) == Through(o, ms) + if Goes(Rest(o, |ms|)) then [m] else []
    ensures Rest(o, |ms + [m]|) == Later(Rest(o, |ms|))
  {
    ThroughJoins(o, ms, [m]);
    assert [m][1..] == [];
    RestOneMore(o, |ms|);
  }

  lemma {:induction false} JobMessagesLength(b: Batch, jobs: seq<Step>, ids: seq<string>)
    requires |jobs| <= |ids|
    ensures |JobMessages(b, jobs, ids)| == |jobs|
    ensures forall i :: 0 <= i < |jobs| ==> JobMessages(b, jobs, ids)[i] == JobMessage(b, jobs[i], ids[i])
  {
    if jobs != [] { JobMessagesLength(b, jobs[..|jobs| - 1], ids); }
  }

  /**
   A dispatch pushes Before's bare message first, if there is one, and then one message for each job in order: on the
   job's own queue or else the batch's, in an envelope that names the batch and that job's id.
   */
  lemma DispatchPushes(b: Batch, jobs: seq<Step>, ids: seq<string>)
    requires |jobs| <= |ids|
    ensures var o, all := b.options, DispatchMessages(b, jobs, ids);
            var first := BareIf(true, o, o.before);
            && |all| == |first| + |jobs| && first <= all
            && forall i :: 0 <= i < |jobs| ==>
                 var j := jobs[i];
                 all[|first| + i] == Message(if j.queue != "" then j.queue else o.queue, j.name,
                                             Enveloped(b.id, ids[i], [], NO_STEP, j.payload))
  {
    JobMessagesLength(b, jobs, ids);
    var first := BeforeMessages(b);
    forall i | 0 <= i < |jobs| ensures DispatchMessages(b, jobs, ids)[|first| + i] == JobMessages(b, jobs, ids)[i] {}
  }
}
