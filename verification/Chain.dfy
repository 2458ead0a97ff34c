/**
 Chains: what a dispatch pushes, what the report of one link pushes next, and a batch that stands as
 one link of a chain.
 */
module Chains {
  import opened Batches
  import opened Queues
  import opened BatchMemory
  import Keys

  const CHAINED_BATCH: string := "bus.chained-batch"

  // --------------------------------------------------------- reading a job

  /** What a job belongs to, and its arguments. */
  datatype Member = Member(batch: string, job: string, chain: seq<Step>, chainCatch: Step, body: Payload)

  /** Batched: a payload without an envelope belongs to nothing and is its own body. */
  function Batched(p: Payload): Member {
    if p.Enveloped? then Member(p.batch, p.job, p.chain, p.chainCatch, p.body) else Member("", "", [], NO_STEP, p)
  }

  // ------------------------------------------------------ what a job pushes

  /** The first of these links, carrying the others. */
  function LinkMessage(chain: seq<Step>, chainCatch: Step): Message
    requires chain != []
  {
    Message(chain[0].queue, chain[0].name, Enveloped("", "", chain[1..], chainCatch, chain[0].payload))
  }

  function NextLink(m: Member): seq<Message> {
    if m.chain == [] then [] else [LinkMessage(m.chain, m.chainCatch)]
  }

  function CatchMessages(c: Step): seq<Message> {
    if c.Declared() then [Message(c.queue, c.name, c.payload)] else []
  }

  function Follow(m: Member, ok: bool): seq<Message> {
    if ok then NextLink(m) else CatchMessages(m.chainCatch)
  }

  function ReportOf(m: Member, ok: bool): Report {
    if ok then Success(m.job) else Failure(m.job)
  }

  predicate Reporting(rows: map<string, Batch>, tenant: string, m: Member) {
    m.batch != "" && Keys.ValidTenant(tenant) && RowKey(tenant, m.batch) in rows
  }

  /** The counters a report comes back with. */
  function CountsAfter(rows: map<string, Batch>, tenant: string, m: Member, ok: bool): Counts
    requires Reporting(rows, tenant, m)
  {
    CountsOf(Apply(rows[RowKey(tenant, m.batch)], ReportOf(m, ok)))
  }

  function ReportMessages(rows: map<string, Batch>, tenant: string, m: Member, ok: bool): seq<Message> {
    if !Reporting(rows, tenant, m) then []
    else
      var c := CountsAfter(rows, tenant, m, ok);
      Pushed(c.batch.options, Effects(ReportOf(m, ok), c))
  }

  function ReportRows(rows: map<string, Batch>, tenant: string, m: Member, ok: bool, now: int): map<string, Batch> {
    if !Reporting(rows, tenant, m) then rows
    else
      var c := CountsAfter(rows, tenant, m, ok);
      rows[RowKey(tenant, m.batch) := Stamped(c.batch, Effects(ReportOf(m, ok), c), now)]
  }

  // -------------------------------------------------------- a nested batch

  /** queueForChain: a link's own queue, or the one set for the rest of the chain. */
  function QueueForChain(s: Step, chainQueue: string): string {
    if s.queue != "" then s.queue else chainQueue
  }

  /** ToPendingBatch: the batch's own settings, and the chain's Catch where it has none. */
  function Unnested(n: Payload, chainCatch: Step): Options
    requires n.Nested?
  {
    var placed := n.options.(queue := if n.queue != "" then n.queue else n.options.queue,
                             connection := if n.connection != "" then n.connection else n.options.connection);
    if chainCatch.Declared() && !placed.onCatch.Declared() then placed.(onCatch := chainCatch) else placed
  }

  /** attachRemainderOfChainToEndOfBatch: the rest of the chain becomes Finally. */
  function PendingOptions(n: Payload, chain: seq<Step>, chainCatch: Step): Options
    requires n.Nested?
  {
    if chain == [] then Unnested(n, chainCatch)
    else Unnested(n, chainCatch).(onFinally := Step(QueueForChain(chain[0], n.chainQueue), chain[0].name,
                                                    LinkMessage(chain, chainCatch).payload))
  }

  predicate Dispatchable(n: Payload) {
    n.Nested? && n.jobs != [] && forall j :: j in n.jobs ==> j.Declared()
  }

  // --------------------------------------------------------------- methods

  function QueueFor(s: Step, queue: string): Step {
    if s.queue == "" then s.(queue := queue) else s
  }

  function Resolved(jobs: seq<Step>, queue: string): (links: seq<Step>)
    ensures |links| == |jobs| && forall i :: 0 <= i < |jobs| ==> links[i] == QueueFor(jobs[i], queue)
  {
    seq(|jobs|, i requires 0 <= i < |jobs| => QueueFor(jobs[i], queue))
  }

  /** The steps up to the first without a name. */
  function DeclaredPart(steps: seq<Step>): seq<Step> {
    if steps == [] || !steps[0].Declared() then [] else [steps[0]] + DeclaredPart(steps[1..])
  }

  lemma {:induction false} DeclaredPartAt(steps: seq<Step>, n: nat)
    requires n <= |steps| && (forall i :: 0 <= i < n ==> steps[i].Declared()) && (n < |steps| ==> !steps[n].Declared())
    ensures DeclaredPart(steps) == steps[..n]
  {
    if n > 0 {
      DeclaredPartAt(steps[1..], n - 1);
      assert steps[..n] == [steps[0]] + steps[1..][..n - 1];
    }
  }

  /**
   Every link of a dispatched chain is settled on its own queue or else the chain's, in its place and otherwise as
   it was given, and so is the step that is pushed when a link fails.
   */
  lemma ResolvedSettles(jobs: seq<Step>, onCatch: Step, queue: string, i: nat)
    requires i < |jobs|
    ensures var links, j := Resolved(jobs, queue), jobs[i];
            |links| == |jobs| && links[i] == Step(if j.queue != "" then j.queue else queue, j.name, j.payload)
    ensures CatchMessages(QueueFor(onCatch, queue))
         == if onCatch.name == "" then []
            else [Message(if onCatch.queue != "" then onCatch.queue else queue, onCatch.name, onCatch.payload)]
  {
  }

  /**
   The options a nested batch is dispatched with: its own queue and connection where it names them, the chain's Catch
   where it has none of its own, the rest of the chain as its Finally, and nothing else changed.
   */
  lemma NestedOptions(n: Payload, chain: seq<Step>, chainCatch: Step)
    requires n.Nested?
    ensures var o, p := n.options, PendingOptions(n, chain, chainCatch);
            && p.queue == (if n.queue != "" then n.queue else o.queue)
            && p.connection == (if n.connection != "" then n.connection else o.connection)
            && p.onCatch == (if o.onCatch.name == "" && chainCatch.name != "" then chainCatch else o.onCatch)
            && p == o.(queue := p.queue, connection := p.connection, onCatch := p.onCatch, onFinally := p.onFinally)
            && (chain == [] ==> p.onFinally == o.onFinally)
            && (chain != [] ==>
                  p.onFinally == Step(if chain[0].queue != "" then chain[0].queue else n.chainQueue, chain[0].name,
                                      Enveloped("", "", chain[1..], chainCatch, chain[0].payload)))
  {
  }

  class Chain {
    var queue: string
    var jobs: seq<Step>
    var onCatch: Step
    var broken: bool

    constructor ()
      ensures queue == "" && jobs == [] && onCatch == NO_STEP && !broken
    {
      queue, jobs, onCatch, broken := "", [], NO_STEP, false;
    }

    method AddStep(steps: seq<Step>)
      modifies this
      ensures jobs == old(jobs) + DeclaredPart(steps)
      ensures broken == (old(broken) || |DeclaredPart(steps)| < |steps|)
      ensures queue == old(queue) && onCatch == old(onCatch)
    {
      var i := 0;
      while i < |steps|
        invariant 0 <= i <= |steps| && jobs == old(jobs) + steps[..i]
        invariant forall k :: 0 <= k < i ==> steps[k].Declared()
        invariant queue == old(queue) && onCatch == old(onCatch) && broken == old(broken)
      {
        if !steps[i].Declared() {
          DeclaredPartAt(steps, i);
          broken := true;
          return;
        }
        jobs := jobs + [steps[i]];
        i := i + 1;
      }
      DeclaredPartAt(steps, i);
    }

    /** The queue of every link is settled here, and only the first link is pushed. */
    method Dispatch(q: Queue, tenant: string) returns (ok: bool)
      modifies q
      ensures broken || jobs == [] || !Keys.ValidTenant(tenant) ==> !ok && q.messages == old(q.messages)
      ensures !broken && jobs != [] && Keys.ValidTenant(tenant) ==>
                && ok == Goes(old(q.outcomes))
                && q.messages == old(q.messages)
                   + if ok then [LinkMessage(Resolved(jobs, queue), QueueFor(onCatch, queue))] else []
    {
      if broken || jobs == [] || !Keys.ValidTenant(tenant) {
        return false;
      }
      var links: seq<Step> := [];
      for i := 0 to |jobs|
        invariant |links| == i && forall k :: 0 <= k < i ==> links[k] == QueueFor(jobs[k], queue)
      {
        links := links + [QueueFor(jobs[i], queue)];
      }
      assert links == Resolved(jobs, queue);
      ok := q.Push(LinkMessage(links, QueueFor(onCatch, queue)));
    }
  }

  /** The first half of Handled: the report to the batch, if the job is of one. */
  method ReportToBatch(q: Queue, repository: Memory, tenant: string, m: Member, ok: bool, now: int)
    modifies q, repository
    ensures repository.batches == ReportRows(old(repository.batches), tenant, m, ok, now)
    ensures q.messages
         == old(q.messages) + Through(old(q.outcomes), ReportMessages(old(repository.batches), tenant, m, ok))
    ensures q.outcomes == Rest(old(q.outcomes), |ReportMessages(old(repository.batches), tenant, m, ok)|)
  {
    if m.batch != "" {
      var _ := repository.Record(q, tenant, m.batch, ReportOf(m, ok), now);
    }
  }

  /** Handled: the report to the batch, then the next link or the chain's Catch, whatever pushes before it failed. */
  method Handled(q: Queue, repository: Memory, tenant: string, m: Member, ok: bool, now: int)
    modifies q, repository
    ensures repository.batches == ReportRows(old(repository.batches), tenant, m, ok, now)
    ensures q.messages
         == old(q.messages)
          + Through(old(q.outcomes), ReportMessages(old(repository.batches), tenant, m, ok) + Follow(m, ok))
  {
    ThroughJoins(q.outcomes, ReportMessages(repository.batches, tenant, m, ok), Follow(m, ok));
    ReportToBatch(q, repository, tenant, m, ok, now);
    q.PushEach(Follow(m, ok));
  }

  /** DecodeChainedBatch and ChainedBatch.Handle. */
  method HandleNested(q: Queue, repository: Memory, tenant: string, payload: Payload, id: string, ids: seq<string>,
                      now: int)
    returns (ok: bool)
    requires var n := Batched(payload).body; n.Nested? ==> |n.jobs| <= |ids|
    modifies q, repository
    ensures var m := Batched(payload);
            if !Dispatchable(m.body) || !Keys.ValidTenant(tenant)
            then !ok && q.messages == old(q.messages) && repository.batches == old(repository.batches)
            else
              var b := NewBatch(id, tenant, |m.body.jobs|, PendingOptions(m.body, m.chain, m.chainCatch));
              var all := DispatchMessages(b, m.body.jobs, ids);
              && ok == (Until(old(q.outcomes), |all|) == |all|)
              && q.messages == old(q.messages) + Sent(old(q.outcomes), all)
              && repository.batches
                 == old(repository.batches)[RowKey(tenant, id) := if ok then b else Cancelled(b, now)]
  {
    var m := Batched(payload);
    if !Dispatchable(m.body) {
      return false;
    }
    var r := repository.Dispatch(q, tenant, id, m.body.jobs, PendingOptions(m.body, m.chain, m.chainCatch), ids, now);
    ok := r.Ok?;
  }
}
