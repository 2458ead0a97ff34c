/**
 A worker that reports every job it ran, the job that dispatches a nested batch too: what becomes of the order
 of a chain, over every run.
 */
module ChainReports {
  import opened Batches
  import opened Queues
  import opened BatchMemory
  import opened Chains
  import opened ChainRuns
  import opened ChainOrder
  import Keys

  // --------------------------------------------------------------- the worker

  /** The handler of a nested batch fails on one without jobs or with a job without a name. */
  predicate Opens(b: Member, how: Work) {
    Dispatchable(b.body) && |b.body.jobs| <= |how.ids|
  }

  /** The handler first, then the report. */
  function WorkedAll(w: World, tenant: string, m: Message, how: Work, inside: bool): World {
    var b := Batched(m.payload);
    if m.name != CHAINED_BATCH then Reported(w, tenant, b, how.ok, how.now)
    else Reported(Opened(w, tenant, b, how.id, how.ids, inside), tenant, b, Opens(b, how), how.now)
  }

  function NextAll(w: World, tenant: string, a: Action): World {
    match a
    case TakeLink(k, how) =>
      if k >= |w.links| then w else WorkedAll(LinkOut(w, k, how), tenant, w.links[k], how, false)
    case TakeJob(k, how) =>
      if k >= |w.jobs| then w else WorkedAll(w.(jobs := Drop(w.jobs, k)), tenant, w.jobs[k], how, true)
    case TakeInner(k, how) =>
      if k >= |w.inner| then w else WorkedAll(w.(inner := Drop(w.inner, k)), tenant, w.inner[k], how, true)
    case TakeOther(k, how) =>
      if k >= |w.others| then w else WorkedAll(w.(others := Drop(w.others, k)), tenant, w.others[k], how, true)
  }

  function ExecAll(w: World, tenant: string, actions: seq<Action>): World {
    if actions == [] then w
    else NextAll(ExecAll(w, tenant, actions[..|actions| - 1]), tenant, actions[|actions| - 1])
  }

  ghost predicate DrawnAll(w: World, tenant: string, actions: seq<Action>) {
    forall i :: 0 <= i < |actions| ==> Drawn(ExecAll(w, tenant, actions[..i]), tenant, actions[i])
  }

  lemma DrawnAllInit(w: World, tenant: string, actions: seq<Action>)
    requires DrawnAll(w, tenant, actions) && actions != []
    ensures var init := actions[..|actions| - 1];
            DrawnAll(w, tenant, init) && Drawn(ExecAll(w, tenant, init), tenant, actions[|actions| - 1])
  {
    var init := actions[..|actions| - 1];
    assert forall i :: 0 <= i < |init| ==> init[..i] == actions[..i];
  }

  /** At most one link outstanding, and none beside the jobs of a batch. */
  predicate InOrder(w: World) {
    |w.links| <= 1 && (w.links == [] || w.jobs == w.inner == [])
  }

  /** Whatever order the messages are taken in. */
  ghost predicate AlwaysInOrder(tenant: string, chain: seq<Step>, c: Step)
    requires chain != []
  {
    forall actions | DrawnAll(Dispatched(chain, c), tenant, actions) ::
      InOrder(ExecAll(Dispatched(chain, c), tenant, actions))
  }

  /** Every link but the last is plain. */
  ghost predicate PlainBefore(chain: seq<Step>) {
    forall i :: 0 <= i < |chain| - 1 ==> PlainLink(chain[i])
  }

  // ------------------------------------------------- after the last link

  /** Jobs of batches whose callbacks are all ordinary jobs, and no link to come. */
  ghost predicate Closing(w: World, tenant: string) {
    && w.links == [] && AllBare(w.others)
    && InnerFine(w.jobs, w.rows, tenant, "") && InnerFine(w.inner, w.rows, tenant, "")
  }

  lemma ClosingAfter(w: World, w': World, tenant: string)
    requires Closing(w, tenant) && w'.links == [] && AllBare(w'.others) && Grows(w.rows, w'.rows)
    requires w'.jobs == w.jobs && w'.inner == w.inner
    ensures Closing(w', tenant)
  {
    InnerKept(w.jobs, w.rows, w'.rows, tenant, "");
    InnerKept(w.inner, w.rows, w'.rows, tenant, "");
  }

  /** A report of such a job, once it has left the queue. */
  lemma ReportCloses(w: World, tenant: string, m: Message, ok: bool, now: int)
    requires Keys.ValidTenant(tenant) && Closing(w, tenant) && InnerJob(m, w.rows, tenant, "")
    ensures Closing(Reported(w, tenant, Batched(m.payload), ok, now), tenant)
  {
    var b := Batched(m.payload);
    InnerReports(w.rows, tenant, m, "", ok, now);
    ReportedIs(w, tenant, b, ok, now, []);
    ReportGrows(w.rows, tenant, b, ok, now);
    ClosingAfter(w, Reported(w, tenant, b, ok, now), tenant);
  }

  lemma JobStays(rows: map<string, Batch>, rows': map<string, Batch>, tenant: string, m: Message)
    requires InnerJob(m, rows, tenant, "") && Grows(rows, rows')
    ensures InnerJob(m, rows', tenant, "")
  {
  }

  /** And what a worker makes of it, a batch again or not. */
  lemma WorkCloses(w: World, tenant: string, m: Message, how: Work)
    requires Keys.ValidTenant(tenant) && Closing(w, tenant) && InnerJob(m, w.rows, tenant, "") && Enough(m, how.ids)
    requires how.id != "" && RowKey(tenant, how.id) !in w.rows
    requires forall i :: 0 <= i < |how.ids| ==> how.ids[i] != ""
    requires forall i, j :: 0 <= i < j < |how.ids| ==> how.ids[i] != how.ids[j]
    ensures Closing(WorkedAll(w, tenant, m, how, true), tenant)
  {
    var b := Batched(m.payload);
    if m.name != CHAINED_BATCH {
      ReportCloses(w, tenant, m, how.ok, how.now);
    } else {
      OpensInside(w, tenant, m, "", how);
      var begun := Opened(w, tenant, b, how.id, how.ids, true);
      InnerKept(w.jobs, w.rows, begun.rows, tenant, "");
      JobStays(w.rows, begun.rows, tenant, m);
      ReportCloses(begun, tenant, m, Opens(b, how), how.now);
    }
  }

  lemma ClosingDrops(w: World, tenant: string, k: nat)
    requires Closing(w, tenant)
    ensures k < |w.jobs| ==> Closing(w.(jobs := Drop(w.jobs, k)), tenant) && InnerJob(w.jobs[k], w.rows, tenant, "")
    ensures k < |w.inner| ==> Closing(w.(inner := Drop(w.inner, k)), tenant) && InnerJob(w.inner[k], w.rows, tenant, "")
  {
    if k < |w.jobs| { InnerDrops(w.jobs, w.rows, tenant, "", k); }
    if k < |w.inner| { InnerDrops(w.inner, w.rows, tenant, "", k); }
  }

  lemma OtherAll(w: World, tenant: string, k: nat, how: Work)
    requires k < |w.others| && Bare(w.others[k])
    ensures NextAll(w, tenant, TakeOther(k, how)) == w.(others := Drop(w.others, k))
  {
    OtherStep(w, tenant, k, how);
  }

  lemma ClosingKeeps(w: World, tenant: string, a: Action)
    requires Keys.ValidTenant(tenant) && Closing(w, tenant) && Drawn(w, tenant, a)
    ensures Closing(NextAll(w, tenant, a), tenant)
  {
    ClosingDrops(w, tenant, a.k);
    match a {
      case TakeLink(_, _) =>
      case TakeJob(k, how) => if k < |w.jobs| { WorkCloses(w.(jobs := Drop(w.jobs, k)), tenant, w.jobs[k], how); }
      case TakeInner(k, how) => if k < |w.inner| { WorkCloses(w.(inner := Drop(w.inner, k)), tenant, w.inner[k], how); }
      case TakeOther(k, how) =>
        if k < |w.others| {
          OtherAll(w, tenant, k, how);
          BareDrops(w.others, k);
        }
    }
  }

  // ---------------------------------------------------------------- the links

  lemma PlainAlike(w: World, tenant: string, chain: seq<Step>, c: Step, how: Work)
    requires Waits(w, chain, c) && PlainLink(chain[|w.ran|])
    ensures NextAll(w, tenant, TakeLink(0, how)) == Next(w, tenant, TakeLink(0, how))
  {
  }

  /** A link without a batch of its own, reported with nothing to follow, changes nothing. */
  lemma NothingFollows(w: World, tenant: string, b: Member, now: int)
    requires b.batch == "" && b.chain == []
    ensures Reported(w, tenant, b, true, now) == w
  {
    assert ReportMessages(w.rows, tenant, b, true) + Follow(b, true) == [];
    assert w.told + TellingOf(w, tenant, b, true) == w.told;
    ArriveNone(w, true);
  }

  lemma LastAlike(w: World, tenant: string, chain: seq<Step>, c: Step, how: Work)
    requires Waits(w, chain, c) && |w.ran| == |chain| - 1 && NestedLink(chain[|w.ran|])
    requires |chain[|w.ran|].payload.jobs| <= |how.ids|
    ensures NextAll(w, tenant, TakeLink(0, how)) == Next(w, tenant, TakeLink(0, how))
  {
    var b := Batched(LinkAt(chain, c, |w.ran|).payload);
    assert b.chain == [];
    NothingFollows(Opened(LinkOut(w, 0, how), tenant, b, how.id, how.ids, false), tenant, b, how.now);
  }

  lemma LastCloses(w: World, tenant: string, chain: seq<Step>, c: Step, how: Work)
    requires Waits(w, chain, c) && Described(chain, c) && |w.ran| == |chain| - 1 && NestedLink(chain[|w.ran|])
    requires Drawn(w, tenant, TakeLink(0, how))
    ensures Closing(NextAll(w, tenant, TakeLink(0, how)), tenant)
  {
    var n := |w.ran|;
    var row, jobs := RowAt(tenant, chain, c, n, how.id), chain[n].payload.jobs;
    LastAlike(w, tenant, chain, c, how);
    NestedStep(w, tenant, chain, c, how);
    NestedCallbacks(chain, c, n);
    BeforeKinds(row);
    BareJoins(w.others, BeforeMessages(row));
    FreshlyBusy(row, jobs, how.ids, w.rows[RowKey(tenant, how.id) := row], tenant);
    OwnJobs(JobMessages(row, jobs, how.ids), w.rows[RowKey(tenant, how.id) := row], tenant, how.id, row.options);
  }

  lemma OwnJobs(jobs: seq<Message>, rows: map<string, Batch>, tenant: string, id: string, o: Options)
    requires Busy(jobs, rows, tenant, id, o, 0) && BareBesideFinally(o) && BareStep(o.onFinally)
    ensures InnerFine(jobs, rows, tenant, "")
  {
    forall k: Callback ensures BareStep(CallbackStep(o, k)) {}
  }

  // --------------------------------------------------------------- the order

  /** The next link waits alone, or none will come any more. */
  ghost predicate Orderly(w: World, tenant: string, chain: seq<Step>, c: Step) {
    Waits(w, chain, c) || Closing(w, tenant)
  }

  lemma OverCloses(w: World, tenant: string, chain: seq<Step>, c: Step)
    requires Over(w, chain, c)
    ensures Closing(w, tenant)
  {
  }

  lemma WaitsOther(w: World, tenant: string, chain: seq<Step>, c: Step, k: nat, how: Work)
    requires Waits(w, chain, c) && k < |w.others|
    ensures Waits(NextAll(w, tenant, TakeOther(k, how)), chain, c)
  {
    OtherAll(w, tenant, k, how);
    BareDrops(w.others, k);
  }

  lemma LinkAll(w: World, tenant: string, chain: seq<Step>, c: Step, how: Work)
    requires Waits(w, chain, c) && Described(chain, c) && PlainBefore(chain) && Drawn(w, tenant, TakeLink(0, how))
    ensures Orderly(NextAll(w, tenant, TakeLink(0, how)), tenant, chain, c)
  {
    assert chain[|w.ran|] in chain;
    if PlainLink(chain[|w.ran|]) {
      PlainAlike(w, tenant, chain, c, how);
      PlainKeeps(w, tenant, chain, c, how);
      if Over(Next(w, tenant, TakeLink(0, how)), chain, c) {
        OverCloses(Next(w, tenant, TakeLink(0, how)), tenant, chain, c);
      }
    } else {
      LastCloses(w, tenant, chain, c, how);
    }
  }

  lemma OrderlyNext(w: World, tenant: string, chain: seq<Step>, c: Step, a: Action)
    requires Keys.ValidTenant(tenant) && Described(chain, c) && PlainBefore(chain)
    requires Orderly(w, tenant, chain, c) && Drawn(w, tenant, a)
    ensures Orderly(NextAll(w, tenant, a), tenant, chain, c)
  {
    if Closing(w, tenant) {
      ClosingKeeps(w, tenant, a);
    } else if a.TakeLink? && a.k < |w.links| {
      LinkAll(w, tenant, chain, c, a.how);
    } else if a.TakeOther? && a.k < |w.others| {
      WaitsOther(w, tenant, chain, c, a.k, a.how);
    } else {
      assert NextAll(w, tenant, a) == w;
    }
  }

  lemma {:induction false} OrderlyAlways(tenant: string, chain: seq<Step>, c: Step, actions: seq<Action>)
    requires Keys.ValidTenant(tenant) && Described(chain, c) && PlainBefore(chain)
    requires DrawnAll(Dispatched(chain, c), tenant, actions)
    ensures Orderly(ExecAll(Dispatched(chain, c), tenant, actions), tenant, chain, c)
  {
    if actions == [] {
      assert Waits(Dispatched(chain, c), chain, c);
    } else {
      DrawnAllInit(Dispatched(chain, c), tenant, actions);
      OrderlyAlways(tenant, chain, c, actions[..|actions| - 1]);
      OrderlyNext(ExecAll(Dispatched(chain, c), tenant, actions[..|actions| - 1]), tenant, chain, c,
                  actions[|actions| - 1]);
    }
  }

  // --------------------------------------------------- a batch before the last

  function Name(n: nat): string {
    if n == 0 then "i" else Name(n - 1) + "i"
  }

  lemma {:induction false} NamesDiffer(n: nat)
    ensures |Name(n)| == n + 1
  {
    if n > 0 { NamesDiffer(n - 1); }
  }

  /** Ids for so many jobs, and one for the batch. */
  function Draw(n: nat): Work {
    Work(true, "batch", seq(n, i requires 0 <= i < n => Name(i)), 0)
  }

  lemma DrawIsNew(n: nat)
    ensures forall i :: 0 <= i < n ==> Draw(n).ids[i] != ""
    ensures forall i, j :: 0 <= i < j < n ==> Draw(n).ids[i] != Draw(n).ids[j]
  {
    forall i | 0 <= i < n ensures |Draw(n).ids[i]| == i + 1 { NamesDiffer(i); }
  }

  lemma DrawIsDrawn(w: World, tenant: string, chain: seq<Step>, c: Step)
    requires Waits(w, chain, c) && w.rows == map[]
    ensures var n := if chain[|w.ran|].payload.Nested? then |chain[|w.ran|].payload.jobs| else 0;
            Drawn(w, tenant, TakeLink(0, Draw(n)))
  {
    var n := if chain[|w.ran|].payload.Nested? then |chain[|w.ran|].payload.jobs| else 0;
    DrawIsNew(n);
  }

  lemma DrawnOneMore(w: World, tenant: string, actions: seq<Action>, a: Action)
    requires DrawnAll(w, tenant, actions) && Drawn(ExecAll(w, tenant, actions), tenant, a)
    ensures DrawnAll(w, tenant, actions + [a])
    ensures ExecAll(w, tenant, actions + [a]) == NextAll(ExecAll(w, tenant, actions), tenant, a)
  {
    assert (actions + [a])[..|actions|] == actions;
    assert forall i :: 0 <= i < |actions| ==> (actions + [a])[..i] == actions[..i];
  }

  /** A run up to link k, all before it plain. */
  lemma {:induction false} RunUpTo(tenant: string, chain: seq<Step>, c: Step, k: nat) returns (actions: seq<Action>)
    requires Described(chain, c) && k < |chain| && forall i :: 0 <= i < k ==> PlainLink(chain[i])
    ensures DrawnAll(Dispatched(chain, c), tenant, actions)
    ensures var w := ExecAll(Dispatched(chain, c), tenant, actions);
            Waits(w, chain, c) && |w.ran| == k && w.rows == map[]
  {
    if k == 0 {
      actions := [];
      assert Waits(Dispatched(chain, c), chain, c);
    } else {
      var before := RunUpTo(tenant, chain, c, k - 1);
      var w := ExecAll(Dispatched(chain, c), tenant, before);
      var a := NextPlain(w, tenant, chain, c);
      DrawnOneMore(Dispatched(chain, c), tenant, before, a);
      actions := before + [a];
    }
  }

  lemma NextPlain(w: World, tenant: string, chain: seq<Step>, c: Step) returns (a: Action)
    requires Described(chain, c) && Waits(w, chain, c) && w.rows == map[] && |w.ran| + 1 < |chain|
    requires PlainLink(chain[|w.ran|])
    ensures Drawn(w, tenant, a)
    ensures var w' := NextAll(w, tenant, a); Waits(w', chain, c) && |w'.ran| == |w.ran| + 1 && w'.rows == map[]
  {
    var n := if chain[|w.ran|].payload.Nested? then |chain[|w.ran|].payload.jobs| else 0;
    a := TakeLink(0, Draw(n));
    DrawIsDrawn(w, tenant, chain, c);
    PlainAlike(w, tenant, chain, c, Draw(n));
    PlainMoves(w, tenant, chain, c, Draw(n));
    PlainWaits(w, Next(w, tenant, a), chain, c);
  }

  /** Taking a batch that is not the last link leaves its jobs and the next link outstanding together. */
  lemma RunsAheadAll(w: World, tenant: string, chain: seq<Step>, c: Step, how: Work)
    requires Waits(w, chain, c) && Described(chain, c) && NestedLink(chain[|w.ran|]) && |w.ran| + 1 < |chain|
    requires Drawn(w, tenant, TakeLink(0, how))
    ensures !InOrder(NextAll(w, tenant, TakeLink(0, how)))
  {
    ReportedBatchRunsAhead(w, tenant, chain, c, how);
  }

  /**
   Under a worker that reports every job it ran, whatever order messages are taken in, at most one link is
   outstanding and none beside the jobs of a batch, if and only if no link before the last is a batch. Batches
   inside the last one make no difference.
   */
  lemma InOrderExactly(tenant: string, chain: seq<Step>, c: Step)
    requires Keys.ValidTenant(tenant) && Described(chain, c)
    ensures AlwaysInOrder(tenant, chain, c) <==> PlainBefore(chain)
  {
    if PlainBefore(chain) {
      forall actions | DrawnAll(Dispatched(chain, c), tenant, actions)
        ensures InOrder(ExecAll(Dispatched(chain, c), tenant, actions))
      {
        OrderlyAlways(tenant, chain, c, actions);
      }
    } else {
      var actions := RunOutOfOrder(tenant, chain, c);
    }
  }

  lemma FirstBatch(chain: seq<Step>, c: Step) returns (k: nat)
    requires Described(chain, c) && !PlainBefore(chain)
    ensures k + 1 < |chain| && NestedLink(chain[k]) && forall i :: 0 <= i < k ==> PlainLink(chain[i])
  {
    k := 0;
    while PlainLink(chain[k])
      invariant k + 1 < |chain| && forall i :: 0 <= i < k ==> PlainLink(chain[i])
      decreases |chain| - k
    {
      k := k + 1;
    }
    assert chain[k] in chain;
  }

  lemma RunOutOfOrder(tenant: string, chain: seq<Step>, c: Step) returns (actions: seq<Action>)
    requires Described(chain, c) && !PlainBefore(chain)
    ensures DrawnAll(Dispatched(chain, c), tenant, actions) && !InOrder(ExecAll(Dispatched(chain, c), tenant, actions))
  {
    var k := FirstBatch(chain, c);
    var before := RunUpTo(tenant, chain, c, k);
    var w := ExecAll(Dispatched(chain, c), tenant, before);
    var how := Draw(|chain[k].payload.jobs|);
    DrawIsDrawn(w, tenant, chain, c);
    RunsAheadAll(w, tenant, chain, c, how);
    DrawnOneMore(Dispatched(chain, c), tenant, before, TakeLink(0, how));
    actions := before + [TakeLink(0, how)];
  }
}
