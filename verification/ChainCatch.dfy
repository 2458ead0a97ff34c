/**
 Failures inside the batches of a chain, over every run: each batch's Catch is pushed by the first of its
 jobs that fails, once, and by nothing else.
 */
module ChainCatch {
  import opened Batches
  import opened Queues
  import opened BatchMemory
  import opened BatchCallbacks
  import opened Chains
  import opened ChainRuns
  import opened ChainOrder
  import Keys

  // ------------------------------------------------------- reports to one batch

  /** How many of these reports told this batch of a failure. */
  function Fails(told: seq<Telling>, id: string): nat {
    if told == [] then 0
    else Fails(told[..|told| - 1], id) + One(told[|told| - 1].batch == id && !told[|told| - 1].ok)
  }

  /** How many Catches the reports to this batch called for. */
  function Catches(told: seq<Telling>, id: string): nat {
    if told == [] then 0
    else
      var x := told[|told| - 1];
      Catches(told[..|told| - 1], id) + if x.batch == id then Occurs(x.effects, Push(Catch)) else 0
  }

  lemma OneMoreTold(told: seq<Telling>, x: Telling, id: string)
    ensures Fails(told + [x], id) == Fails(told, id) + One(x.batch == id && !x.ok)
    ensures Catches(told + [x], id) == Catches(told, id) + if x.batch == id then Occurs(x.effects, Push(Catch)) else 0
  {
    assert (told + [x])[..|told|] == told;
  }

  /** What a report called for is in the log where it was made, and Catch is in it if it is the first failure. */
  ghost predicate Answered(told: seq<Telling>, t: nat, log: seq<Message>, o: Options)
    requires t < |told|
  {
    var x := told[t];
    var pushed := Pushed(o, x.effects);
    && Occurs(x.effects, Push(Catch)) == One(o.onCatch.Declared() && !x.ok && Fails(told[..t], x.batch) == 0)
    && x.from + |pushed| <= |log| && log[x.from..x.from + |pushed|] == pushed
  }

  /** The reports to batch `id` so far: counted by its row, and its Catch called for once if one was a failure. */
  ghost predicate Recorded(told: seq<Telling>, log: seq<Message>, row: Batch, id: string, o: Options) {
    && row.options == o && row.failed == Fails(told, id)
    && Catches(told, id) == One(o.onCatch.Declared() && 0 < Fails(told, id))
    && forall t :: 0 <= t < |told| && told[t].batch == id ==> Answered(told, t, log, o)
  }

  lemma StillAnswered(told: seq<Telling>, x: Telling, t: nat, log: seq<Message>, log': seq<Message>, o: Options)
    requires t < |told| && Answered(told, t, log, o) && log <= log'
    ensures Answered(told + [x], t, log', o)
  {
    assert (told + [x])[..t] == told[..t];
    var n := |Pushed(o, told[t].effects)|;
    assert log'[told[t].from..told[t].from + n] == log[told[t].from..told[t].from + n];
  }

  lemma LogGrows(told: seq<Telling>, log: seq<Message>, log': seq<Message>, row: Batch, id: string, o: Options)
    requires Recorded(told, log, row, id, o) && log <= log'
    ensures Recorded(told, log', row, id, o)
  {
    forall t | 0 <= t < |told| && told[t].batch == id ensures Answered(told, t, log', o) {
      assert Answered(told, t, log, o);
      var from, n := told[t].from, |Pushed(o, told[t].effects)|;
      assert log'[from..from + n] == log[from..from + n];
    }
  }

  /** A report to another batch. */
  lemma ToldElsewhere(told: seq<Telling>, x: Telling, log: seq<Message>, log': seq<Message>, row: Batch, id: string,
                      o: Options)
    requires Recorded(told, log, row, id, o) && x.batch != id && log <= log'
    ensures Recorded(told + [x], log', row, id, o)
  {
    OneMoreTold(told, x, id);
    forall t | 0 <= t < |told + [x]| && (told + [x])[t].batch == id ensures Answered(told + [x], t, log', o) {
      StillAnswered(told, x, t, log, log', o);
    }
  }

  /** A report to this batch. */
  lemma ToldHere(told: seq<Telling>, x: Telling, log: seq<Message>, row: Batch, row': Batch, id: string, o: Options,
                 r: Report, c: Counts)
    requires Recorded(told, log, row, id, o) && x.batch == id && x.from == |log|
    requires x.effects == Effects(r, c) && r.Failure? == !x.ok && c.batch.options == o
    requires c.failed == row.failed + One(!x.ok) == row'.failed && row'.options == o
    ensures Recorded(told + [x], log + Pushed(o, x.effects), row', id, o)
  {
    var log' := log + Pushed(o, x.effects);
    OneMoreTold(told, x, id);
    ReportAsks(r, c, Push(Catch));
    forall t | 0 <= t < |told + [x]| && (told + [x])[t].batch == id ensures Answered(told + [x], t, log', o) {
      if t < |told| {
        StillAnswered(told, x, t, log, log', o);
      } else {
        assert (told + [x])[..t] == told;
        assert log'[|log|..|log| + |Pushed(o, x.effects)|] == Pushed(o, x.effects);
      }
    }
  }

  // ------------------------------------------------------------- one step

  /** A batch of the chain, taken: its row, nobody inside it answering to its id, and the reports to it. */
  ghost predicate Noted(w: World, tenant: string, id: string, o: Options) {
    && id != "" && RowKey(tenant, id) in w.rows && InnerFine(w.inner, w.rows, tenant, id)
    && Recorded(w.told, w.log, w.rows[RowKey(tenant, id)], id, o)
  }

  /** A step that reports to no batch. */
  lemma QuietKeeps(w: World, w': World, tenant: string, id: string, o: Options)
    requires Noted(w, tenant, id, o) && InnerFine(w'.inner, w'.rows, tenant, id) && w'.told == w.told && w.log <= w'.log
    requires RowKey(tenant, id) in w'.rows && w'.rows[RowKey(tenant, id)] == w.rows[RowKey(tenant, id)]
    ensures Noted(w', tenant, id, o)
  {
    LogGrows(w.told, w.log, w'.log, w.rows[RowKey(tenant, id)], id, o);
  }

  /** A step that reports to another batch. */
  lemma ElsewhereKeeps(w: World, w': World, tenant: string, id: string, o: Options, b: Member, ok: bool)
    requires Noted(w, tenant, id, o) && InnerFine(w'.inner, w'.rows, tenant, id) && b.batch != id
    requires w'.told == w.told + TellingOf(w, tenant, b, ok) && w.log <= w'.log
    requires RowKey(tenant, id) in w'.rows && w'.rows[RowKey(tenant, id)] == w.rows[RowKey(tenant, id)]
    ensures Noted(w', tenant, id, o)
  {
    var row := w.rows[RowKey(tenant, id)];
    if Chains.Reporting(w.rows, tenant, b) {
      ToldElsewhere(w.told, TellingOf(w, tenant, b, ok)[0], w.log, w'.log, row, id, o);
    } else {
      assert w'.told == w.told;
      LogGrows(w.told, w.log, w'.log, row, id, o);
    }
  }

  /** A job of this very batch reports. */
  lemma HereKeeps(w: World, w': World, tenant: string, id: string, o: Options, lost: nat, k: nat, how: Work)
    requires Keys.ValidTenant(tenant) && Noted(w, tenant, id, o) && k < |w.jobs|
    requires Busy(w.jobs, w.rows, tenant, id, o, lost)
    requires var b := Batched(w.jobs[k].payload);
             && w'.inner == w.inner && w'.rows == ReportRows(w.rows, tenant, b, how.ok, how.now)
             && w'.told == w.told + TellingOf(w, tenant, b, how.ok)
             && w'.log == w.log + ReportMessages(w.rows, tenant, b, how.ok)
    ensures Noted(w', tenant, id, o)
  {
    var b := Batched(w.jobs[k].payload);
    JobReports(w.jobs, w.rows, tenant, id, o, lost, k, how.ok, how.now);
    ReportGrows(w.rows, tenant, b, how.ok, how.now);
    InnerKept(w.inner, w.rows, w'.rows, tenant, id);
    var r, c := ReportOf(b, how.ok), CountsAfter(w.rows, tenant, b, how.ok);
    StampedKeeps(c.batch, Effects(r, c), how.now);
    ToldHere(w.told, TellingOf(w, tenant, b, how.ok)[0], w.log, w.rows[RowKey(tenant, id)], w'.rows[RowKey(tenant, id)],
             id, o, r, c);
  }

  lemma JobElsewhere(w: World, w': World, tenant: string, at: string, at_: Options, lost: nat, k: nat, how: Work,
                     id: string, o: Options)
    requires Keys.ValidTenant(tenant) && Busy(w.jobs, w.rows, tenant, at, at_, lost) && k < |w.jobs|
    requires at != id && Noted(w, tenant, id, o)
    requires var b := Batched(w.jobs[k].payload);
             && w'.inner == w.inner && w'.rows == ReportRows(w.rows, tenant, b, how.ok, how.now)
             && w'.told == w.told + TellingOf(w, tenant, b, how.ok)
             && w'.log == w.log + ReportMessages(w.rows, tenant, b, how.ok)
    ensures Noted(w', tenant, id, o)
  {
    var b := Batched(w.jobs[k].payload);
    RowKeysDiffer(tenant, at, id);
    ReportGrows(w.rows, tenant, b, how.ok, how.now);
    InnerKept(w.inner, w.rows, w'.rows, tenant, id);
    ElsewhereKeeps(w, w', tenant, id, o, b, how.ok);
  }

  /** A job of the batch at work reports, whichever batch that is. */
  lemma JobNoted(w: World, tenant: string, at: string, at_: Options, lost: nat, k: nat, how: Work, id: string,
                 o: Options)
    requires Keys.ValidTenant(tenant) && Busy(w.jobs, w.rows, tenant, at, at_, lost) && AllBare(w.others)
    requires k < |w.jobs| && w.jobs[k].name != CHAINED_BATCH && BareBesideFinally(at_)
    requires (IsLink(CallbackMessage(at_, at_.onFinally)) && at_.onFinally.Declared()) || BareStep(at_.onFinally)
    requires Noted(w, tenant, id, o)
    ensures Noted(Next(w, tenant, TakeJob(k, how)), tenant, id, o)
  {
    JobReported(w, tenant, at, at_, lost, k, how);
    if at == id {
      assert at_ == o;
      HereKeeps(w, Next(w, tenant, TakeJob(k, how)), tenant, id, o, lost, k, how);
    } else {
      JobElsewhere(w, Next(w, tenant, TakeJob(k, how)), tenant, at, at_, lost, k, how, id, o);
    }
  }

  /** A job that is a batch is taken. */
  lemma BatchNoted(w: World, tenant: string, at: string, at_: Options, lost: nat, k: nat, how: Work, id: string,
                   o: Options)
    requires Busy(w.jobs, w.rows, tenant, at, at_, lost) && AllBare(w.others) && Drawn(w, tenant, TakeJob(k, how))
    requires k < |w.jobs| && w.jobs[k].name == CHAINED_BATCH && Noted(w, tenant, id, o)
    ensures Noted(Next(w, tenant, TakeJob(k, how)), tenant, id, o)
  {
    OpensInside(w.(jobs := Drop(w.jobs, k)), tenant, w.jobs[k], id, how);
    QuietKeeps(w, Next(w, tenant, TakeJob(k, how)), tenant, id, o);
  }

  lemma InnerNoted(w: World, tenant: string, k: nat, how: Work, id: string, o: Options)
    requires Keys.ValidTenant(tenant) && AllBare(w.others) && Drawn(w, tenant, TakeInner(k, how)) && k < |w.inner|
    requires Noted(w, tenant, id, o)
    ensures Noted(Next(w, tenant, TakeInner(k, how)), tenant, id, o)
  {
    assert InnerJob(w.inner[k], w.rows, tenant, id);
    if w.inner[k].name == CHAINED_BATCH {
      InnerDrops(w.inner, w.rows, tenant, id, k);
      OpensInside(w.(inner := Drop(w.inner, k)), tenant, w.inner[k], id, how);
      QuietKeeps(w, Next(w, tenant, TakeInner(k, how)), tenant, id, o);
    } else {
      InnerReported(w, tenant, id, k, how);
      InnerReportedIs(w, tenant, id, k, how);
      ElsewhereKeeps(w, Next(w, tenant, TakeInner(k, how)), tenant, id, o, Batched(w.inner[k].payload), how.ok);
    }
  }

  /** The next link is taken. */
  lemma LinkNoted(w: World, tenant: string, chain: seq<Step>, c: Step, how: Work, id: string, o: Options)
    requires Waits(w, chain, c) && Described(chain, c) && Drawn(w, tenant, TakeLink(0, how)) && Noted(w, tenant, id, o)
    ensures Noted(Next(w, tenant, TakeLink(0, how)), tenant, id, o)
  {
    assert chain[|w.ran|] in chain;
    if PlainLink(chain[|w.ran|]) {
      PlainMoves(w, tenant, chain, c, how);
    } else {
      NestedStep(w, tenant, chain, c, how);
    }
    QuietKeeps(w, Next(w, tenant, TakeLink(0, how)), tenant, id, o);
  }

  lemma JobTaken(w: World, tenant: string, chain: seq<Step>, c: Step, at: string, lost: nat, k: nat, how: Work,
                 id: string, o: Options)
    requires Keys.ValidTenant(tenant) && Works(w, tenant, chain, c, at, lost) && Described(chain, c)
    requires k < |w.jobs| && Drawn(w, tenant, TakeJob(k, how)) && Noted(w, tenant, id, o)
    ensures Noted(Next(w, tenant, TakeJob(k, how)), tenant, id, o)
  {
    var n := |w.ran|;
    if w.jobs[k].name == CHAINED_BATCH {
      BatchNoted(w, tenant, at, OptionsAt(chain, c, n - 1), lost, k, how, id, o);
    } else {
      NestedCallbacks(chain, c, n - 1);
      if n < |chain| { NextAfterNested(chain, c, n - 1); }
      JobNoted(w, tenant, at, OptionsAt(chain, c, n - 1), lost, k, how, id, o);
    }
  }

  lemma StepNoted(w: World, tenant: string, chain: seq<Step>, c: Step, a: Action, id: string, o: Options)
    requires Keys.ValidTenant(tenant) && Inv(w, tenant, chain, c) && Described(chain, c) && Drawn(w, tenant, a)
    requires Noted(w, tenant, id, o)
    ensures Noted(Next(w, tenant, a), tenant, id, o)
  {
    OthersAreBare(w, tenant, chain, c);
    if a.TakeLink? && a.k < |w.links| {
      LinksAreWaiting(w, tenant, chain, c);
      LinkNoted(w, tenant, chain, c, a.how, id, o);
    } else if a.TakeJob? && a.k < |w.jobs| {
      var at, lost :| Works(w, tenant, chain, c, at, lost);
      JobTaken(w, tenant, chain, c, at, lost, a.k, a.how, id, o);
    } else if a.TakeInner? && a.k < |w.inner| {
      InnerNoted(w, tenant, a.k, a.how, id, o);
    } else if a.TakeOther? && a.k < |w.others| {
      OtherNoted(w, tenant, a.k, a.how, id, o);
    } else {
      assert Next(w, tenant, a) == w;
    }
  }

  lemma OtherNoted(w: World, tenant: string, k: nat, how: Work, id: string, o: Options)
    requires k < |w.others| && Bare(w.others[k]) && Noted(w, tenant, id, o)
    ensures Noted(Next(w, tenant, TakeOther(k, how)), tenant, id, o)
  {
    OtherStep(w, tenant, k, how);
    QuietKeeps(w, w.(others := Drop(w.others, k)), tenant, id, o);
  }

  // ------------------------------------------------------------ all the batches

  /** No report was made to a batch without a row. */
  ghost predicate Known(w: World, tenant: string) {
    forall t :: 0 <= t < |w.told| ==> RowKey(tenant, w.told[t].batch) in w.rows
  }

  lemma KnownReported(w: World, tenant: string, b: Member, ok: bool, now: int)
    requires Known(w, tenant)
    ensures Known(Reported(w, tenant, b, ok, now), tenant)
  {
    ReportGrows(w.rows, tenant, b, ok, now);
  }

  lemma KnownWorked(w: World, tenant: string, m: Message, how: Work, inside: bool)
    requires Known(w, tenant)
    ensures Known(Worked(w, tenant, m, how, inside), tenant)
  {
    if m.name != CHAINED_BATCH { KnownReported(w, tenant, Batched(m.payload), how.ok, how.now); }
  }

  lemma KnownKeeps(w: World, tenant: string, a: Action)
    requires Known(w, tenant)
    ensures Known(Next(w, tenant, a), tenant)
  {
    match a {
      case TakeLink(k, how) => if k < |w.links| { KnownWorked(LinkOut(w, k, how), tenant, w.links[k], how, false); }
      case TakeJob(k, how) =>
        if k < |w.jobs| { KnownWorked(w.(jobs := Drop(w.jobs, k)), tenant, w.jobs[k], how, true); }
      case TakeInner(k, how) =>
        if k < |w.inner| { KnownWorked(w.(inner := Drop(w.inner, k)), tenant, w.inner[k], how, true); }
      case TakeOther(k, how) =>
        if k < |w.others| { KnownWorked(w.(others := Drop(w.others, k)), tenant, w.others[k], how, true); }
    }
  }

  lemma {:induction false} NeverTold(told: seq<Telling>, id: string)
    requires forall t :: 0 <= t < |told| ==> told[t].batch != id
    ensures Fails(told, id) == 0 && Catches(told, id) == 0
  {
    if told != [] { NeverTold(told[..|told| - 1], id); }
  }

  /** Every batch taken is noted, under an id of its own; the jobs outstanding are of the last one. */
  ghost predicate AllNoted(w: World, tenant: string, chain: seq<Step>, c: Step) {
    && |w.ids| == |w.ran| <= |chain| && Distinct(w.ids) && JobsOfTheLast(w.jobs, w.ids)
    && forall i :: 0 <= i < |w.ids| ==> Placed(w, tenant, chain, c, i)
  }

  predicate Distinct(ids: seq<string>) {
    forall i, j :: 0 <= i < j < |ids| ==> ids[i] == "" || ids[i] != ids[j]
  }

  ghost predicate JobsOfTheLast(jobs: seq<Message>, ids: seq<string>) {
    forall m :: m in jobs ==> ids != [] && JobOf(m, ids[|ids| - 1])
  }

  ghost predicate Placed(w: World, tenant: string, chain: seq<Step>, c: Step, i: nat)
    requires i < |w.ids| <= |chain|
  {
    if chain[i].name == CHAINED_BATCH && chain[i].payload.Nested?
    then Noted(w, tenant, w.ids[i], OptionsAt(chain, c, i))
    else w.ids[i] == ""
  }

  predicate JobOf(m: Message, id: string) {
    m.payload.Enveloped? && m.payload.batch == id
  }

  lemma BesideLinks(w: World, tenant: string, a: Action)
    requires !a.TakeLink?
    ensures Next(w, tenant, a).ids == w.ids && Next(w, tenant, a).ran == w.ran
    ensures forall m :: m in Next(w, tenant, a).jobs ==> m in w.jobs
  {
    if a.TakeJob? && a.k < |w.jobs| { DroppedAreOthers(w.jobs, a.k); }
  }

  lemma BesideKeeps(w: World, w': World, tenant: string, chain: seq<Step>, c: Step)
    requires AllNoted(w, tenant, chain, c) && w'.ids == w.ids && w'.ran == w.ran
    requires forall m :: m in w'.jobs ==> m in w.jobs
    requires forall i :: 0 <= i < |w'.ids| ==> Placed(w', tenant, chain, c, i)
    ensures AllNoted(w', tenant, chain, c)
  {
    assert JobsOfTheLast(w'.jobs, w'.ids);
  }

  lemma DistinctGrows(ids: seq<string>, id: string)
    requires Distinct(ids) && (id == "" || id !in ids)
    ensures Distinct(ids + [id])
  {
    forall i, j | 0 <= i < j < |ids + [id]| ensures (ids + [id])[i] == "" || (ids + [id])[i] != (ids + [id])[j] {
      if j == |ids| { assert (ids + [id])[i] in ids; }
    }
  }

  lemma TakenKeeps(w: World, w': World, tenant: string, chain: seq<Step>, c: Step, id: string)
    requires AllNoted(w, tenant, chain, c) && |w.ids| < |chain| && w'.ids == w.ids + [id] && |w'.ran| == |w.ran| + 1
    requires (id == "" || id !in w.ids) && forall m :: m in w'.jobs ==> JobOf(m, id)
    requires forall i :: 0 <= i < |w'.ids| ==> Placed(w', tenant, chain, c, i)
    ensures AllNoted(w', tenant, chain, c)
  {
    DistinctGrows(w.ids, id);
    assert JobsOfTheLast(w'.jobs, w'.ids);
  }

  /** An id just drawn is none of those in use. */
  lemma DrawnIsNew(w: World, tenant: string, chain: seq<Step>, c: Step, id: string)
    requires AllNoted(w, tenant, chain, c) && id != "" && RowKey(tenant, id) !in w.rows
    ensures id !in w.ids
  {
    forall i | 0 <= i < |w.ids| ensures w.ids[i] != id {
      assert Placed(w, tenant, chain, c, i);
    }
  }

  /** A batch just taken. */
  lemma NewlyNoted(w: World, w': World, tenant: string, id: string, row: Batch)
    requires Known(w, tenant) && id != "" && RowKey(tenant, id) !in w.rows && w'.inner == [] && w'.told == w.told
    requires w'.rows == w.rows[RowKey(tenant, id) := row] && row.failed == 0
    ensures Noted(w', tenant, id, row.options)
  {
    NeverTold(w.told, id);
  }

  lemma NestedJobsOf(row: Batch, jobs: seq<Step>, ids: seq<string>)
    requires |jobs| <= |ids|
    ensures forall m :: m in JobMessages(row, jobs, ids) ==> JobOf(m, row.id)
  {
    JobMessagesLength(row, jobs, ids);
  }

  /** The batches taken before stay noted. */
  lemma PlacedKept(w: World, tenant: string, chain: seq<Step>, c: Step, a: Action, i: nat)
    requires Keys.ValidTenant(tenant) && Inv(w, tenant, chain, c) && Described(chain, c) && Drawn(w, tenant, a)
    requires i < |w.ids| <= |chain| && Placed(w, tenant, chain, c, i)
    requires w.ids <= Next(w, tenant, a).ids && |Next(w, tenant, a).ids| <= |chain|
    ensures Placed(Next(w, tenant, a), tenant, chain, c, i)
  {
    assert Next(w, tenant, a).ids[i] == w.ids[i];
    if chain[i].name == CHAINED_BATCH && chain[i].payload.Nested? {
      StepNoted(w, tenant, chain, c, a, w.ids[i], OptionsAt(chain, c, i));
    }
  }

  lemma PlainAllNoted(w: World, tenant: string, chain: seq<Step>, c: Step, how: Work)
    requires Keys.ValidTenant(tenant) && Waits(w, chain, c) && Described(chain, c) && Drawn(w, tenant, TakeLink(0, how))
    requires AllNoted(w, tenant, chain, c) && PlainLink(chain[|w.ran|])
    ensures AllNoted(Next(w, tenant, TakeLink(0, how)), tenant, chain, c)
  {
    PlainMoves(w, tenant, chain, c, how);
    forall i | 0 <= i < |w.ids| ensures Placed(Next(w, tenant, TakeLink(0, how)), tenant, chain, c, i) {
      PlacedKept(w, tenant, chain, c, TakeLink(0, how), i);
    }
    PlainTaken(w, Next(w, tenant, TakeLink(0, how)), tenant, chain, c);
  }

  lemma PlainTaken(w: World, w': World, tenant: string, chain: seq<Step>, c: Step)
    requires AllNoted(w, tenant, chain, c) && |w.ran| < |chain| && PlainLink(chain[|w.ran|])
    requires w'.ids == w.ids + [""] && |w'.ran| == |w.ran| + 1 && w'.jobs == []
    requires forall i :: 0 <= i < |w.ids| ==> Placed(w', tenant, chain, c, i)
    ensures AllNoted(w', tenant, chain, c)
  {
    TakenKeeps(w, w', tenant, chain, c, "");
  }

  lemma NestedPlaced(w: World, w': World, tenant: string, chain: seq<Step>, c: Step, id: string)
    requires AllNoted(w, tenant, chain, c) && Known(w, tenant) && |w.ran| < |chain| && NestedLink(chain[|w.ran|])
    requires id != "" && RowKey(tenant, id) !in w.rows
    requires w'.ids == w.ids + [id] && w'.inner == [] && w'.told == w.told
    requires w'.rows == w.rows[RowKey(tenant, id) := RowAt(tenant, chain, c, |w.ran|, id)]
    ensures Placed(w', tenant, chain, c, |w.ran|)
  {
    NewlyNoted(w, w', tenant, id, RowAt(tenant, chain, c, |w.ran|, id));
  }

  lemma NestedAllNoted(w: World, tenant: string, chain: seq<Step>, c: Step, how: Work)
    requires Keys.ValidTenant(tenant) && Waits(w, chain, c) && Described(chain, c) && Drawn(w, tenant, TakeLink(0, how))
    requires AllNoted(w, tenant, chain, c) && Known(w, tenant) && NestedLink(chain[|w.ran|])
    ensures AllNoted(Next(w, tenant, TakeLink(0, how)), tenant, chain, c)
  {
    NestedStep(w, tenant, chain, c, how);
    forall i | 0 <= i < |w.ids| ensures Placed(Next(w, tenant, TakeLink(0, how)), tenant, chain, c, i) {
      PlacedKept(w, tenant, chain, c, TakeLink(0, how), i);
    }
    NestedTaken(w, Next(w, tenant, TakeLink(0, how)), tenant, chain, c, how);
  }

  lemma NestedTaken(w: World, w': World, tenant: string, chain: seq<Step>, c: Step, how: Work)
    requires AllNoted(w, tenant, chain, c) && Known(w, tenant) && |w.ran| < |chain| && NestedLink(chain[|w.ran|])
    requires how.id != "" && RowKey(tenant, how.id) !in w.rows && |chain[|w.ran|].payload.jobs| <= |how.ids|
    requires w'.ids == w.ids + [how.id] && |w'.ran| == |w.ran| + 1 && w'.inner == [] && w'.told == w.told
    requires var row := RowAt(tenant, chain, c, |w.ran|, how.id);
             && w'.rows == w.rows[RowKey(tenant, how.id) := row]
             && w'.jobs == JobMessages(row, chain[|w.ran|].payload.jobs, how.ids)
    requires forall i :: 0 <= i < |w.ids| ==> Placed(w', tenant, chain, c, i)
    ensures AllNoted(w', tenant, chain, c)
  {
    NestedPlaced(w, w', tenant, chain, c, how.id);
    DrawnIsNew(w, tenant, chain, c, how.id);
    NestedJobsOf(RowAt(tenant, chain, c, |w.ran|, how.id), chain[|w.ran|].payload.jobs, how.ids);
    TakenKeeps(w, w', tenant, chain, c, how.id);
  }

  lemma LinkAllNoted(w: World, tenant: string, chain: seq<Step>, c: Step, how: Work)
    requires Keys.ValidTenant(tenant) && Waits(w, chain, c) && Described(chain, c) && Drawn(w, tenant, TakeLink(0, how))
    requires AllNoted(w, tenant, chain, c) && Known(w, tenant)
    ensures AllNoted(Next(w, tenant, TakeLink(0, how)), tenant, chain, c)
  {
    assert chain[|w.ran|] in chain;
    if PlainLink(chain[|w.ran|]) {
      PlainAllNoted(w, tenant, chain, c, how);
    } else {
      NestedAllNoted(w, tenant, chain, c, how);
    }
  }

  lemma StepAllNoted(w: World, tenant: string, chain: seq<Step>, c: Step, a: Action)
    requires Keys.ValidTenant(tenant) && Inv(w, tenant, chain, c) && Described(chain, c) && Drawn(w, tenant, a)
    requires AllNoted(w, tenant, chain, c) && Known(w, tenant)
    ensures AllNoted(Next(w, tenant, a), tenant, chain, c)
  {
    if !a.TakeLink? {
      BesideLinks(w, tenant, a);
      forall i | 0 <= i < |w.ids| ensures Placed(Next(w, tenant, a), tenant, chain, c, i) {
        PlacedKept(w, tenant, chain, c, a, i);
      }
      BesideKeeps(w, Next(w, tenant, a), tenant, chain, c);
    } else if a.k < |w.links| {
      LinksAreWaiting(w, tenant, chain, c);
      LinkAllNoted(w, tenant, chain, c, a.how);
    }
  }

  // --------------------------------------------------------------- runs

  lemma {:induction false} AllNotedAlways(tenant: string, chain: seq<Step>, c: Step, actions: seq<Action>)
    requires Keys.ValidTenant(tenant) && Described(chain, c) && DrawnRun(Dispatched(chain, c), tenant, actions)
    ensures var w := Exec(Dispatched(chain, c), tenant, actions); Known(w, tenant) && AllNoted(w, tenant, chain, c)
  {
    if actions != [] {
      var init, last := actions[..|actions| - 1], actions[|actions| - 1];
      DrawnInit(Dispatched(chain, c), tenant, actions);
      AllNotedAlways(tenant, chain, c, init);
      OrderAlways(tenant, chain, c, init);
      KnownKeeps(Exec(Dispatched(chain, c), tenant, init), tenant, last);
      StepAllNoted(Exec(Dispatched(chain, c), tenant, init), tenant, chain, c, last);
    }
  }

  /** The Catch a batch answers to: its own, or the chain's where it has none. */
  function CatchAt(chain: seq<Step>, c: Step, i: nat): Step
    requires i < |chain| && chain[i].payload.Nested?
  {
    if chain[i].payload.options.onCatch.Declared() then chain[i].payload.options.onCatch else c
  }

  /**
   Of the batch that is link i, under the id it was given: its row counts the failures reported to it; the
   reports to it have called for Catch once if one of them was a failure and not at all otherwise; the one
   that did is the first failure; and the log holds what each called for, where it was made.
   */
  ghost predicate CaughtOnce(w: World, tenant: string, chain: seq<Step>, c: Step, i: nat)
    requires i < |chain| && chain[i].payload.Nested?
  {
    && i < |w.ids| && (forall j :: 0 <= j < |w.ids| && j != i ==> w.ids[j] != w.ids[i])
    && var id, o, caught := w.ids[i], OptionsAt(chain, c, i), CatchAt(chain, c, i);
    && RowKey(tenant, id) in w.rows && w.rows[RowKey(tenant, id)].failed == Fails(w.told, id)
    && Catches(w.told, id) == One(caught.Declared() && 0 < Fails(w.told, id))
    && (forall t :: 0 <= t < |w.told| && w.told[t].batch == id ==>
          && Occurs(w.told[t].effects, Push(Catch))
             == One(caught.Declared() && !w.told[t].ok && Fails(w.told[..t], id) == 0)
          && Holds(w.log, w.told[t].from, Pushed(o, w.told[t].effects)))
    && (caught.Declared() ==> CallbackStep(o, Catch) == caught)
  }

  /** These messages stand in the log from here on. */
  predicate Holds(log: seq<Message>, from: nat, ms: seq<Message>) {
    from + |ms| <= |log| && log[from..from + |ms|] == ms
  }

  lemma NotedMeans(w: World, tenant: string, chain: seq<Step>, c: Step, i: nat)
    requires AllNoted(w, tenant, chain, c) && i < |w.ids| && NestedLink(chain[i])
    ensures CaughtOnce(w, tenant, chain, c, i)
  {
    assert Placed(w, tenant, chain, c, i);
    var id, o := w.ids[i], OptionsAt(chain, c, i);
    forall t | 0 <= t < |w.told| && w.told[t].batch == id ensures Answered(w.told, t, w.log, o) {
    }
  }

  /**
   In every reachable state, of every batch of the chain that was taken: its Catch, or the chain's where it has
   none, was pushed once if one of its jobs has failed and never otherwise, by the first failing report.
   */
  lemma FirstFailureIsCaught(tenant: string, chain: seq<Step>, c: Step, actions: seq<Action>, i: nat)
    requires Keys.ValidTenant(tenant) && Described(chain, c) && DrawnRun(Dispatched(chain, c), tenant, actions)
    requires i < |Exec(Dispatched(chain, c), tenant, actions).ran| && i < |chain| && NestedLink(chain[i])
    ensures CaughtOnce(Exec(Dispatched(chain, c), tenant, actions), tenant, chain, c, i)
  {
    AllNotedAlways(tenant, chain, c, actions);
    NotedMeans(Exec(Dispatched(chain, c), tenant, actions), tenant, chain, c, i);
  }

  /** Every job of the batch at work that is taken, and is not a batch itself, makes one report to that batch. */
  lemma EveryJobIsTold(tenant: string, chain: seq<Step>, c: Step, actions: seq<Action>, k: nat, how: Work)
    requires Keys.ValidTenant(tenant) && Described(chain, c) && DrawnRun(Dispatched(chain, c), tenant, actions)
    requires var w := Exec(Dispatched(chain, c), tenant, actions); k < |w.jobs| && w.jobs[k].name != CHAINED_BATCH
    ensures var w := Exec(Dispatched(chain, c), tenant, actions);
            var told := Next(w, tenant, TakeJob(k, how)).told;
            && |told| == |w.told| + 1 && told[..|w.told|] == w.told && w.ids != []
            && told[|w.told|].batch == w.ids[|w.ids| - 1] && told[|w.told|].ok == how.ok
  {
    OrderAlways(tenant, chain, c, actions);
    AllNotedAlways(tenant, chain, c, actions);
    var w := Exec(Dispatched(chain, c), tenant, actions);
    var id, lost :| Works(w, tenant, chain, c, id, lost);
    JobTells(w, tenant, chain, c, id, lost, k, how);
  }

  lemma JobTells(w: World, tenant: string, chain: seq<Step>, c: Step, id: string, lost: nat, k: nat, how: Work)
    requires Keys.ValidTenant(tenant) && Works(w, tenant, chain, c, id, lost) && AllNoted(w, tenant, chain, c)
    requires k < |w.jobs| && w.jobs[k].name != CHAINED_BATCH
    ensures var told := Next(w, tenant, TakeJob(k, how)).told;
            && |told| == |w.told| + 1 && told[..|w.told|] == w.told && w.ids != []
            && told[|w.told|].batch == w.ids[|w.ids| - 1] && told[|w.told|].ok == how.ok
  {
    JobReports(w.jobs, w.rows, tenant, id, OptionsAt(chain, c, |w.ran| - 1), lost, k, how.ok, how.now);
    assert w.jobs[k] in w.jobs;
    assert Chains.Reporting(w.rows, tenant, Batched(w.jobs[k].payload));
  }
}
