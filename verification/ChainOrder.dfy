/**
 The order of a chain over every run: what is outstanding, what has run, and what has been pushed.
 */
module ChainOrder {
  import opened Batches
  import opened Queues
  import opened BatchMemory
  import opened Chains
  import opened ChainRuns
  import Keys

  // ------------------------------------------------------------ the invariant

  /** The links taken are the first of the chain, and all but the last taken went well. */
  ghost predicate Prefix(ran: seq<Message>, oks: seq<bool>, chain: seq<Step>, c: Step) {
    && |oks| == |ran| <= |chain|
    && (forall i :: 0 <= i < |ran| ==> ran[i] == LinkAt(chain, c, i))
    && (forall i :: 0 <= i < |ran| - 1 ==> oks[i])
  }

  predicate Well(oks: seq<bool>) {
    oks != [] ==> oks[|oks| - 1]
  }

  /** None of the first n links is a batch that holds a batch. */
  ghost predicate Passable(chain: seq<Step>, n: nat)
    requires n <= |chain|
  {
    forall i :: 0 <= i < n ==> !HoldsBatch(chain[i])
  }

  predicate HasBatchJob(jobs: seq<Message>) {
    exists i :: 0 <= i < |jobs| && jobs[i].name == CHAINED_BATCH
  }

  /** Jobs of batches other than this one, whose callbacks are all ordinary jobs. */
  ghost predicate InnerFine(inner: seq<Message>, rows: map<string, Batch>, tenant: string, id: string) {
    forall i :: 0 <= i < |inner| ==> InnerJob(inner[i], rows, tenant, id)
  }

  predicate InnerJob(m: Message, rows: map<string, Batch>, tenant: string, id: string) {
    && JobLike(m) && m.payload.batch != id
    && RowKey(tenant, m.payload.batch) in rows && BareOptions(rows[RowKey(tenant, m.payload.batch)].options)
  }

  /** The batch that is link n - 1 is at work, as `id`, with `lost` of its jobs gone that were batches. */
  ghost predicate Working(jobs: seq<Message>, inner: seq<Message>, rows: map<string, Batch>, tenant: string,
                          chain: seq<Step>, c: Step, n: nat, id: string, lost: nat) {
    && 0 < n <= |chain| && NestedLink(chain[n - 1]) && 0 < |jobs| + lost
    && Busy(jobs, rows, tenant, id, OptionsAt(chain, c, n - 1), lost)
    && InnerFine(inner, rows, tenant, id) && (lost == 0 ==> inner == [])
    && (HoldsBatch(chain[n - 1]) <==> lost > 0 || HasBatchJob(jobs))
  }

  ghost predicate AllBare(ms: seq<Message>) {
    forall i :: 0 <= i < |ms| ==> Bare(ms[i])
  }

  /** The next link waits, alone. */
  ghost predicate Waits(w: World, chain: seq<Step>, c: Step) {
    var n := |w.ran|;
    && Prefix(w.ran, w.oks, chain, c) && AllBare(w.others) && Well(w.oks)
    && n < |chain| && w.links == [LinkAt(chain, c, n)] && w.jobs == w.inner == [] && Passable(chain, n)
  }

  /** The batch taken last is at work. */
  ghost predicate Works(w: World, tenant: string, chain: seq<Step>, c: Step, id: string, lost: nat) {
    var n := |w.ran|;
    && Prefix(w.ran, w.oks, chain, c) && AllBare(w.others) && Well(w.oks)
    && 0 < n && w.links == [] && Passable(chain, n - 1)
    && Working(w.jobs, w.inner, w.rows, tenant, chain, c, n, id, lost)
  }

  /** Nothing of the chain is outstanding: all of it has run, or the last link that ran failed. */
  ghost predicate Over(w: World, chain: seq<Step>, c: Step) {
    var n := |w.ran|;
    && Prefix(w.ran, w.oks, chain, c) && AllBare(w.others)
    && 0 < n && w.links == w.jobs == w.inner == [] && Passable(chain, n - 1) && (n == |chain| || !Well(w.oks))
  }

  ghost predicate Inv(w: World, tenant: string, chain: seq<Step>, c: Step) {
    || Waits(w, chain, c)
    || Over(w, chain, c)
    || exists id, lost :: Works(w, tenant, chain, c, id, lost)
  }

  lemma PrefixGrows(ran: seq<Message>, oks: seq<bool>, chain: seq<Step>, c: Step, ok: bool)
    requires Prefix(ran, oks, chain, c) && |ran| < |chain| && Well(oks)
    ensures Prefix(ran + [LinkAt(chain, c, |ran|)], oks + [ok], chain, c) && Well(oks + [ok]) == ok
  {
  }

  /** The ids a step draws are new, and as many as it needs. */
  ghost predicate Drawn(w: World, tenant: string, a: Action) {
    var how := a.how;
    && how.id != "" && RowKey(tenant, how.id) !in w.rows
    && (forall i :: 0 <= i < |how.ids| ==> how.ids[i] != "")
    && (forall i, j :: 0 <= i < j < |how.ids| ==> how.ids[i] != how.ids[j])
    && (a.TakeLink? && a.k < |w.links| ==> Enough(w.links[a.k], how.ids))
    && (a.TakeJob? && a.k < |w.jobs| ==> Enough(w.jobs[a.k], how.ids))
    && (a.TakeInner? && a.k < |w.inner| ==> Enough(w.inner[a.k], how.ids))
  }

  predicate Enough(m: Message, ids: seq<string>) {
    var body := Batched(m.payload).body;
    body.Nested? ==> |body.jobs| <= |ids|
  }

  /** A dispatched chain: its first link is the only message. */
  function Dispatched(chain: seq<Step>, c: Step): World
    requires chain != []
  {
    World([LinkMessage(chain, c)], [], [], [], map[], [LinkMessage(chain, c)], [], [], [], [])
  }

  // ------------------------------------------------------------------ arrivals

  lemma ArriveNone(w: World, inside: bool)
    ensures Arrive(w, [], inside) == w
  {
  }

  lemma ArriveOne(w: World, m: Message)
    requires !IsJob(m)
    ensures Arrive(w, [m], true) == if IsLink(m) then w.(links := w.links + [m], log := w.log + [m])
                                    else w.(others := w.others + [m], log := w.log + [m])
  {
    OneKind(m);
  }

  lemma ArriveSorted(w: World, ms: seq<Message>, links: seq<Message>, jobs: seq<Message>, others: seq<Message>,
                     inside: bool)
    requires Links(ms) == links && Jobs(ms) == jobs && Others(ms) == others
    ensures Arrive(w, ms, inside)
         == w.(links := w.links + links, jobs := if inside then w.jobs else w.jobs + jobs,
               inner := if inside then w.inner + jobs else w.inner, others := w.others + others, log := w.log + ms)
  {
  }

  lemma BothSorted(a: seq<Message>, b: seq<Message>)
    requires Links(a) == [] && Jobs(a) == [] && Others(a) == a && Links(b) == [] && Jobs(b) == b && Others(b) == []
    ensures Links(a + b) == [] && Jobs(a + b) == b && Others(a + b) == a
  {
    KindsJoin(a, b);
    calc { Links(a + b); Links(a) + Links(b); []; }
    calc { Jobs(a + b); Jobs(a) + Jobs(b); [] + b; b; }
    calc { Others(a + b); Others(a) + Others(b); a + []; a; }
  }

  lemma BeforeKinds(b: Batch)
    requires BareStep(b.options.before)
    ensures Links(BeforeMessages(b)) == [] && Jobs(BeforeMessages(b)) == []
    ensures Others(BeforeMessages(b)) == BeforeMessages(b)
    ensures AllBare(BeforeMessages(b))
  {
    OneKind(CallbackMessage(b.options, b.options.before));
  }

  /** The row of a batch about to be dispatched. */
  function RowFor(b: Member, tenant: string, id: string): Batch
    requires b.body.Nested?
  {
    NewBatch(id, tenant, |b.body.jobs|, PendingOptions(b.body, b.chain, b.chainCatch))
  }

  /** What opening a batch comes to: its row, its jobs, and perhaps its Before. */
  lemma OpenedIs(w: World, tenant: string, b: Member, how: Work, inside: bool)
    requires Dispatchable(b.body) && |b.body.jobs| <= |how.ids| && how.id != ""
    requires BareStep(RowFor(b, tenant, how.id).options.before)
    ensures var row := RowFor(b, tenant, how.id);
            var jobs := JobMessages(row, b.body.jobs, how.ids);
            Opened(w, tenant, b, how.id, how.ids, inside)
            == w.(rows := w.rows[RowKey(tenant, how.id) := row], jobs := if inside then w.jobs else w.jobs + jobs,
                  inner := if inside then w.inner + jobs else w.inner, others := w.others + BeforeMessages(row),
                  log := w.log + (BeforeMessages(row) + jobs))
  {
    var row := RowFor(b, tenant, how.id);
    var jobs := JobMessages(row, b.body.jobs, how.ids);
    BeforeKinds(row);
    JobMessageKinds(row, b.body.jobs, how.ids);
    BothSorted(BeforeMessages(row), jobs);
    ArriveSorted(w.(rows := w.rows[RowKey(tenant, how.id) := row]), BeforeMessages(row) + jobs, [], jobs,
                 BeforeMessages(row), inside);
  }

  // --------------------------------------------------------------- plain links

  /** After a plain link, the next one on its own queue. */
  lemma NextAfterPlain(chain: seq<Step>, c: Step, n: nat)
    requires n < |chain| - 1 && PlainLink(chain[n])
    ensures LinkMessage(chain[n + 1..], c) == LinkAt(chain, c, n + 1)
  {
  }

  /** What taking plain link n comes to. */
  lemma PlainStep(w: World, tenant: string, chain: seq<Step>, c: Step, how: Work)
    requires |w.ran| < |chain| && PlainLink(chain[|w.ran|]) && w.links == [LinkAt(chain, c, |w.ran|)]
    ensures var n := |w.ran|;
            Next(w, tenant, TakeLink(0, how)) == Arrive(LinkOut(w, 0, how), AfterPlain(chain, c, n, how.ok), true)
  {
    var n := |w.ran|;
    var m := LinkAt(chain, c, n);
    var b := Batched(m.payload);
    assert b == Member("", "", chain[n + 1..], c, chain[n].payload);
    assert ReportMessages(w.rows, tenant, b, how.ok) + Follow(b, how.ok) == Follow(b, how.ok);
    assert w.told + TellingOf(LinkOut(w, 0, how), tenant, b, how.ok) == w.told;
    if n + 1 < |chain| { NextAfterPlain(chain, c, n); }
  }

  lemma CatchArrives(w: World, c: Step)
    requires BareStep(c)
    ensures Arrive(w, CatchMessages(c), true)
         == w.(others := w.others + CatchMessages(c), log := w.log + CatchMessages(c))
  {
    ArriveNone(w, true);
    ArriveOne(w, Message(c.queue, c.name, c.payload));
  }

  lemma LinkOutIs(w: World, tenant: string, chain: seq<Step>, c: Step, how: Work)
    requires |w.ran| < |chain| && w.links == [LinkAt(chain, c, |w.ran|)]
    ensures var n := |w.ran|;
            var nested := chain[n].name == CHAINED_BATCH;
            LinkOut(w, 0, how)
            == w.(links := [], ran := w.ran + [LinkAt(chain, c, n)], oks := w.oks + [how.ok || nested],
                  ids := w.ids + [if nested then how.id else ""])
  {
    assert Drop(w.links, 0) == [];
  }

  /** What a plain link pushes: the next one, or its Catch. */
  function AfterPlain(chain: seq<Step>, c: Step, n: nat, ok: bool): seq<Message> {
    if !ok then CatchMessages(c) else if n + 1 < |chain| then [LinkAt(chain, c, n + 1)] else []
  }

  lemma PlainMoves(w: World, tenant: string, chain: seq<Step>, c: Step, how: Work)
    requires Waits(w, chain, c) && BareStep(c) && PlainLink(chain[|w.ran|])
    ensures var w', n := Next(w, tenant, TakeLink(0, how)), |w.ran|;
            && w'.ran == w.ran + [LinkAt(chain, c, n)] && w'.oks == w.oks + [how.ok] && w'.ids == w.ids + [""]
            && w'.links == (if how.ok then AfterPlain(chain, c, n, true) else []) && w'.jobs == w'.inner == []
            && AllBare(w'.others) && w'.rows == w.rows && w'.told == w.told
            && w'.log == w.log + AfterPlain(chain, c, n, how.ok)
  {
    PlainStep(w, tenant, chain, c, how);
    LinkOutIs(w, tenant, chain, c, how);
    PlainArrives(LinkOut(w, 0, how), chain, c, |w.ran|, how.ok);
  }

  lemma PlainArrives(w: World, chain: seq<Step>, c: Step, n: nat, ok: bool)
    requires BareStep(c) && AllBare(w.others) && w.links == []
    ensures var w' := Arrive(w, AfterPlain(chain, c, n, ok), true);
            && w'.links == (if ok then AfterPlain(chain, c, n, true) else []) && AllBare(w'.others)
            && w' == w.(links := w'.links, others := w'.others, log := w.log + AfterPlain(chain, c, n, ok))
  {
    if !ok {
      CatchArrives(w, c);
    } else if n + 1 < |chain| {
      ArriveOne(w, LinkAt(chain, c, n + 1));
    } else {
      ArriveNone(w, true);
    }
  }

  lemma PlainKeeps(w: World, tenant: string, chain: seq<Step>, c: Step, how: Work)
    requires Waits(w, chain, c) && BareStep(c) && PlainLink(chain[|w.ran|])
    ensures var w' := Next(w, tenant, TakeLink(0, how)); Waits(w', chain, c) || Over(w', chain, c)
  {
    PlainMoves(w, tenant, chain, c, how);
    if how.ok && |w.ran| + 1 < |chain| {
      PlainWaits(w, Next(w, tenant, TakeLink(0, how)), chain, c);
    } else {
      PlainOver(w, Next(w, tenant, TakeLink(0, how)), chain, c, how.ok);
    }
  }

  lemma PlainOver(w: World, w': World, chain: seq<Step>, c: Step, ok: bool)
    requires Waits(w, chain, c) && PlainLink(chain[|w.ran|])
    requires w'.links == w'.jobs == w'.inner == [] && AllBare(w'.others) && (!ok || |w.ran| + 1 == |chain|)
    requires w'.ran == w.ran + [LinkAt(chain, c, |w.ran|)] && w'.oks == w.oks + [ok]
    ensures Over(w', chain, c)
  {
    PrefixGrows(w.ran, w.oks, chain, c, ok);
  }

  lemma PlainWaits(w: World, w': World, chain: seq<Step>, c: Step)
    requires Waits(w, chain, c) && PlainLink(chain[|w.ran|]) && |w.ran| + 1 < |chain|
    requires w'.links == [LinkAt(chain, c, |w.ran| + 1)] && w'.jobs == w'.inner == [] && AllBare(w'.others)
    requires w'.ran == w.ran + [LinkAt(chain, c, |w.ran|)] && w'.oks == w.oks + [true]
    ensures Waits(w', chain, c)
  {
    PrefixGrows(w.ran, w.oks, chain, c, true);
  }

  // -------------------------------------------------------------- nested links

  lemma NestedCallbacks(chain: seq<Step>, c: Step, n: nat)
    requires Described(chain, c) && n < |chain| && NestedLink(chain[n])
    ensures BareBesideFinally(OptionsAt(chain, c, n)) && BareStep(OptionsAt(chain, c, n).before)
    ensures n == |chain| - 1 ==> BareStep(OptionsAt(chain, c, n).onFinally)
  {
    var o, own := OptionsAt(chain, c, n), chain[n].payload.options;
    forall k: Callback | k != Finally ensures BareStep(CallbackStep(o, k)) {
      assert BareStep(CallbackStep(own, k));
    }
    assert BareStep(CallbackStep(own, Finally)) && BareStep(CallbackStep(o, Before_));
  }

  /** The link a nested batch carries in Finally, as that callback is pushed. */
  lemma NextAfterNested(chain: seq<Step>, c: Step, n: nat)
    requires Described(chain, c) && n < |chain| - 1 && NestedLink(chain[n])
    ensures var o := OptionsAt(chain, c, n);
            CallbackMessage(o, o.onFinally) == LinkAt(chain, c, n + 1) && o.onFinally.Declared()
  {
    assert chain[n + 1] in chain;
  }

  /** The jobs of a batch just dispatched, all of them counted. */
  lemma FreshlyBusy(row: Batch, jobs: seq<Step>, ids: seq<string>, rows: map<string, Batch>, tenant: string)
    requires |jobs| <= |ids| && row == NewBatch(row.id, row.tenant, |jobs|, row.options) && row.id != ""
    requires (forall i :: 0 <= i < |ids| ==> ids[i] != "") && (forall i, j :: 0 <= i < j < |ids| ==> ids[i] != ids[j])
    requires forall j :: j in jobs ==> Ordinary(j.payload)
    requires RowKey(tenant, row.id) in rows && rows[RowKey(tenant, row.id)] == row
    ensures |JobMessages(row, jobs, ids)| == |jobs|
    ensures Busy(JobMessages(row, jobs, ids), rows, tenant, row.id, row.options, 0)
  {
    JobMessagesLength(row, jobs, ids);
    var ms := JobMessages(row, jobs, ids);
    forall i | 0 <= i < |ms| ensures JobLike(ms[i]) && ms[i].payload.batch == row.id {
      assert jobs[i] in jobs;
    }
  }

  lemma BatchesAmong(row: Batch, jobs: seq<Step>, ids: seq<string>)
    requires |jobs| <= |ids|
    ensures HasBatchJob(JobMessages(row, jobs, ids)) <==> exists j :: j in jobs && j.name == CHAINED_BATCH
  {
    JobMessagesLength(row, jobs, ids);
    var ms := JobMessages(row, jobs, ids);
    if HasBatchJob(ms) {
      var i :| 0 <= i < |ms| && ms[i].name == CHAINED_BATCH;
      assert jobs[i] in jobs && jobs[i].name == CHAINED_BATCH;
    }
    if exists j :: j in jobs && j.name == CHAINED_BATCH {
      var j :| j in jobs && j.name == CHAINED_BATCH;
      var i :| 0 <= i < |jobs| && jobs[i] == j;
      assert ms[i].name == CHAINED_BATCH;
    }
  }

  /** What taking nested link n comes to: its jobs are outstanding, each once, and nothing else. */
  lemma NestedStep(w: World, tenant: string, chain: seq<Step>, c: Step, how: Work)
    requires Described(chain, c) && |w.ran| < |chain| && NestedLink(chain[|w.ran|])
    requires w.links == [LinkAt(chain, c, |w.ran|)] && w.jobs == [] && how.id != ""
    requires |chain[|w.ran|].payload.jobs| <= |how.ids|
    ensures var w', row := Next(w, tenant, TakeLink(0, how)), RowAt(tenant, chain, c, |w.ran|, how.id);
            var jobs := JobMessages(row, chain[|w.ran|].payload.jobs, how.ids);
            && w'.links == [] && w'.ran == w.ran + [LinkAt(chain, c, |w.ran|)] && w'.oks == w.oks + [true]
            && w'.ids == w.ids + [how.id] && w'.rows == w.rows[RowKey(tenant, how.id) := row] && w'.jobs == jobs
            && w'.inner == w.inner && w'.others == w.others + BeforeMessages(row)
            && w'.log == w.log + (BeforeMessages(row) + jobs) && w'.told == w.told
  {
    var n := |w.ran|;
    var b := Batched(LinkAt(chain, c, n).payload);
    assert b == Member("", "", chain[n + 1..], c, chain[n].payload);
    NestedCallbacks(chain, c, n);
    LinkOutIs(w, tenant, chain, c, how);
    OpenedIs(LinkOut(w, 0, how), tenant, b, how, false);
  }

  /** The row of the batch that is link n. */
  function RowAt(tenant: string, chain: seq<Step>, c: Step, n: nat, id: string): Batch
    requires n < |chain| && chain[n].payload.Nested?
  {
    NewBatch(id, tenant, |chain[n].payload.jobs|, OptionsAt(chain, c, n))
  }

  lemma NestedKeeps(w: World, tenant: string, chain: seq<Step>, c: Step, how: Work)
    requires Waits(w, chain, c) && Described(chain, c) && NestedLink(chain[|w.ran|])
    requires Drawn(w, tenant, TakeLink(0, how))
    ensures Works(Next(w, tenant, TakeLink(0, how)), tenant, chain, c, how.id, 0)
  {
    var n := |w.ran|;
    NestedStep(w, tenant, chain, c, how);
    NestedCallbacks(chain, c, n);
    BeforeKinds(RowAt(tenant, chain, c, n, how.id));
    BareJoins(w.others, BeforeMessages(RowAt(tenant, chain, c, n, how.id)));
    NestedWorking(w.rows, tenant, chain, c, n, how);
    NestedWorks(w, Next(w, tenant, TakeLink(0, how)), tenant, chain, c, how);
  }

  lemma NestedWorks(w: World, w': World, tenant: string, chain: seq<Step>, c: Step, how: Work)
    requires Prefix(w.ran, w.oks, chain, c) && Well(w.oks) && |w.ran| < |chain| && Passable(chain, |w.ran|)
    requires NestedLink(chain[|w.ran|]) && w'.links == [] && AllBare(w'.others)
    requires w'.ran == w.ran + [LinkAt(chain, c, |w.ran|)] && w'.oks == w.oks + [true]
    requires Working(w'.jobs, w'.inner, w'.rows, tenant, chain, c, |w.ran| + 1, how.id, 0)
    ensures Works(w', tenant, chain, c, how.id, 0)
  {
    PrefixGrows(w.ran, w.oks, chain, c, true);
  }

  lemma NestedWorking(rows: map<string, Batch>, tenant: string, chain: seq<Step>, c: Step, n: nat, how: Work)
    requires n < |chain| && NestedLink(chain[n]) && |chain[n].payload.jobs| <= |how.ids| && how.id != ""
    requires forall i :: 0 <= i < |how.ids| ==> how.ids[i] != ""
    requires forall i, j :: 0 <= i < j < |how.ids| ==> how.ids[i] != how.ids[j]
    ensures var row := RowAt(tenant, chain, c, n, how.id);
            Working(JobMessages(row, chain[n].payload.jobs, how.ids), [], rows[RowKey(tenant, how.id) := row], tenant,
                    chain, c, n + 1, how.id, 0)
  {
    var row := RowAt(tenant, chain, c, n, how.id);
    FreshlyBusy(row, chain[n].payload.jobs, how.ids, rows[RowKey(tenant, how.id) := row], tenant);
    BatchesAmong(row, chain[n].payload.jobs, how.ids);
  }

  // ------------------------------------------------------------------- the rows

  /** No row goes away, and none changes its settings. */
  ghost predicate Grows(rows: map<string, Batch>, rows': map<string, Batch>) {
    forall k :: k in rows ==> k in rows' && rows'[k].options == rows[k].options
  }

  lemma ReportGrows(rows: map<string, Batch>, tenant: string, b: Member, ok: bool, now: int)
    ensures Grows(rows, ReportRows(rows, tenant, b, ok, now))
    ensures forall k :: k in rows && k != RowKey(tenant, b.batch) ==> ReportRows(rows, tenant, b, ok, now)[k] == rows[k]
  {
    if Chains.Reporting(rows, tenant, b) {
      var c := CountsAfter(rows, tenant, b, ok);
      StampedKeeps(c.batch, Effects(ReportOf(b, ok), c), now);
    }
  }

  lemma InnerKept(inner: seq<Message>, rows: map<string, Batch>, rows': map<string, Batch>, tenant: string, id: string)
    requires InnerFine(inner, rows, tenant, id) && Grows(rows, rows')
    ensures InnerFine(inner, rows', tenant, id)
  {
    forall i | 0 <= i < |inner| ensures InnerJob(inner[i], rows', tenant, id) {
      assert InnerJob(inner[i], rows, tenant, id);
    }
  }

  lemma BusyKept(jobs: seq<Message>, rows: map<string, Batch>, rows': map<string, Batch>, tenant: string, id: string,
                 o: Options, lost: nat)
    requires Busy(jobs, rows, tenant, id, o, lost)
    requires RowKey(tenant, id) in rows' && rows'[RowKey(tenant, id)] == rows[RowKey(tenant, id)]
    ensures Busy(jobs, rows', tenant, id, o, lost)
  {
  }

  lemma InnerDrops(inner: seq<Message>, rows: map<string, Batch>, tenant: string, id: string, k: nat)
    requires InnerFine(inner, rows, tenant, id) && k < |inner|
    ensures InnerFine(Drop(inner, k), rows, tenant, id)
  {
    DroppedAreOthers(inner, k);
  }

  lemma InnerJoins(a: seq<Message>, b: seq<Message>, rows: map<string, Batch>, tenant: string, id: string)
    requires InnerFine(a, rows, tenant, id) && InnerFine(b, rows, tenant, id)
    ensures InnerFine(a + b, rows, tenant, id)
  {
  }

  // --------------------------------------------------------------- jobs that report

  lemma BareJoins(a: seq<Message>, b: seq<Message>)
    requires AllBare(a) && forall m :: m in b ==> Bare(m)
    ensures AllBare(a + b)
  {
  }

  /** What the report of a job comes to, whatever batch it is of, when it pushes no job and this for links. */
  lemma ReportedIs(w: World, tenant: string, b: Member, ok: bool, now: int, links: seq<Message>)
    requires b.chain == [] && b.chainCatch == NO_STEP && AllBare(w.others)
    requires var ms := ReportMessages(w.rows, tenant, b, ok);
             Jobs(ms) == [] && Links(ms) == links && forall m :: m in Others(ms) ==> Bare(m)
    ensures var w' := Reported(w, tenant, b, ok, now);
            && w'.ran == w.ran && w'.oks == w.oks && w'.ids == w.ids && w'.jobs == w.jobs && w'.inner == w.inner
            && w'.links == w.links + links && AllBare(w'.others) && w'.rows == ReportRows(w.rows, tenant, b, ok, now)
            && w'.told == w.told + TellingOf(w, tenant, b, ok)
            && w'.log == w.log + ReportMessages(w.rows, tenant, b, ok)
  {
    var ms := ReportMessages(w.rows, tenant, b, ok);
    assert ms + Follow(b, ok) == ms;
    BareJoins(w.others, Others(ms));
  }

  /** The report of a job of the batch at work: the last one releases the link in Finally. */
  lemma JobReported(w: World, tenant: string, id: string, o: Options, lost: nat, k: nat, how: Work)
    requires Keys.ValidTenant(tenant) && Busy(w.jobs, w.rows, tenant, id, o, lost) && AllBare(w.others)
    requires k < |w.jobs| && w.jobs[k].name != CHAINED_BATCH && BareBesideFinally(o)
    requires (IsLink(CallbackMessage(o, o.onFinally)) && o.onFinally.Declared()) || BareStep(o.onFinally)
    ensures var w', b := Next(w, tenant, TakeJob(k, how)), Batched(w.jobs[k].payload);
            var f := CallbackMessage(o, o.onFinally);
            && w'.ran == w.ran && w'.oks == w.oks && w'.ids == w.ids
            && w'.jobs == Drop(w.jobs, k) && w'.inner == w.inner
            && w'.links == w.links + (if |w.jobs| == 1 && lost == 0 && IsLink(f) then [f] else [])
            && AllBare(w'.others) && w'.rows == ReportRows(w.rows, tenant, b, how.ok, how.now)
            && w'.told == w.told + TellingOf(w, tenant, b, how.ok)
            && w'.log == w.log + ReportMessages(w.rows, tenant, b, how.ok)
  {
    var b, f := Batched(w.jobs[k].payload), CallbackMessage(o, o.onFinally);
    JobReports(w.jobs, w.rows, tenant, id, o, lost, k, how.ok, how.now);
    ReportKinds(o, ReportOf(b, how.ok), CountsAfter(w.rows, tenant, b, how.ok));
    ReportedIs(w.(jobs := Drop(w.jobs, k)), tenant, b, how.ok, how.now,
               if |w.jobs| == 1 && lost == 0 && IsLink(f) then [f] else []);
  }

  lemma JobStep(w: World, tenant: string, id: string, o: Options, lost: nat, k: nat, how: Work)
    requires Keys.ValidTenant(tenant) && Busy(w.jobs, w.rows, tenant, id, o, lost) && AllBare(w.others)
    requires k < |w.jobs| && w.jobs[k].name != CHAINED_BATCH && BareBesideFinally(o)
    requires (IsLink(CallbackMessage(o, o.onFinally)) && o.onFinally.Declared()) || BareStep(o.onFinally)
    ensures var w', f := Next(w, tenant, TakeJob(k, how)), CallbackMessage(o, o.onFinally);
            && w'.ran == w.ran && w'.oks == w.oks && w'.jobs == Drop(w.jobs, k) && w'.inner == w.inner
            && w'.links == w.links + (if |w.jobs| == 1 && lost == 0 && IsLink(f) then [f] else [])
            && AllBare(w'.others) && Grows(w.rows, w'.rows) && Busy(w'.jobs, w'.rows, tenant, id, o, lost)
  {
    JobReported(w, tenant, id, o, lost, k, how);
    JobReports(w.jobs, w.rows, tenant, id, o, lost, k, how.ok, how.now);
    ReportGrows(w.rows, tenant, Batched(w.jobs[k].payload), how.ok, how.now);
  }

  lemma BatchJobsDrop(jobs: seq<Message>, k: nat)
    requires k < |jobs| && jobs[k].name != CHAINED_BATCH
    ensures HasBatchJob(Drop(jobs, k)) <==> HasBatchJob(jobs)
  {
    DroppedAreOthers(jobs, k);
    if HasBatchJob(jobs) {
      var i :| 0 <= i < |jobs| && jobs[i].name == CHAINED_BATCH;
      assert Drop(jobs, k)[if i < k then i else i - 1] == jobs[i];
    }
  }

  /** One more report, in the terms of the chain. */
  ghost predicate Onward(w: World, w': World, tenant: string, chain: seq<Step>, c: Step, id: string, lost: nat) {
    if |w.jobs| > 1 || lost > 0 then Works(w', tenant, chain, c, id, lost)
    else if |w.ran| < |chain| then Waits(w', chain, c) else Over(w', chain, c)
  }

  lemma JobKeeps(w: World, tenant: string, chain: seq<Step>, c: Step, id: string, lost: nat, k: nat, how: Work)
    requires Keys.ValidTenant(tenant) && Works(w, tenant, chain, c, id, lost) && Described(chain, c)
    requires k < |w.jobs| && w.jobs[k].name != CHAINED_BATCH
    ensures Onward(w, Next(w, tenant, TakeJob(k, how)), tenant, chain, c, id, lost)
  {
    var n := |w.ran|;
    NestedCallbacks(chain, c, n - 1);
    if n < |chain| { NextAfterNested(chain, c, n - 1); }
    JobStep(w, tenant, id, OptionsAt(chain, c, n - 1), lost, k, how);
    JobMovesOn(w, Next(w, tenant, TakeJob(k, how)), tenant, chain, c, id, lost, k);
  }

  lemma JobMovesOn(w: World, w': World, tenant: string, chain: seq<Step>, c: Step, id: string, lost: nat, k: nat)
    requires Works(w, tenant, chain, c, id, lost) && k < |w.jobs| && w.jobs[k].name != CHAINED_BATCH
    requires 0 < |w.ran| <= |chain| && chain[|w.ran| - 1].payload.Nested?
    requires w'.ran == w.ran && w'.oks == w.oks && w'.jobs == Drop(w.jobs, k) && w'.inner == w.inner
    requires w'.links == if |w.jobs| == 1 && lost == 0 && |w.ran| < |chain| then [LinkAt(chain, c, |w.ran|)] else []
    requires AllBare(w'.others) && Grows(w.rows, w'.rows)
    requires Busy(w'.jobs, w'.rows, tenant, id, OptionsAt(chain, c, |w.ran| - 1), lost)
    ensures Onward(w, w', tenant, chain, c, id, lost)
  {
    if |w.jobs| > 1 || lost > 0 {
      StillWorking(w.jobs, w.inner, w.rows, w'.rows, tenant, chain, c, |w.ran|, id, lost, k);
      StillWorks(w, w', tenant, chain, c, id, lost);
    } else {
      LastMovesOn(w, w', tenant, chain, c, id);
    }
  }

  lemma LastMovesOn(w: World, w': World, tenant: string, chain: seq<Step>, c: Step, id: string)
    requires Works(w, tenant, chain, c, id, 0) && |w.jobs| == 1 && w.jobs[0].name != CHAINED_BATCH
    requires w'.ran == w.ran && w'.oks == w.oks && |w'.jobs| == 0 && w'.inner == w.inner && AllBare(w'.others)
    requires w'.links == if |w.ran| < |chain| then [LinkAt(chain, c, |w.ran|)] else []
    ensures if |w.ran| < |chain| then Waits(w', chain, c) else Over(w', chain, c)
  {
    NoneInside(w.jobs, w.inner, w.rows, tenant, chain, c, |w.ran|, id);
    LastReport(w, w', chain, c);
  }

  lemma StillWorks(w: World, w': World, tenant: string, chain: seq<Step>, c: Step, id: string, lost: nat)
    requires Works(w, tenant, chain, c, id, lost) && w'.ran == w.ran && w'.oks == w.oks && w'.links == []
    requires AllBare(w'.others) && Working(w'.jobs, w'.inner, w'.rows, tenant, chain, c, |w.ran|, id, lost)
    ensures Works(w', tenant, chain, c, id, lost)
  {
  }

  lemma StillWorking(jobs: seq<Message>, inner: seq<Message>, rows: map<string, Batch>, rows': map<string, Batch>,
                     tenant: string, chain: seq<Step>, c: Step, n: nat, id: string, lost: nat, k: nat)
    requires Working(jobs, inner, rows, tenant, chain, c, n, id, lost) && (|jobs| > 1 || lost > 0)
    requires k < |jobs| && jobs[k].name != CHAINED_BATCH && Grows(rows, rows')
    requires Busy(Drop(jobs, k), rows', tenant, id, OptionsAt(chain, c, n - 1), lost)
    ensures Working(Drop(jobs, k), inner, rows', tenant, chain, c, n, id, lost)
  {
    BatchJobsDrop(jobs, k);
    InnerKept(inner, rows, rows', tenant, id);
  }

  lemma NoneInside(jobs: seq<Message>, inner: seq<Message>, rows: map<string, Batch>, tenant: string, chain: seq<Step>,
                   c: Step, n: nat, id: string)
    requires Working(jobs, inner, rows, tenant, chain, c, n, id, 0) && |jobs| == 1 && jobs[0].name != CHAINED_BATCH
    ensures inner == [] && !HoldsBatch(chain[n - 1])
  {
  }

  lemma LastReport(w: World, w': World, chain: seq<Step>, c: Step)
    requires Prefix(w.ran, w.oks, chain, c) && Well(w.oks) && 0 < |w.ran|
    requires Passable(chain, |w.ran| - 1) && !HoldsBatch(chain[|w.ran| - 1])
    requires w'.ran == w.ran && w'.oks == w.oks && w'.jobs == w'.inner == [] && AllBare(w'.others)
    requires w'.links == if |w.ran| < |chain| then [LinkAt(chain, c, |w.ran|)] else []
    ensures if |w.ran| < |chain| then Waits(w', chain, c) else Over(w', chain, c)
  {
    assert Passable(chain, |w.ran|);
  }

  // ------------------------------------------------------- jobs that are batches

  /** The row of a batch inside the batch at work, and its jobs. */
  lemma InsideIsFine(tenant: string, b: Member, id: string, how: Work, rows: map<string, Batch>)
    requires Dispatchable(b.body) && Ordinary(b.body) && b.chain == [] && b.chainCatch == NO_STEP
    requires |b.body.jobs| <= |how.ids| && how.id != "" && how.id != id
    requires forall i :: 0 <= i < |how.ids| ==> how.ids[i] != ""
    requires forall i, j :: 0 <= i < j < |how.ids| ==> how.ids[i] != how.ids[j]
    requires RowKey(tenant, how.id) in rows && rows[RowKey(tenant, how.id)] == RowFor(b, tenant, how.id)
    ensures InnerFine(JobMessages(RowFor(b, tenant, how.id), b.body.jobs, how.ids), rows, tenant, id)
    ensures BareStep(RowFor(b, tenant, how.id).options.before)
  {
    var row := RowFor(b, tenant, how.id);
    assert BareOptions(row.options) by {
      forall k: Callback ensures BareStep(CallbackStep(row.options, k)) {
        assert BareStep(CallbackStep(b.body.options, k));
      }
    }
    FreshlyBusy(row, b.body.jobs, how.ids, rows, tenant);
    assert BareStep(CallbackStep(row.options, Before_));
  }

  /** What taking a job that is a batch comes to, beside its leaving the queue. */
  lemma OpensInside(w: World, tenant: string, m: Message, id: string, how: Work)
    requires JobLike(m) && how.id != id && AllBare(w.others) && InnerFine(w.inner, w.rows, tenant, id)
    requires how.id != "" && RowKey(tenant, how.id) !in w.rows && Enough(m, how.ids)
    requires forall i :: 0 <= i < |how.ids| ==> how.ids[i] != ""
    requires forall i, j :: 0 <= i < j < |how.ids| ==> how.ids[i] != how.ids[j]
    ensures var w' := Opened(w, tenant, Batched(m.payload), how.id, how.ids, true);
            && w'.links == w.links && w'.jobs == w.jobs && w'.ran == w.ran && w'.oks == w.oks && w'.ids == w.ids
            && w'.told == w.told && w.log <= w'.log && AllBare(w'.others) && InnerFine(w'.inner, w'.rows, tenant, id)
            && Grows(w.rows, w'.rows) && forall k :: k in w.rows ==> w'.rows[k] == w.rows[k]
  {
    var b := Batched(m.payload);
    if Dispatchable(b.body) {
      var row := RowFor(b, tenant, how.id);
      var rows := w.rows[RowKey(tenant, how.id) := row];
      InsideIsFine(tenant, b, id, how, rows);
      OpenedIs(w, tenant, b, how, true);
      BeforeKinds(row);
      BareJoins(w.others, BeforeMessages(row));
      InnerKept(w.inner, w.rows, rows, tenant, id);
      InnerJoins(w.inner, JobMessages(row, b.body.jobs, how.ids), rows, tenant, id);
    }
  }

  lemma BatchTaken(w: World, tenant: string, chain: seq<Step>, c: Step, id: string, lost: nat, k: nat, how: Work)
    requires Works(w, tenant, chain, c, id, lost) && Drawn(w, tenant, TakeJob(k, how))
    requires k < |w.jobs| && w.jobs[k].name == CHAINED_BATCH
    ensures Works(Next(w, tenant, TakeJob(k, how)), tenant, chain, c, id, lost + 1)
  {
    OpensInside(w.(jobs := Drop(w.jobs, k)), tenant, w.jobs[k], id, how);
    BatchGone(w, Next(w, tenant, TakeJob(k, how)), tenant, chain, c, id, lost, k);
  }

  lemma BatchGone(w: World, w': World, tenant: string, chain: seq<Step>, c: Step, id: string, lost: nat, k: nat)
    requires Works(w, tenant, chain, c, id, lost) && k < |w.jobs| && w.jobs[k].name == CHAINED_BATCH
    requires w'.links == w.links && w'.jobs == Drop(w.jobs, k) && w'.ran == w.ran && w'.oks == w.oks
    requires AllBare(w'.others) && InnerFine(w'.inner, w'.rows, tenant, id)
    requires forall k :: k in w.rows ==> k in w'.rows && w'.rows[k] == w.rows[k]
    ensures Works(w', tenant, chain, c, id, lost + 1)
  {
    JobLost(w.jobs, w.rows, tenant, id, OptionsAt(chain, c, |w.ran| - 1), lost, k);
    BusyKept(w'.jobs, w.rows, w'.rows, tenant, id, OptionsAt(chain, c, |w.ran| - 1), lost + 1);
  }

  // -------------------------------------------------- jobs of batches inside

  /** A report to a batch inside pushes ordinary jobs only. */
  lemma InnerReports(rows: map<string, Batch>, tenant: string, m: Message, id: string, ok: bool, now: int)
    requires Keys.ValidTenant(tenant) && InnerJob(m, rows, tenant, id)
    ensures var ms := ReportMessages(rows, tenant, Batched(m.payload), ok);
            Jobs(ms) == [] && Links(ms) == [] && forall x :: x in Others(ms) ==> Bare(x)
  {
    var b := Batched(m.payload);
    var counts := CountsAfter(rows, tenant, b, ok);
    var o := counts.batch.options;
    assert BareStep(CallbackStep(o, Finally));
    ReportKinds(o, ReportOf(b, ok), counts);
  }

  lemma RowKeysDiffer(tenant: string, a: string, b: string)
    requires Keys.ValidTenant(tenant) && a != b
    ensures RowKey(tenant, a) != RowKey(tenant, b)
  {
    if RowKey(tenant, a) == RowKey(tenant, b) { RowKeyInjective(tenant, a, tenant, b); }
  }

  /** The report of a job of a batch inside. */
  lemma InnerReportedIs(w: World, tenant: string, id: string, k: nat, how: Work)
    requires Keys.ValidTenant(tenant) && InnerFine(w.inner, w.rows, tenant, id) && AllBare(w.others)
    requires k < |w.inner| && w.inner[k].name != CHAINED_BATCH
    ensures var w', b := Next(w, tenant, TakeInner(k, how)), Batched(w.inner[k].payload);
            && w'.links == w.links && w'.jobs == w.jobs && w'.ran == w.ran && w'.oks == w.oks && w'.ids == w.ids
            && w'.inner == Drop(w.inner, k) && w'.rows == ReportRows(w.rows, tenant, b, how.ok, how.now)
            && AllBare(w'.others) && w'.told == w.told + TellingOf(w, tenant, b, how.ok) && w.log <= w'.log
  {
    assert InnerJob(w.inner[k], w.rows, tenant, id);
    InnerReports(w.rows, tenant, w.inner[k], id, how.ok, how.now);
    ReportedIs(w.(inner := Drop(w.inner, k)), tenant, Batched(w.inner[k].payload), how.ok, how.now, []);
  }

  lemma InnerReported(w: World, tenant: string, id: string, k: nat, how: Work)
    requires Keys.ValidTenant(tenant) && InnerFine(w.inner, w.rows, tenant, id) && AllBare(w.others)
    requires k < |w.inner| && w.inner[k].name != CHAINED_BATCH
    ensures var w' := Next(w, tenant, TakeInner(k, how));
            && w'.links == w.links && w'.jobs == w.jobs && w'.ran == w.ran && w'.oks == w.oks
            && AllBare(w'.others) && InnerFine(w'.inner, w'.rows, tenant, id)
            && (RowKey(tenant, id) in w.rows ==>
                  RowKey(tenant, id) in w'.rows && w'.rows[RowKey(tenant, id)] == w.rows[RowKey(tenant, id)])
  {
    var b := Batched(w.inner[k].payload);
    InnerReportedIs(w, tenant, id, k, how);
    InnerDrops(w.inner, w.rows, tenant, id, k);
    ReportGrows(w.rows, tenant, b, how.ok, how.now);
    assert InnerJob(w.inner[k], w.rows, tenant, id);
    RowKeysDiffer(tenant, b.batch, id);
    InnerKept(Drop(w.inner, k), w.rows, ReportRows(w.rows, tenant, b, how.ok, how.now), tenant, id);
  }

  lemma InnerOpened(w: World, tenant: string, id: string, k: nat, how: Work)
    requires RowKey(tenant, id) in w.rows && InnerFine(w.inner, w.rows, tenant, id) && AllBare(w.others)
    requires k < |w.inner| && w.inner[k].name == CHAINED_BATCH && Drawn(w, tenant, TakeInner(k, how))
    ensures var w' := Next(w, tenant, TakeInner(k, how));
            && w'.links == w.links && w'.jobs == w.jobs && w'.ran == w.ran && w'.oks == w.oks
            && AllBare(w'.others) && InnerFine(w'.inner, w'.rows, tenant, id)
            && RowKey(tenant, id) in w'.rows && w'.rows[RowKey(tenant, id)] == w.rows[RowKey(tenant, id)]
  {
    assert InnerJob(w.inner[k], w.rows, tenant, id);
    InnerDrops(w.inner, w.rows, tenant, id, k);
    OpensInside(w.(inner := Drop(w.inner, k)), tenant, w.inner[k], id, how);
  }

  lemma InnerTaken(w: World, tenant: string, chain: seq<Step>, c: Step, id: string, lost: nat, k: nat, how: Work)
    requires Keys.ValidTenant(tenant) && Works(w, tenant, chain, c, id, lost) && Drawn(w, tenant, TakeInner(k, how))
    requires k < |w.inner|
    ensures Works(Next(w, tenant, TakeInner(k, how)), tenant, chain, c, id, lost)
  {
    if w.inner[k].name == CHAINED_BATCH {
      InnerOpened(w, tenant, id, k, how);
    } else {
      InnerReported(w, tenant, id, k, how);
    }
    BesideTheBatch(w, Next(w, tenant, TakeInner(k, how)), tenant, chain, c, id, lost);
  }

  /** A step that leaves the batch at work and its row alone. */
  lemma BesideTheBatch(w: World, w': World, tenant: string, chain: seq<Step>, c: Step, id: string, lost: nat)
    requires Works(w, tenant, chain, c, id, lost) && 0 < lost
    requires w'.links == w.links && w'.jobs == w.jobs && w'.ran == w.ran && w'.oks == w.oks && AllBare(w'.others)
    requires InnerFine(w'.inner, w'.rows, tenant, id)
    requires RowKey(tenant, id) in w'.rows && w'.rows[RowKey(tenant, id)] == w.rows[RowKey(tenant, id)]
    ensures Works(w', tenant, chain, c, id, lost)
  {
    BusyKept(w.jobs, w.rows, w'.rows, tenant, id, OptionsAt(chain, c, |w.ran| - 1), lost);
  }

  // ------------------------------------------------------------- ordinary jobs

  lemma OtherStep(w: World, tenant: string, k: nat, how: Work)
    requires k < |w.others| && Bare(w.others[k])
    ensures Next(w, tenant, TakeOther(k, how)) == w.(others := Drop(w.others, k))
  {
    var out, b := w.(others := Drop(w.others, k)), Batched(w.others[k].payload);
    assert ReportMessages(w.rows, tenant, b, how.ok) + Follow(b, how.ok) == [];
    assert w.told + TellingOf(out, tenant, b, how.ok) == w.told;
    ArriveNone(out, true);
  }

  lemma BareDrops(ms: seq<Message>, k: nat)
    requires AllBare(ms) && k < |ms|
    ensures AllBare(Drop(ms, k))
  {
    DroppedAreOthers(ms, k);
  }

  lemma OtherKeeps(w: World, tenant: string, chain: seq<Step>, c: Step, k: nat, how: Work)
    requires Inv(w, tenant, chain, c) && k < |w.others|
    ensures Inv(Next(w, tenant, TakeOther(k, how)), tenant, chain, c)
  {
    OtherStep(w, tenant, k, how);
    BareDrops(w.others, k);
    var w' := w.(others := Drop(w.others, k));
    if !Waits(w, chain, c) && !Over(w, chain, c) {
      var id, lost :| Works(w, tenant, chain, c, id, lost);
      assert Works(w', tenant, chain, c, id, lost);
    }
  }

  // -------------------------------------------------------------------- a step

  lemma LinkKeeps(w: World, tenant: string, chain: seq<Step>, c: Step, k: nat, how: Work)
    requires Waits(w, chain, c) && Described(chain, c) && Drawn(w, tenant, TakeLink(k, how))
    ensures Inv(Next(w, tenant, TakeLink(k, how)), tenant, chain, c)
  {
    if k == 0 {
      assert chain[|w.ran|] in chain;
      if PlainLink(chain[|w.ran|]) {
        PlainKeeps(w, tenant, chain, c, how);
      } else {
        NestedKeeps(w, tenant, chain, c, how);
      }
    }
  }

  lemma WorkKeeps(w: World, tenant: string, chain: seq<Step>, c: Step, id: string, lost: nat, a: Action)
    requires Keys.ValidTenant(tenant) && Works(w, tenant, chain, c, id, lost) && Described(chain, c)
    requires Drawn(w, tenant, a) && !a.TakeOther?
    ensures Inv(Next(w, tenant, a), tenant, chain, c)
  {
    match a {
      case TakeLink(_, _) =>
      case TakeJob(k, how) =>
        if k < |w.jobs| {
          if w.jobs[k].name == CHAINED_BATCH {
            BatchTaken(w, tenant, chain, c, id, lost, k, how);
          } else {
            JobKeeps(w, tenant, chain, c, id, lost, k, how);
          }
        }
      case TakeInner(k, how) => if k < |w.inner| { InnerTaken(w, tenant, chain, c, id, lost, k, how); }
    }
  }

  lemma NextKeeps(w: World, tenant: string, chain: seq<Step>, c: Step, a: Action)
    requires Keys.ValidTenant(tenant) && Inv(w, tenant, chain, c) && Described(chain, c) && Drawn(w, tenant, a)
    ensures Inv(Next(w, tenant, a), tenant, chain, c)
  {
    if a.TakeOther? {
      if a.k < |w.others| { OtherKeeps(w, tenant, chain, c, a.k, a.how); }
    } else if Waits(w, chain, c) {
      if a.TakeLink? { LinkKeeps(w, tenant, chain, c, a.k, a.how); }
    } else if !Over(w, chain, c) {
      var id, lost :| Works(w, tenant, chain, c, id, lost);
      WorkKeeps(w, tenant, chain, c, id, lost, a);
    }
  }

  // ------------------------------------------------------------------- runs

  ghost predicate DrawnRun(w: World, tenant: string, actions: seq<Action>) {
    forall i :: 0 <= i < |actions| ==> Drawn(Exec(w, tenant, actions[..i]), tenant, actions[i])
  }

  lemma DrawnInit(w: World, tenant: string, actions: seq<Action>)
    requires DrawnRun(w, tenant, actions) && actions != []
    ensures var init := actions[..|actions| - 1];
            DrawnRun(w, tenant, init) && Drawn(Exec(w, tenant, init), tenant, actions[|actions| - 1])
  {
    var init := actions[..|actions| - 1];
    assert forall i :: 0 <= i < |init| ==> init[..i] == actions[..i];
  }

  lemma {:induction false} OrderAlways(tenant: string, chain: seq<Step>, c: Step, actions: seq<Action>)
    requires Keys.ValidTenant(tenant) && Described(chain, c) && DrawnRun(Dispatched(chain, c), tenant, actions)
    ensures Inv(Exec(Dispatched(chain, c), tenant, actions), tenant, chain, c)
  {
    if actions == [] {
      assert Waits(Dispatched(chain, c), chain, c);
    } else {
      DrawnInit(Dispatched(chain, c), tenant, actions);
      OrderAlways(tenant, chain, c, actions[..|actions| - 1]);
      NextKeeps(Exec(Dispatched(chain, c), tenant, actions[..|actions| - 1]), tenant, chain, c, actions[|actions| - 1]);
    }
  }

  /** At most one link outstanding, none beside the jobs of a batch; a prefix has run, each link carrying the rest. */
  ghost predicate Orderly(w: World, chain: seq<Step>, c: Step) {
    var n := |w.ran|;
    && |w.links| <= 1 && (w.links == [] || w.jobs == w.inner == []) && n == |w.oks| <= |chain|
    && (forall i :: 0 <= i < n ==>
          w.ran[i] == LinkAt(chain, c, i) && LinkAt(chain, c, i).payload.chain == chain[i + 1..])
    && (w.links != [] ==> n < |chain| && w.links[0] == LinkAt(chain, c, n))
    && (forall i :: 0 <= i < n - 1 ==> w.oks[i])
  }

  lemma InvMeans(w: World, tenant: string, chain: seq<Step>, c: Step)
    requires Inv(w, tenant, chain, c)
    ensures Orderly(w, chain, c)
  {
  }

  /**
   In every reachable state at most one link is outstanding, and none while the batch before it has
   jobs to report. The links taken are the first of the chain in order, each carrying exactly the
   links after it, and only the last of them can have failed.
   */
  lemma OneLinkAtATime(tenant: string, chain: seq<Step>, c: Step, actions: seq<Action>)
    requires Keys.ValidTenant(tenant) && Described(chain, c) && DrawnRun(Dispatched(chain, c), tenant, actions)
    ensures Orderly(Exec(Dispatched(chain, c), tenant, actions), chain, c)
  {
    OrderAlways(tenant, chain, c, actions);
    InvMeans(Exec(Dispatched(chain, c), tenant, actions), tenant, chain, c);
  }

  /** With nothing outstanding and no link failed, the chain is at its end, or behind a batch that holds a batch. */
  lemma RestsAt(w: World, tenant: string, chain: seq<Step>, c: Step)
    requires Inv(w, tenant, chain, c) && w.links == w.jobs == w.inner == [] && Well(w.oks)
    ensures 0 < |w.ran| <= |chain| && Passable(chain, |w.ran| - 1)
    ensures |w.ran| == |chain| || HoldsBatch(chain[|w.ran| - 1])
  {
  }

  /**
   A run that comes to rest with no link failed has run every link if and only if no link before the last
   is a batch that holds a batch: nobody reports the inner one to the outer.
   */
  lemma ComesToItsEndExactly(tenant: string, chain: seq<Step>, c: Step, actions: seq<Action>)
    requires Keys.ValidTenant(tenant) && Described(chain, c) && DrawnRun(Dispatched(chain, c), tenant, actions)
    requires var w := Exec(Dispatched(chain, c), tenant, actions); w.links == w.jobs == w.inner == [] && Well(w.oks)
    ensures |Exec(Dispatched(chain, c), tenant, actions).ran| == |chain| <==> Passable(chain, |chain| - 1)
  {
    OrderAlways(tenant, chain, c, actions);
    RestsAt(Exec(Dispatched(chain, c), tenant, actions), tenant, chain, c);
  }

  /** One job is left of the batch taken last, and none of its jobs was a batch. */
  ghost predicate Last(w: World, chain: seq<Step>) {
    |w.jobs| == 1 && 0 < |w.ran| <= |chain| && !HoldsBatch(chain[|w.ran| - 1])
  }

  lemma LastExactly(w: World, tenant: string, chain: seq<Step>, c: Step, id: string, lost: nat, k: nat)
    requires Works(w, tenant, chain, c, id, lost) && k < |w.jobs| && w.jobs[k].name != CHAINED_BATCH
    ensures Last(w, chain) <==> |w.jobs| == 1 && lost == 0
  {
  }

  lemma JobReleases(w: World, tenant: string, chain: seq<Step>, c: Step, id: string, lost: nat, k: nat, how: Work)
    requires Keys.ValidTenant(tenant) && Works(w, tenant, chain, c, id, lost) && Described(chain, c)
    requires k < |w.jobs| && w.jobs[k].name != CHAINED_BATCH
    ensures Next(w, tenant, TakeJob(k, how)).links
         == if Last(w, chain) && |w.ran| < |chain| then [LinkAt(chain, c, |w.ran|)] else []
  {
    LastExactly(w, tenant, chain, c, id, lost, k);
    var n := |w.ran|;
    NestedCallbacks(chain, c, n - 1);
    if n < |chain| { NextAfterNested(chain, c, n - 1); }
    JobStep(w, tenant, id, OptionsAt(chain, c, n - 1), lost, k, how);
  }

  /**
   The link after a batch is pushed by the last report of the batch, whatever the reports say, and not before;
   after a batch that holds a batch, by none of them.
   */
  lemma WaitsForTheBatch(tenant: string, chain: seq<Step>, c: Step, actions: seq<Action>, k: nat, how: Work)
    requires Keys.ValidTenant(tenant) && Described(chain, c) && DrawnRun(Dispatched(chain, c), tenant, actions)
    requires var w := Exec(Dispatched(chain, c), tenant, actions); k < |w.jobs| && w.jobs[k].name != CHAINED_BATCH
    ensures var w := Exec(Dispatched(chain, c), tenant, actions);
            Next(w, tenant, TakeJob(k, how)).links
            == if Last(w, chain) && |w.ran| < |chain| then [LinkAt(chain, c, |w.ran|)] else []
  {
    OrderAlways(tenant, chain, c, actions);
    var w := Exec(Dispatched(chain, c), tenant, actions);
    var id, lost :| Works(w, tenant, chain, c, id, lost);
    JobReleases(w, tenant, chain, c, id, lost, k, how);
  }

  // ----------------------------------------------------------- plain chains

  function FirstLinks(chain: seq<Step>, c: Step, k: nat): seq<Message>
    requires k <= |chain|
  {
    seq(k, i requires 0 <= i < k => LinkAt(chain, c, i))
  }

  /** Everything pushed: the links so far, the next one, or the Catch of the one that failed. */
  ghost predicate PlainLog(w: World, chain: seq<Step>, c: Step) {
    var n := |w.ran|;
    && w.jobs == w.inner == [] && n <= |chain|
    && w.log == if !Well(w.oks) then FirstLinks(chain, c, n) + CatchMessages(c)
                else FirstLinks(chain, c, if n < |chain| then n + 1 else n)
  }

  lemma FirstLinksGrow(chain: seq<Step>, c: Step, k: nat)
    requires k < |chain|
    ensures FirstLinks(chain, c, k + 1) == FirstLinks(chain, c, k) + [LinkAt(chain, c, k)]
  {
  }

  lemma PlainLogTakes(w: World, tenant: string, chain: seq<Step>, c: Step, how: Work)
    requires Waits(w, chain, c) && BareStep(c) && PlainLog(w, chain, c) && PlainLink(chain[|w.ran|])
    ensures PlainLog(Next(w, tenant, TakeLink(0, how)), chain, c)
  {
    PlainMoves(w, tenant, chain, c, how);
    PlainLogGrows(w, Next(w, tenant, TakeLink(0, how)), chain, c, how.ok);
  }

  lemma PlainLogGrows(w: World, w': World, chain: seq<Step>, c: Step, ok: bool)
    requires PlainLog(w, chain, c) && Well(w.oks) && |w.ran| < |chain|
    requires w'.oks == w.oks + [ok] && |w'.ran| == |w.ran| + 1 && w'.jobs == w'.inner == []
    requires w'.log == w.log + AfterPlain(chain, c, |w.ran|, ok)
    ensures PlainLog(w', chain, c)
  {
    if ok && |w.ran| + 1 < |chain| { FirstLinksGrow(chain, c, |w.ran| + 1); }
  }

  lemma LinksAreWaiting(w: World, tenant: string, chain: seq<Step>, c: Step)
    requires Inv(w, tenant, chain, c) && w.links != []
    ensures Waits(w, chain, c) && |w.links| == 1
  {
  }

  lemma OthersAreBare(w: World, tenant: string, chain: seq<Step>, c: Step)
    requires Inv(w, tenant, chain, c)
    ensures AllBare(w.others)
  {
  }

  lemma NoSuchLink(w: World, tenant: string, k: nat, how: Work)
    requires |w.links| <= k
    ensures Next(w, tenant, TakeLink(k, how)) == w
  {
  }

  lemma OneLinkWaits(w: World, chain: seq<Step>, c: Step, k: nat)
    requires Waits(w, chain, c) && k < |w.links|
    ensures k == 0 && chain[|w.ran|] in chain
  {
  }

  lemma PlainLogLink(w: World, tenant: string, chain: seq<Step>, c: Step, k: nat, how: Work)
    requires (w.links == [] || Waits(w, chain, c)) && BareStep(c) && PlainLog(w, chain, c)
    requires forall s :: s in chain ==> PlainLink(s)
    ensures PlainLog(Next(w, tenant, TakeLink(k, how)), chain, c)
  {
    if k < |w.links| {
      OneLinkWaits(w, chain, c, k);
      PlainLogTakes(w, tenant, chain, c, how);
    } else {
      NoSuchLink(w, tenant, k, how);
    }
  }

  lemma PlainLogOther(w: World, tenant: string, chain: seq<Step>, c: Step, k: nat, how: Work)
    requires AllBare(w.others) && PlainLog(w, chain, c)
    ensures PlainLog(Next(w, tenant, TakeOther(k, how)), chain, c)
  {
    if k < |w.others| { OtherStep(w, tenant, k, how); }
  }

  lemma PlainLogNoJob(w: World, tenant: string, chain: seq<Step>, c: Step, k: nat, how: Work)
    requires PlainLog(w, chain, c)
    ensures Next(w, tenant, TakeJob(k, how)) == w && Next(w, tenant, TakeInner(k, how)) == w
  {
  }

  lemma PlainLogKeeps(w: World, tenant: string, chain: seq<Step>, c: Step, a: Action)
    requires AllBare(w.others) && (w.links == [] || Waits(w, chain, c))
    requires BareStep(c) && PlainLog(w, chain, c) && forall s :: s in chain ==> PlainLink(s)
    ensures PlainLog(Next(w, tenant, a), chain, c)
  {
    match a {
      case TakeLink(k, how) => PlainLogLink(w, tenant, chain, c, k, how);
      case TakeJob(k, how) => PlainLogNoJob(w, tenant, chain, c, k, how);
      case TakeInner(k, how) => PlainLogNoJob(w, tenant, chain, c, k, how);
      case TakeOther(k, how) => PlainLogOther(w, tenant, chain, c, k, how);
    }
  }

  lemma {:induction false} PlainLogAlways(tenant: string, chain: seq<Step>, c: Step, actions: seq<Action>)
    requires Keys.ValidTenant(tenant) && Described(chain, c) && DrawnRun(Dispatched(chain, c), tenant, actions)
    requires forall s :: s in chain ==> PlainLink(s)
    ensures PlainLog(Exec(Dispatched(chain, c), tenant, actions), chain, c)
  {
    if actions == [] {
      assert FirstLinks(chain, c, 1) == [LinkMessage(chain, c)];
    } else {
      var init := actions[..|actions| - 1];
      DrawnInit(Dispatched(chain, c), tenant, actions);
      PlainLogAlways(tenant, chain, c, init);
      OrderAlways(tenant, chain, c, init);
      var w := Exec(Dispatched(chain, c), tenant, init);
      OthersAreBare(w, tenant, chain, c);
      if w.links != [] { LinksAreWaiting(w, tenant, chain, c); }
      PlainLogKeeps(w, tenant, chain, c, actions[|actions| - 1]);
    }
  }

  /** How a chain of plain links ends. */
  ghost predicate PlainEnd(w: World, chain: seq<Step>, c: Step) {
    var n := |w.ran|;
    && 0 < n == |w.oks| <= |chain| && w.ran == FirstLinks(chain, c, n) && (forall i :: 0 <= i < n - 1 ==> w.oks[i])
    && if w.oks[n - 1] then n == |chain| && w.log == FirstLinks(chain, c, n)
       else w.log == FirstLinks(chain, c, n) + CatchMessages(c)
  }

  lemma PlainIsOver(w: World, tenant: string, chain: seq<Step>, c: Step)
    requires Inv(w, tenant, chain, c) && w.links == w.jobs == w.inner == [] && Passable(chain, |chain|)
    ensures Prefix(w.ran, w.oks, chain, c) && 0 < |w.ran| && (|w.ran| == |chain| || !Well(w.oks))
  {
  }

  lemma PrefixIsFirst(ran: seq<Message>, oks: seq<bool>, chain: seq<Step>, c: Step)
    requires Prefix(ran, oks, chain, c)
    ensures ran == FirstLinks(chain, c, |ran|)
  {
  }

  lemma PlainLogEnds(w: World, chain: seq<Step>, c: Step)
    requires 0 < |w.ran| == |w.oks| <= |chain| && (|w.ran| == |chain| || !Well(w.oks)) && PlainLog(w, chain, c)
    requires w.ran == FirstLinks(chain, c, |w.ran|) && forall i :: 0 <= i < |w.ran| - 1 ==> w.oks[i]
    ensures PlainEnd(w, chain, c)
  {
  }

  /**
   A chain of plain links with no link outstanding has pushed, over its whole run, either all its
   links and nothing else, or the links up to the one that failed and then its Catch, once.
   */
  lemma PlainChainEnds(tenant: string, chain: seq<Step>, c: Step, actions: seq<Action>)
    requires Keys.ValidTenant(tenant) && Described(chain, c) && DrawnRun(Dispatched(chain, c), tenant, actions)
    requires (forall s :: s in chain ==> PlainLink(s)) && Exec(Dispatched(chain, c), tenant, actions).links == []
    ensures PlainEnd(Exec(Dispatched(chain, c), tenant, actions), chain, c)
  {
    PlainLogAlways(tenant, chain, c, actions);
    OrderAlways(tenant, chain, c, actions);
    assert Passable(chain, |chain|) by { assert forall i :: 0 <= i < |chain| ==> chain[i] in chain; }
    var w := Exec(Dispatched(chain, c), tenant, actions);
    PlainIsOver(w, tenant, chain, c);
    PrefixIsFirst(w.ran, w.oks, chain, c);
    PlainLogEnds(w, chain, c);
  }

  // -------------------------------------------- a worker that reports it all

  /**
   A worker that reports every job it ran, a nested batch too, pushes the link after the batch while
   the batch has jobs to report, exactly when there is such a link.
   */
  lemma ReportedBatchRunsAhead(w: World, tenant: string, chain: seq<Step>, c: Step, how: Work)
    requires Waits(w, chain, c) && Described(chain, c) && NestedLink(chain[|w.ran|])
    requires Drawn(w, tenant, TakeLink(0, how))
    ensures var w', b := Next(w, tenant, TakeLink(0, how)), Batched(w.links[0].payload);
            var reported := Reported(w', tenant, b, true, how.now);
            reported.jobs != [] && (reported.links != [] <==> |w.ran| + 1 < |chain|)
  {
    NestedStep(w, tenant, chain, c, how);
    JobMessagesLength(RowAt(tenant, chain, c, |w.ran|, how.id), chain[|w.ran|].payload.jobs, how.ids);
    RunsAhead(Next(w, tenant, TakeLink(0, how)), tenant, chain, c, |w.ran|, how.now);
  }

  lemma RunsAhead(w: World, tenant: string, chain: seq<Step>, c: Step, n: nat, now: int)
    requires n < |chain| && w.links == [] && w.jobs != []
    ensures var reported := Reported(w, tenant, Batched(LinkAt(chain, c, n).payload), true, now);
            reported.jobs != [] && (reported.links != [] <==> n + 1 < |chain|)
  {
    var b := Batched(LinkAt(chain, c, n).payload);
    assert ReportMessages(w.rows, tenant, b, true) + Follow(b, true) == Follow(b, true);
    var out := w.(told := w.told + TellingOf(w, tenant, b, true));
    ArriveNone(out, true);
    if n + 1 < |chain| { ArriveOne(out, LinkMessage(chain[n + 1..], c)); }
  }
}
