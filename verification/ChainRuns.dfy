/**
 Whole runs of a chain, with every message delivered once and in any order: what each delivery does to
 the queue and to the batches, and how the jobs of a batch at work are counted.
 */
module ChainRuns {
  import opened Batches
  import opened Queues
  import opened BatchMemory
  import opened BatchCallbacks
  import opened Chains
  import Keys

  // ------------------------------------------------------------- the queue

  predicate IsLink(m: Message) {
    m.payload.Enveloped? && m.payload.batch == ""
  }

  predicate IsJob(m: Message) {
    m.payload.Enveloped? && m.payload.batch != ""
  }

  /** A job of the application's own, in no envelope. */
  predicate Bare(m: Message) {
    m.payload.Raw? && m.name != CHAINED_BATCH
  }

  function Links(ms: seq<Message>): seq<Message> {
    if ms == [] then [] else Links(ms[..|ms| - 1]) + if IsLink(ms[|ms| - 1]) then [ms[|ms| - 1]] else []
  }

  function Jobs(ms: seq<Message>): seq<Message> {
    if ms == [] then [] else Jobs(ms[..|ms| - 1]) + if IsJob(ms[|ms| - 1]) then [ms[|ms| - 1]] else []
  }

  function Others(ms: seq<Message>): seq<Message> {
    if ms == [] then []
    else Others(ms[..|ms| - 1]) + if IsLink(ms[|ms| - 1]) || IsJob(ms[|ms| - 1]) then [] else [ms[|ms| - 1]]
  }

  lemma {:induction false} LinksJoin(a: seq<Message>, b: seq<Message>)
    ensures Links(a + b) == Links(a) + Links(b)
  {
    if b == [] {
      assert a + b == a;
    } else {
      assert (a + b)[..|a + b| - 1] == a + b[..|b| - 1];
      LinksJoin(a, b[..|b| - 1]);
    }
  }

  lemma {:induction false} JobsJoin(a: seq<Message>, b: seq<Message>)
    ensures Jobs(a + b) == Jobs(a) + Jobs(b)
  {
    if b == [] {
      assert a + b == a;
    } else {
      assert (a + b)[..|a + b| - 1] == a + b[..|b| - 1];
      JobsJoin(a, b[..|b| - 1]);
    }
  }

  lemma {:induction false} OthersJoin(a: seq<Message>, b: seq<Message>)
    ensures Others(a + b) == Others(a) + Others(b)
  {
    if b == [] {
      assert a + b == a;
    } else {
      assert (a + b)[..|a + b| - 1] == a + b[..|b| - 1];
      OthersJoin(a, b[..|b| - 1]);
    }
  }

  lemma KindsJoin(a: seq<Message>, b: seq<Message>)
    ensures Links(a + b) == Links(a) + Links(b) && Jobs(a + b) == Jobs(a) + Jobs(b)
    ensures Others(a + b) == Others(a) + Others(b)
  {
    LinksJoin(a, b);
    JobsJoin(a, b);
    OthersJoin(a, b);
  }

  lemma OneKind(m: Message)
    ensures Links([m]) == (if IsLink(m) then [m] else []) && Jobs([m]) == (if IsJob(m) then [m] else [])
    ensures Others([m]) == if IsLink(m) || IsJob(m) then [] else [m]
  {
    assert [m][..0] == [];
  }

  // ------------------------------------------------------------- the world

  /** A report made to a batch: how it went, where the log stood, and what it called for. */
  datatype Telling = Telling(batch: string, ok: bool, from: nat, effects: seq<Effect>)

  /**
   The queue by kind, since its messages arrive in any order: links, jobs of the batch that is a link, jobs
   of batches inside it, all others. Then the rows, every push so far, the links taken so far with how each
   went and the id its batch was given, and every report made.
   */
  datatype World = World(links: seq<Message>, jobs: seq<Message>, inner: seq<Message>, others: seq<Message>,
                         rows: map<string, Batch>, log: seq<Message>, ran: seq<Message>, oks: seq<bool>,
                         ids: seq<string>, told: seq<Telling>)

  function Arrive(w: World, ms: seq<Message>, inside: bool): World {
    w.(links := w.links + Links(ms), jobs := if inside then w.jobs else w.jobs + Jobs(ms),
       inner := if inside then w.inner + Jobs(ms) else w.inner, others := w.others + Others(ms), log := w.log + ms)
  }

  function TellingOf(w: World, tenant: string, b: Member, ok: bool): seq<Telling> {
    if !Chains.Reporting(w.rows, tenant, b) then []
    else [Telling(b.batch, ok, |w.log|, Effects(ReportOf(b, ok), CountsAfter(w.rows, tenant, b, ok)))]
  }

  /** What a worker does after an ordinary job: Handled. */
  function Reported(w: World, tenant: string, b: Member, ok: bool, now: int): World {
    Arrive(w.(rows := ReportRows(w.rows, tenant, b, ok, now), told := w.told + TellingOf(w, tenant, b, ok)),
           ReportMessages(w.rows, tenant, b, ok) + Follow(b, ok), true)
  }

  /** What a worker does with a job that is a batch: it is dispatched. */
  function Opened(w: World, tenant: string, b: Member, id: string, ids: seq<string>, inside: bool): World {
    if !Dispatchable(b.body) || |b.body.jobs| > |ids| then w
    else
      var row := NewBatch(id, tenant, |b.body.jobs|, PendingOptions(b.body, b.chain, b.chainCatch));
      Arrive(w.(rows := w.rows[RowKey(tenant, id) := row]), DispatchMessages(row, b.body.jobs, ids), inside)
  }

  /** How the work on one message goes and what it draws on. */
  datatype Work = Work(ok: bool, id: string, ids: seq<string>, now: int)

  function Worked(w: World, tenant: string, m: Message, how: Work, inside: bool): World {
    if m.name == CHAINED_BATCH then Opened(w, tenant, Batched(m.payload), how.id, how.ids, inside)
    else Reported(w, tenant, Batched(m.payload), how.ok, how.now)
  }

  /** Which message is taken, of those of its kind. */
  datatype Action =
    | TakeLink(k: nat, how: Work)
    | TakeJob(k: nat, how: Work)
    | TakeInner(k: nat, how: Work)
    | TakeOther(k: nat, how: Work)

  function Drop<T>(s: seq<T>, k: nat): seq<T>
    requires k < |s|
  {
    s[..k] + s[k + 1..]
  }

  /** A link leaves the queue and joins the links taken. */
  function LinkOut(w: World, k: nat, how: Work): World
    requires k < |w.links|
  {
    var nested := w.links[k].name == CHAINED_BATCH;
    w.(links := Drop(w.links, k), ran := w.ran + [w.links[k]], oks := w.oks + [how.ok || nested],
       ids := w.ids + [if nested then how.id else ""])
  }

  function Next(w: World, tenant: string, a: Action): World {
    match a
    case TakeLink(k, how) =>
      if k >= |w.links| then w else Worked(LinkOut(w, k, how), tenant, w.links[k], how, false)
    case TakeJob(k, how) =>
      if k >= |w.jobs| then w else Worked(w.(jobs := Drop(w.jobs, k)), tenant, w.jobs[k], how, true)
    case TakeInner(k, how) =>
      if k >= |w.inner| then w else Worked(w.(inner := Drop(w.inner, k)), tenant, w.inner[k], how, true)
    case TakeOther(k, how) =>
      if k >= |w.others| then w else Worked(w.(others := Drop(w.others, k)), tenant, w.others[k], how, true)
  }

  function Exec(w: World, tenant: string, actions: seq<Action>): World {
    if actions == [] then w else Next(Exec(w, tenant, actions[..|actions| - 1]), tenant, actions[|actions| - 1])
  }

  // ------------------------------------------------------- the chains meant

  predicate BareStep(s: Step) {
    s.payload.Raw? && s.name != CHAINED_BATCH
  }

  predicate BareOptions(o: Options) {
    forall c :: BareStep(CallbackStep(o, c))
  }

  /** A payload whose callbacks, and those of every batch inside it, are ordinary jobs. */
  predicate Ordinary(p: Payload) {
    p.Nested? ==> BareOptions(p.options) && forall j :: j in p.jobs ==> Ordinary(j.payload)
  }

  predicate PlainLink(s: Step) {
    s.name != "" && s.name != CHAINED_BATCH
  }

  /** A batch as a link. */
  predicate NestedLink(s: Step) {
    s.name == CHAINED_BATCH && Dispatchable(s.payload) && Ordinary(s.payload)
  }

  /** One of its jobs is a batch again. */
  predicate HoldsBatch(s: Step) {
    NestedLink(s) && exists j :: j in s.payload.jobs && j.name == CHAINED_BATCH
  }

  /** The links and the Catch of a chain, with their queues settled. */
  predicate Described(chain: seq<Step>, chainCatch: Step) {
    chain != [] && BareStep(chainCatch) && forall s :: s in chain ==> PlainLink(s) || NestedLink(s)
  }

  function OptionsAt(chain: seq<Step>, c: Step, i: nat): Options
    requires i < |chain| && chain[i].payload.Nested?
  {
    PendingOptions(chain[i].payload, chain[i + 1..], c)
  }

  /** The queue link i is pushed on: its own, or what the batch it follows has for it. */
  function QueueAt(chain: seq<Step>, c: Step, i: nat): string
    requires i < |chain|
  {
    if chain[i].queue != "" || i == 0 || chain[i - 1].name != CHAINED_BATCH || !chain[i - 1].payload.Nested?
    then chain[i].queue
    else if chain[i - 1].payload.chainQueue != "" then chain[i - 1].payload.chainQueue
    else OptionsAt(chain, c, i - 1).queue
  }

  /** The message of link i, carrying the links after it. */
  function LinkAt(chain: seq<Step>, c: Step, i: nat): Message
    requires i < |chain|
  {
    Message(QueueAt(chain, c, i), chain[i].name, Enveloped("", "", chain[i + 1..], c, chain[i].payload))
  }

  /** A link is pushed on the queue settled at dispatch, except a link without one after a batch with one. */
  lemma QueueAtExactly(chain: seq<Step>, c: Step, i: nat)
    requires Described(chain, c) && i < |chain|
    ensures QueueAt(chain, c, i) == chain[i].queue <==>
            || chain[i].queue != "" || i == 0 || PlainLink(chain[i - 1])
            || (var n := chain[i - 1].payload; n.chainQueue == "" && n.queue == "" && n.options.queue == "")
  {
    if i > 0 { assert chain[i - 1] in chain; }
  }

  // ------------------------------------------------------- a batch at work

  /** A job of a batch, as it is pushed. */
  predicate JobLike(m: Message) {
    && m.payload.Enveloped? && m.payload.batch != "" && m.payload.job != ""
    && m.payload.chain == [] && m.payload.chainCatch == NO_STEP && Ordinary(m.payload.body)
  }

  /**
   The jobs of a batch still to report, and those taken that never will because they were batches
   themselves, are what pending less failed counts.
   */
  ghost predicate Busy(jobs: seq<Message>, rows: map<string, Batch>, tenant: string, id: string, o: Options, lost: nat)
  {
    && id != "" && RowKey(tenant, id) in rows
    && (forall i :: 0 <= i < |jobs| ==> JobLike(jobs[i]) && jobs[i].payload.batch == id)
    && (forall i, j :: 0 <= i < j < |jobs| ==> jobs[i].payload.job != jobs[j].payload.job)
    && Counting(jobs, rows[RowKey(tenant, id)], o, lost)
  }

  ghost predicate Counting(jobs: seq<Message>, row: Batch, o: Options, lost: nat) {
    && Tidy(row) && row.options == o && row.pending - row.failed == |jobs| + lost
    && forall m :: m in jobs && m.payload.Enveloped? ==> m.payload.job !in row.failedIds
  }

  lemma {:induction false} StampedKeeps(b: Batch, effects: seq<Effect>, now: int)
    ensures var s := Stamped(b, effects, now);
            s.options == b.options && s.pending == b.pending && s.failed == b.failed && s.failedIds == b.failedIds
  {
    if effects != [] { StampedKeeps(b, effects[..|effects| - 1], now); }
  }

  lemma DroppedAreOthers(jobs: seq<Message>, k: nat)
    requires k < |jobs|
    ensures forall i :: 0 <= i < |Drop(jobs, k)| ==> Drop(jobs, k)[i] == jobs[if i < k then i else i + 1]
    ensures forall m :: m in Drop(jobs, k) ==> m in jobs
  {
  }

  /** One of them is gone unreported, or reports: the others are counted as before. */
  lemma JobCounted(jobs: seq<Message>, row: Batch, o: Options, lost: nat, k: nat, r: Report)
    requires Counting(jobs, row, o, lost) && k < |jobs| && (forall i :: 0 <= i < |jobs| ==> jobs[i].payload.Enveloped?)
    requires forall i, j :: 0 <= i < j < |jobs| ==> jobs[i].payload.job != jobs[j].payload.job
    requires r.job == jobs[k].payload.job && r.job != ""
    ensures Counting(Drop(jobs, k), Apply(row, r), o, lost)
    ensures Apply(row, r).failed == row.failed + One(r.Failure?)
  {
    assert jobs[k] in jobs;
    ApplyMoves(row, r);
    WithFailureAdds(row.failedIds, r.job);
    WithoutFailureRemoves(row.failedIds, r.job);
    DroppedAreOthers(jobs, k);
    forall m | m in Drop(jobs, k) ensures m in jobs && m.payload.Enveloped? && m.payload.job != r.job {
      var i :| 0 <= i < |Drop(jobs, k)| && Drop(jobs, k)[i] == m;
      assert m == jobs[if i < k then i else i + 1];
    }
  }

  lemma JobReports(jobs: seq<Message>, rows: map<string, Batch>, tenant: string, id: string, o: Options, lost: nat,
                   k: nat, ok: bool, now: int)
    requires Keys.ValidTenant(tenant) && Busy(jobs, rows, tenant, id, o, lost) && k < |jobs|
    ensures var b := Batched(jobs[k].payload);
            && Chains.Reporting(rows, tenant, b) && CountsAfter(rows, tenant, b, ok).batch.options == o
            && (AllReported(CountsAfter(rows, tenant, b, ok)) <==> |jobs| == 1 && lost == 0)
            && CountsAfter(rows, tenant, b, ok).failed == rows[RowKey(tenant, id)].failed + One(!ok)
            && Busy(Drop(jobs, k), ReportRows(rows, tenant, b, ok, now), tenant, id, o, lost)
  {
    var b := Batched(jobs[k].payload);
    var r := ReportOf(b, ok);
    JobCounted(jobs, rows[RowKey(tenant, id)], o, lost, k, r);
    var c := CountsAfter(rows, tenant, b, ok);
    StampedKeeps(c.batch, Effects(r, c), now);
    DroppedAreOthers(jobs, k);
  }

  lemma JobLost(jobs: seq<Message>, rows: map<string, Batch>, tenant: string, id: string, o: Options, lost: nat, k: nat)
    requires Busy(jobs, rows, tenant, id, o, lost) && k < |jobs|
    ensures Busy(Drop(jobs, k), rows, tenant, id, o, lost + 1)
  {
    DroppedAreOthers(jobs, k);
  }

  // ------------------------------------------------- what the callbacks are

  predicate BareBesideFinally(o: Options) {
    forall c :: c != Finally ==> BareStep(CallbackStep(o, c))
  }

  /** No job of a batch, no link but this one, and the rest ordinary. */
  ghost predicate OnlyLink(ms: seq<Message>, f: Message) {
    Jobs(ms) == [] && (forall m :: m in Others(ms) ==> Bare(m)) && forall m :: m in Links(ms) ==> m == f
  }

  lemma OnlyLinkJoins(ms: seq<Message>, m: Message, f: Message)
    requires OnlyLink(ms, f) && (Bare(m) || (IsLink(m) && m == f))
    ensures OnlyLink(ms + [m], f) && |Links(ms + [m])| == |Links(ms)| + if IsLink(m) then 1 else 0
  {
    KindsJoin(ms, [m]);
    OneKind(m);
  }

  lemma CallbackKind(o: Options, c: Callback)
    requires BareBesideFinally(o) && (IsLink(CallbackMessage(o, o.onFinally)) || BareStep(o.onFinally))
    ensures var m := CallbackMessage(o, CallbackStep(o, c));
            if c == Finally then m == CallbackMessage(o, o.onFinally) && (IsLink(m) || Bare(m)) else Bare(m)
  {
  }

  /** Of what a report pushes, only Finally can be a link, and nothing is a job of a batch. */
  lemma {:induction false} PushedKinds(o: Options, effects: seq<Effect>)
    requires BareBesideFinally(o) && (IsLink(CallbackMessage(o, o.onFinally)) || BareStep(o.onFinally))
    ensures OnlyLink(Pushed(o, effects), CallbackMessage(o, o.onFinally))
    ensures |Links(Pushed(o, effects))|
         == if IsLink(CallbackMessage(o, o.onFinally)) then Occurs(effects, Push(Finally)) else 0
  {
    if effects != [] {
      var n := |effects| - 1;
      var before := Pushed(o, effects[..n]);
      PushedKinds(o, effects[..n]);
      if effects[n].Push? {
        CallbackKind(o, effects[n].callback);
        OnlyLinkJoins(before, CallbackMessage(o, CallbackStep(o, effects[n].callback)),
                      CallbackMessage(o, o.onFinally));
      } else {
        assert Pushed(o, effects) == before;
      }
    }
  }

  /** What the report of a batch's job pushes: ordinary jobs, and the link in Finally when it is the last. */
  lemma ReportKinds(o: Options, r: Report, c: Counts)
    requires c.batch.options == o && BareBesideFinally(o)
    requires (IsLink(CallbackMessage(o, o.onFinally)) && o.onFinally.Declared()) || BareStep(o.onFinally)
    ensures var ms, f := Pushed(o, Effects(r, c)), CallbackMessage(o, o.onFinally);
            && Jobs(ms) == [] && (forall m :: m in Others(ms) ==> Bare(m))
            && Links(ms) == if AllReported(c) && IsLink(f) then [f] else []
  {
    ReportAsks(r, c, Push(Finally));
    PushedKinds(o, Effects(r, c));
    var ls := Links(Pushed(o, Effects(r, c)));
    assert forall i :: 0 <= i < |ls| ==> ls[i] in ls;
  }

  lemma {:induction false} JobMessageKinds(b: Batch, jobs: seq<Step>, ids: seq<string>)
    requires |jobs| <= |ids| && b.id != ""
    ensures Links(JobMessages(b, jobs, ids)) == [] && Others(JobMessages(b, jobs, ids)) == []
    ensures Jobs(JobMessages(b, jobs, ids)) == JobMessages(b, jobs, ids)
  {
    if jobs != [] {
      var n := |jobs| - 1;
      JobMessageKinds(b, jobs[..n], ids);
      KindsJoin(JobMessages(b, jobs[..n], ids), [JobMessage(b, jobs[n], ids[n])]);
      OneKind(JobMessage(b, jobs[n], ids[n]));
    }
  }
}
