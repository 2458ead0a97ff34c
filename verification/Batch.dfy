/**
 Jobs, batches and what one report does to a batch's counters. JSON is left as the value it
 encodes: a payload is raw bytes, an envelope, or a batch that is one link of a chain.
 */
module Batches {
  import opened Wrappers

  datatype Payload =
    | Raw(bytes: string)
    | Enveloped(batch: string, job: string, chain: seq<Step>, chainCatch: Step, body: Payload)
    | Nested(name: string, jobs: seq<Step>, options: Options, queue: string, connection: string, chainQueue: string)

  datatype Step = Step(queue: string, name: string, payload: Payload) {
    predicate Declared() { name != "" }
  }

  const NO_STEP: Step := Step("", "", Raw(""))

  datatype Options = Options(queue: string, connection: string, allowFailures: bool, before: Step, progress: Step,
                             onThen: Step, onCatch: Step, failure: Step, onFinally: Step)

  /** A row of job_batches; a stamp that is None is a zero time. */
  datatype Batch = Batch(id: string, tenant: string, total: int, pending: int, failed: int,
                         failedIds: seq<string>, options: Options,
                         cancelledAt: Option<int>, finishedAt: Option<int>)

  datatype Report = Success(job: string) | Failure(job: string)

  /** UpdatedBatchJobCounts: the counters of the batch it carries are the two it repeats. */
  datatype Counts = Counts(pending: int, failed: int, batch: Batch)

  function CountsOf(b: Batch): Counts {
    Counts(b.pending, b.failed, b)
  }

  // ------------------------------------------------------- the failed list

  /** Byte order, as slices.Sort compares strings. */
  predicate Before(a: string, b: string) {
    if b == "" then false
    else if a == "" then true
    else if a[0] != b[0] then a[0] < b[0]
    else Before(a[1..], b[1..])
  }

  function Insert(ids: seq<string>, x: string): seq<string> {
    if ids == [] then [x]
    else if Before(x, ids[0]) then [x] + ids
    else [ids[0]] + Insert(ids[1..], x)
  }

  function Sort(ids: seq<string>): seq<string> {
    if ids == [] then [] else Insert(Sort(ids[..|ids| - 1]), ids[|ids| - 1])
  }

  function Delete(ids: seq<string>, x: string): seq<string> {
    if ids == [] then []
    else (if ids[0] == x then [] else [ids[0]]) + Delete(ids[1..], x)
  }

  function WithFailure(ids: seq<string>, job: string): seq<string> {
    if job == "" || job in ids then ids else Sort(ids + [job])
  }

  function WithoutFailure(ids: seq<string>, job: string): seq<string> {
    if job == "" then ids else Delete(ids, job)
  }

  ghost predicate Ascending(ids: seq<string>) {
    forall i, j :: 0 <= i < j < |ids| ==> Before(ids[i], ids[j])
  }

  /** A strict total order. */
  lemma {:induction false} BeforeIsStrict(a: string, b: string)
    ensures !(Before(a, b) && Before(b, a))
    ensures a != b <==> Before(a, b) || Before(b, a)
  {
    if a != "" && b != "" && a[0] == b[0] {
      BeforeIsStrict(a[1..], b[1..]);
      assert a == [a[0]] + a[1..] && b == [b[0]] + b[1..];
    }
  }

  lemma {:induction false} BeforeIsTransitive(a: string, b: string, c: string)
    requires Before(a, b) && Before(b, c)
    ensures Before(a, c)
  {
    if a != "" && a[0] == b[0] && b[0] == c[0] { BeforeIsTransitive(a[1..], b[1..], c[1..]); }
  }

  lemma {:induction false} InsertPlaces(ids: seq<string>, x: string)
    requires Ascending(ids) && x !in ids
    ensures Ascending(Insert(ids, x)) && |Insert(ids, x)| == |ids| + 1
    ensures forall y :: y in Insert(ids, x) <==> y in ids || y == x
  {
    if ids != [] {
      var head, tail := ids[0], ids[1..];
      assert ids == [head] + tail;
      BeforeIsStrict(x, head);
      if Before(x, head) {
        forall j | 0 <= j < |ids| ensures Before(x, ids[j]) {
          if j > 0 { BeforeIsTransitive(x, head, ids[j]); }
        }
      } else {
        InsertPlaces(tail, x);
        var rest := Insert(tail, x);
        forall j | 0 <= j < |rest| ensures Before(head, rest[j]) {
          assert rest[j] in rest;
        }
      }
    }
  }

  lemma {:induction false} InsertLast(ids: seq<string>, x: string)
    requires forall y :: y in ids ==> Before(y, x)
    ensures Insert(ids, x) == ids + [x]
  {
    if ids != [] {
      assert ids[0] in ids;
      BeforeIsStrict(ids[0], x);
      InsertLast(ids[1..], x);
      assert ids == [ids[0]] + ids[1..];
    }
  }

  lemma {:induction false} SortKeepsAscending(ids: seq<string>)
    requires Ascending(ids)
    ensures Sort(ids) == ids
  {
    if ids != [] {
      var init, last := ids[..|ids| - 1], ids[|ids| - 1];
      SortKeepsAscending(init);
      InsertLast(init, last);
      assert ids == init + [last];
    }
  }

  /** A failure joins the list once, in its place. */
  lemma WithFailureAdds(ids: seq<string>, job: string)
    requires Ascending(ids) && job != ""
    ensures var out := WithFailure(ids, job);
            && Ascending(out)
            && |out| == |ids| + (if job in ids then 0 else 1)
            && forall y :: y in out <==> y in ids || y == job
  {
    if job !in ids {
      SortKeepsAscending(ids);
      assert (ids + [job])[..|ids|] == ids;
      InsertPlaces(ids, job);
    }
  }

  lemma {:induction false} WithoutFailureRemoves(ids: seq<string>, job: string)
    requires Ascending(ids) && job != ""
    ensures var out := WithoutFailure(ids, job);
            && Ascending(out)
            && |out| == |ids| - (if job in ids then 1 else 0)
            && forall y :: y in out <==> y in ids && y != job
  {
    if ids != [] {
      var head, tail := ids[0], ids[1..];
      assert ids == [head] + tail;
      WithoutFailureRemoves(tail, job);
      var rest := Delete(tail, job);
      forall j | 0 <= j < |rest| ensures Before(head, rest[j]) {
        assert rest[j] in rest;
      }
      BeforeIsStrict(head, head);
      assert head !in tail;
    }
  }

  /**
   Two lists kept this way that hold the same jobs are the same list, so two workers cannot
   write two encodings of one set.
   */
  lemma {:induction false} OneEncoding(a: seq<string>, b: seq<string>)
    requires Ascending(a) && Ascending(b)
    requires forall y :: y in a <==> y in b
    ensures a == b
  {
    assert (a != [] ==> a[0] in a) && (b != [] ==> b[0] in b);
    if a != [] && b != [] {
      var x, y := a[0], b[0];
      BeforeIsStrict(x, y);
      assert x in b && y in a;
      var i :| 0 <= i < |b| && b[i] == x;
      var j :| 0 <= j < |a| && a[j] == y;
      assert x == y;
      BeforeIsStrict(x, x);
      assert a == [x] + a[1..] && b == [x] + b[1..];
      assert x !in a[1..] && x !in b[1..];
      forall z ensures z in a[1..] <==> z in b[1..] {
        assert z in a <==> z == x || z in a[1..];
        assert z in b <==> z == x || z in b[1..];
      }
      OneEncoding(a[1..], b[1..]);
    }
  }

  // ---------------------------------------------------------- the counters

  /** The change DecrementPendingJobs or IncrementFailedJobs hands to update. */
  function Apply(b: Batch, r: Report): Batch {
    match r
    case Success(job) =>
      var ids := WithoutFailure(b.failedIds, job);
      b.(pending := b.pending - 1, failedIds := ids, failed := |ids|)
    case Failure(job) =>
      if job == "" then b.(failed := b.failed + 1)
      else
        var ids := WithFailure(b.failedIds, job);
        b.(failedIds := ids, failed := |ids|)
  }

  function AddJobs(b: Batch, amount: int): Batch {
    if amount <= 0 then b
    else b.(total := b.total + amount, pending := b.pending + amount, finishedAt := None)
  }

  function MarkFinished(b: Batch, at: int): Batch {
    if b.finishedAt.Some? then b else b.(finishedAt := Some(at))
  }

  function Cancelled(b: Batch, at: int): Batch {
    if b.cancelledAt.Some? then b else b.(cancelledAt := Some(at), finishedAt := Some(at))
  }

  /** What every row a batch with named jobs can have satisfies. */
  ghost predicate Tidy(b: Batch) {
    Ascending(b.failedIds) && "" !in b.failedIds && b.failed == |b.failedIds|
  }

  /** One report of a named job: a success always moves pending, a failure moves failed or nothing. */
  lemma ApplyMoves(b: Batch, r: Report)
    requires Tidy(b) && r.job != ""
    ensures Tidy(Apply(b, r))
    ensures r.Success? ==> Apply(b, r).pending == b.pending - 1
    ensures r.Failure? ==> Apply(b, r).pending == b.pending
    ensures r.Failure? ==> Apply(b, r).failed == b.failed + (if r.job in b.failedIds then 0 else 1)
    ensures r.Failure? && r.job in b.failedIds ==> Apply(b, r) == b
  {
    WithFailureAdds(b.failedIds, r.job);
    WithoutFailureRemoves(b.failedIds, r.job);
  }

  // --------------------------------------------------------- the callbacks

  datatype Callback = Before_ | Progress | Then | Catch | OnFailure | Finally

  /** What a report goes on to do, in order: a callback pushed, the batch finished or cancelled. */
  datatype Effect = Push(callback: Callback) | Finish | Cancel

  /** An effect and the condition it is carried out under. */
  datatype Guarded = Guarded(when: bool, effect: Effect)

  function Chosen(guards: seq<Guarded>): seq<Effect> {
    if guards == [] then []
    else
      var n := |guards| - 1;
      if guards[n].when then Chosen(guards[..n]) + [guards[n].effect] else Chosen(guards[..n])
  }

  predicate AllReported(c: Counts) {
    c.pending - c.failed == 0
  }

  /** The branches of RecordSuccessfulJob and RecordFailedJob, once the counters have come back. */
  function Guards(r: Report, c: Counts): seq<Guarded> {
    var o := c.batch.options;
    match r
    case Success(_) =>
      [Guarded(o.progress.Declared(), Push(Progress)),
       Guarded(c.pending == 0, Finish),
       Guarded(c.pending == 0 && o.onThen.Declared(), Push(Then)),
       Guarded(AllReported(c) && o.onFinally.Declared(), Push(Finally))]
    case Failure(_) =>
      [Guarded(c.failed == 1 && !o.allowFailures, Cancel),
       Guarded(o.allowFailures && o.progress.Declared(), Push(Progress)),
       Guarded(o.allowFailures && o.failure.Declared(), Push(OnFailure)),
       Guarded(c.failed == 1 && o.onCatch.Declared(), Push(Catch)),
       Guarded(AllReported(c) && o.onFinally.Declared(), Push(Finally))]
  }

  function Effects(r: Report, c: Counts): seq<Effect> {
    Chosen(Guards(r, c))
  }
}
