/**
 The fixed-window limiter: a counter per bucket of time, counted before it is answered,
 and the release that gives an attempt back in two or three separate store calls.
 Times are nanoseconds since the unix epoch.
 */
module RateLimiters {
  import opened Wrappers
  import opened ArrayStores
  import Numerals
  import Keys

  /** `key` is the caller's key after CleanRateLimiterKey has folded it. */
  datatype Limit = Limit(key: string, maxAttempts: int, decay: int)

  datatype LimitError = NoKey | NoWindow | ClosedDoor | Store(answer: Answer)

  datatype Outcome = Outcome(ok: bool, attempts: int, remaining: int, retryAfter: int)

  /** Go's integer division and remainder, which truncate toward zero. */
  function Quo(a: int, b: int): int
    requires 0 < b
  {
    if 0 <= a then a / b else -((-a) / b)
  }

  function Rem(a: int, b: int): int
    requires 0 < b
  {
    a - b * Quo(a, b)
  }

  predicate Countable(l: Limit) {
    l.key != "" && 0 < l.decay && 0 < l.maxAttempts
  }

  function Bucket(l: Limit, now: int): int
    requires 0 < l.decay
  {
    Quo(now, l.decay)
  }

  function CounterKey(l: Limit, bucket: int): string {
    "ratelimit:" + l.key + ":" + Numerals.FormatInt(bucket)
  }

  function Key(l: Limit, now: int): Result<string, LimitError> {
    if l.key == "" then Err(NoKey)
    else if l.decay <= 0 then Err(NoWindow)
    else if l.maxAttempts <= 0 then Err(ClosedDoor)
    else Ok(CounterKey(l, Bucket(l, now)))
  }

  /** A limit has a counter exactly if it has a key, a window and room; what is missing first is what is said. */
  lemma KeyExactly(l: Limit, now: int)
    ensures Key(l, now).Ok? <==> l.key != "" && 0 < l.decay && 0 < l.maxAttempts
    ensures Key(l, now) == Err(NoKey) <==> l.key == ""
    ensures Key(l, now) == Err(NoWindow) <==> l.key != "" && l.decay <= 0
    ensures Key(l, now) == Err(ClosedDoor) <==> l.key != "" && 0 < l.decay && l.maxAttempts <= 0
  {
  }

  function AvailableIn(l: Limit, now: int): int {
    if l.decay <= 0 then 0 else l.decay - Rem(now, l.decay)
  }

  /** The counter a key holds at this moment: an absent one is at zero. */
  function Counter(m: Entries, key: string, now: int): Option<int> {
    match Lookup(m, key, now)
    case None => Some(0)
    case Some(e) => Numerals.ParseInt(e.value)
  }

  /** One off a positive counter and zero for any other, but the least of all wraps to the greatest. */
  function Released(n: int): int {
    if n == Numerals.MIN_INT64 then Numerals.MAX_INT64 else if n > 0 then n - 1 else 0
  }

  /** An increment where something lives: the number moves and its deadline stays, or it is no number and all stays. */
  lemma IncrementLive(m: Entries, k: string, delta: int, ttl: int, now: int)
    requires 0 < ttl && Lookup(m, k, now).Some?
    ensures var (m', a) := Apply(m, Increment(k, delta, ttl), now);
            var e, was := Lookup(m, k, now).value, Counter(m, k, now);
            && SameBeside(m', m, k) && (a.Count? <==> was.Some?)
            && (a.Count? ==> a.count == Wrap64(was.value + delta) && Lookup(m', k, now).Some?
                             && Lookup(m', k, now).value.expires == e.expires && Counter(m', k, now) == Some(a.count))
            && (!a.Count? ==> Lookup(m', k, now) == Some(e))
  {
    var was := Counter(m, k, now);
    if was.Some? { Numerals.FormatIntReadsBack(Wrap64(was.value + delta)); }
  }

  lemma GetChangesNothing(m: Entries, k: string, now: int)
    ensures var (m', a) := Apply(m, Get(k), now);
            && SameBeside(m', m, k) && Lookup(m', k, now) == Lookup(m, k, now)
            && (a == NotFound <==> Lookup(m, k, now).None?)
  {
  }

  lemma WrapDown(n: int)
    requires Numerals.MIN_INT64 <= n <= Numerals.MAX_INT64
    ensures Wrap64(n - 1) == if n == Numerals.MIN_INT64 then Numerals.MAX_INT64 else n - 1
  {
  }

  /** What a release does: nothing beside its key, the deadline kept, and one off the counter if there is one. */
  ghost predicate ReleasedFrom(m: Entries, m': Entries, k: string, now: int, ok: bool) {
    var was, seen, left := Counter(m, k, now), Lookup(m, k, now), Lookup(m', k, now);
    && SameBeside(m', m, k) && (ok <==> was.Some?)
    && (left.Some? <==> seen.Some?) && (left.Some? ==> left.value.expires == seen.value.expires)
    && (if ok then Counter(m', k, now) == Some(Released(was.value)) else left == seen)
  }

  class RateLimiter {
    const store: ArrayStore

    constructor (store: ArrayStore)
      ensures this.store == store
    {
      this.store := store;
    }

    method Hit(l: Limit, now: int) returns (r: Result<int, LimitError>)
      modifies store`entries
      ensures Key(l, now).Err? ==> r == Err(Key(l, now).error) && store.entries == old(store.entries)
      ensures Key(l, now).Ok? ==>
                var (m, a) := Apply(old(store.entries), Increment(Key(l, now).value, 1, l.decay), now);
                store.entries == m && r == if a.Count? then Ok(a.count) else Err(Store(a))
    {
      var key := Key(l, now);
      if key.Err? {
        return Err(key.error);
      }
      var a := store.Increment(key.value, 1, l.decay, now);
      r := if a.Count? then Ok(a.count) else Err(Store(a));
    }

    /** An attempt fits exactly when the counter it left is within the limit. */
    method Attempt(l: Limit, now: int) returns (r: Result<Outcome, LimitError>)
      modifies store`entries
      ensures Key(l, now).Err? ==> r == Err(Key(l, now).error) && store.entries == old(store.entries)
      ensures Key(l, now).Ok? ==>
                store.entries == Apply(old(store.entries), Increment(Key(l, now).value, 1, l.decay), now).0
      ensures Key(l, now).Ok? ==>
                var a := Apply(old(store.entries), Increment(Key(l, now).value, 1, l.decay), now).1;
                (r.Ok? <==> a.Count?) && (r.Err? ==> r.error == Store(a)) && (r.Ok? ==> a == Count(r.value.attempts))
      ensures r.Ok? ==>
                && (r.value.ok <==> r.value.attempts <= l.maxAttempts)
                && r.value.remaining == (if r.value.ok then l.maxAttempts - r.value.attempts else 0)
                && r.value.retryAfter == (if r.value.ok then 0 else AvailableIn(l, now))
    {
      var hit := Hit(l, now);
      if hit.Err? {
        return Err(hit.error);
      }
      var attempts := hit.value;
      var remaining := l.maxAttempts - attempts;
      if remaining < 0 {
        remaining := 0;
      }
      if attempts > l.maxAttempts {
        return Ok(Outcome(false, attempts, 0, AvailableIn(l, now)));
      }
      r := Ok(Outcome(true, attempts, remaining, 0));
    }

    /** The decrement of a counter that was seen, and the increment that makes up for one below zero. */
    method TakeOne(k: string, ttl: int, now: int) returns (a: Answer)
      requires 0 < ttl && Lookup(store.entries, k, now).Some?
      modifies store`entries
      ensures ReleasedFrom(old(store.entries), store.entries, k, now, a.Count?)
    {
      ghost var was := Counter(store.entries, k, now);
      IncrementLive(store.entries, k, -1, ttl, now);
      a := store.Increment(k, -1, ttl, now);
      if a.Count? {
        WrapDown(was.value);
        if a.count < 0 {
          IncrementLive(store.entries, k, -a.count, ttl, now);
          a := store.Increment(k, -a.count, ttl, now);
        }
      }
    }

    /** Alone on the store, a release takes one off a positive counter, and leaves zero and absence alone. */
    method Release(l: Limit, now: int) returns (r: Result<(), LimitError>)
      modifies store`entries
      ensures Key(l, now).Err? ==> r == Err(Key(l, now).error) && store.entries == old(store.entries)
      ensures Key(l, now).Ok? ==> ReleasedFrom(old(store.entries), store.entries, Key(l, now).value, now, r.Ok?)
    {
      var key := Key(l, now);
      if key.Err? {
        return Err(key.error);
      }
      GetChangesNothing(store.entries, key.value, now);
      var seen := store.Get(key.value, now);
      if seen == NotFound {
        return Ok(());
      }
      var a := TakeOne(key.value, l.decay, now);
      r := if a.Count? then Ok(()) else Err(Store(a));
    }
  }

  // --------------------------------------------------------------- windows

  lemma StepUp(a: int, b: int, d: int)
    requires 0 <= d
    ensures a < b ==> a * d + d <= b * d
    ensures (a + 1) * d == a * d + d && (a - 1) * d == a * d - d
  {
    if a < b {
      var gap := b - a - 1;
      assert b * d == a * d + d + gap * d;
      assert 0 <= gap * d;
    }
  }

  /** Quotient and remainder are unique. */
  lemma QuoOf(x: int, k: int, r: int, d: int)
    requires 0 < d && 0 <= r < d && 0 <= k && x == k * d + r
    ensures Quo(x, d) == k && Quo(-x, d) == -k
  {
    assert 0 <= k * d;
    var q := x / d;
    assert q * d <= x < q * d + d;
    StepUp(q, k, d);
    StepUp(k, q, d);
  }

  ghost predicate RollsNext(l: Limit, now: int)
    requires 0 < l.decay
  {
    var at := now + AvailableIn(l, now);
    Bucket(l, at) == Bucket(l, now) + 1 && Bucket(l, at - 1) == Bucket(l, now)
  }

  /**
   now + AvailableIn is the first instant of the next bucket exactly when the clock is later
   than one window before the epoch; earlier, truncation puts the instant inside the bucket.
   (A window of one nanosecond is always right.)
   */
  lemma AvailableInExactly(l: Limit, now: int)
    requires 0 < l.decay
    ensures RollsNext(l, now) <==> -l.decay < now || l.decay == 1
  {
    if 0 <= now {
      AvailableSinceEpoch(l, now);
    } else {
      AvailableBeforeEpoch(l, now);
    }
  }

  lemma AvailableSinceEpoch(l: Limit, now: int)
    requires 0 < l.decay && 0 <= now
    ensures RollsNext(l, now)
  {
    var d := l.decay;
    var k, r := now / d, now % d;
    assert now == k * d + r;
    QuoOf(now, k, r, d);
    StepUp(k, k, d);
    var at := now + AvailableIn(l, now);
    assert at == k * d + d;
    QuoOf(at, k + 1, 0, d);
    QuoOf(at - 1, k, d - 1, d);
  }

  lemma AvailableBeforeEpoch(l: Limit, now: int)
    requires 0 < l.decay && now < 0
    ensures RollsNext(l, now) <==> -l.decay < now || l.decay == 1
  {
    var d := l.decay;
    var k, r := (-now) / d, (-now) % d;
    assert -now == k * d + r;
    QuoOf(-now, k, r, d);
    var at := now + AvailableIn(l, now);
    assert at == d - k * d;
    StepUp(k, k, d);
    StepUp(0, k, d);
    if k == 0 {
      QuoOf(d, 1, 0, d);
      QuoOf(d - 1, 0, d - 1, d);
    } else {
      QuoOf(-at, k - 1, 0, d);
      if d == 1 { QuoOf(1 - at, k, 0, d); } else { QuoOf(1 - at, k - 1, 1, d); }
    }
  }

  /** What happens to one limit's store: attempts on it, and calls that name none of its counters. */
  datatype Event = Try(now: int) | Other(op: Op, now: int)

  ghost predicate Foreign(l: Limit, op: Op) {
    if op.Flush? then forall b :: !(op.prefix <= CounterKey(l, b))
    else forall b :: op.key != CounterKey(l, b)
  }

  ghost predicate Schedule(l: Limit, events: seq<Event>) {
    && (forall i :: 0 <= i < |events| ==> 0 <= events[i].now)
    && (forall i, j :: 0 <= i < j < |events| ==> events[i].now <= events[j].now)
    && (forall i :: 0 <= i < |events| && events[i].Other? ==> Foreign(l, events[i].op))
  }

  function Do(m: Entries, l: Limit, e: Event): (Entries, Answer)
    requires Countable(l)
  {
    match e
    case Try(now) => Apply(m, Increment(CounterKey(l, Bucket(l, now)), 1, l.decay), now)
    case Other(op, now) => Apply(m, op, now)
  }

  function After(m: Entries, l: Limit, events: seq<Event>): Entries
    requires Countable(l)
    decreases |events|
  {
    if events == [] then m else Do(After(m, l, events[..|events| - 1]), l, events[|events| - 1]).0
  }

  /** How many of the events are attempts in a bucket. */
  function Hits(l: Limit, events: seq<Event>, bucket: int): nat
    requires Countable(l)
    decreases |events|
  {
    if events == [] then 0
    else
      var last := events[|events| - 1];
      Hits(l, events[..|events| - 1], bucket) + if last.Try? && Bucket(l, last.now) == bucket then 1 else 0
  }

  lemma {:induction false} HitsAtMost(l: Limit, events: seq<Event>, bucket: int)
    requires Countable(l)
    ensures Hits(l, events, bucket) <= |events|
    decreases |events|
  {
    if events != [] { HitsAtMost(l, events[..|events| - 1], bucket); }
  }

  /** The counter of a bucket: absent before its first attempt, and never gone before the bucket ends. */
  ghost predicate Counted(m: Entries, l: Limit, events: seq<Event>, b: int)
    requires Countable(l)
  {
    var n, k := Hits(l, events, b), CounterKey(l, b);
    if n == 0 then k !in m
    else k in m && m[k].value == Numerals.FormatInt(n) && b * l.decay + l.decay <= m[k].expires
  }

  ghost predicate Counting(m: Entries, l: Limit, events: seq<Event>, since: int)
    requires Countable(l)
  {
    forall b :: Bucket(l, since) <= b ==> Counted(m, l, events, b)
  }

  lemma BucketBounds(l: Limit, now: int)
    requires Countable(l) && 0 <= now
    ensures Bucket(l, now) * l.decay <= now < (Bucket(l, now) + 1) * l.decay
  {
    var k, r := now / l.decay, now % l.decay;
    assert now == k * l.decay + r;
    StepUp(k, k, l.decay);
  }

  /** The bucket of an instant less than a window later is the same one or the next. */
  lemma NextBucketAtMost(l: Limit, from: int, t: int)
    requires Countable(l) && 0 <= from <= t < from + l.decay
    ensures Bucket(l, from) <= Bucket(l, t) <= Bucket(l, from) + 1
  {
    BucketMonotone(l, from, t);
    BucketBounds(l, from);
    BucketBounds(l, t);
    var b := Bucket(l, from);
    StepUp(b, b, l.decay);
    StepUp(b + 1, Bucket(l, t), l.decay);
  }

  lemma BucketMonotone(l: Limit, a: int, b: int)
    requires Countable(l) && 0 <= a <= b
    ensures Bucket(l, a) <= Bucket(l, b)
  {
    BucketBounds(l, a);
    BucketBounds(l, b);
    StepUp(Bucket(l, b), Bucket(l, a), l.decay);
    StepUp(Bucket(l, b), Bucket(l, b), l.decay);
  }

  lemma AfterPrefix(p: string, key: string, x: string)
    ensures (p + key + ":" + x)[|p|..] == key + [':'] + x
  {
  }

  lemma TwoParts(p: string, key: string, x: string, other: string, y: string)
    requires ':' !in x && ':' !in y && p + key + ":" + x == p + other + ":" + y
    ensures key == other && x == y
  {
    AfterPrefix(p, key, x);
    AfterPrefix(p, other, y);
    Keys.CutAtLast(key, x, other, y, ':');
  }

  /** The key of a counter tells whose limit it counts and in which bucket, whatever the caller's key holds. */
  lemma CounterKeyTells(l: Limit, b: int, k: Limit, c: int)
    ensures CounterKey(l, b) == CounterKey(k, c) <==> l.key == k.key && b == c
  {
    if CounterKey(l, b) == CounterKey(k, c) {
      Numerals.NoColon(b);
      Numerals.NoColon(c);
      TwoParts("ratelimit:", l.key, Numerals.FormatInt(b), k.key, Numerals.FormatInt(c));
      Numerals.FormatIntInjective(b, c);
    }
  }

  /** An increment of a counter at n that has not expired: one more, under the deadline it had. */
  lemma IncrementFrom(m: Entries, k: string, n: nat, ttl: int, now: int)
    requires 0 < ttl && n < Numerals.MAX_INT64
    requires if n == 0 then k !in m else k in m && m[k].value == Numerals.FormatInt(n) && now < m[k].expires
    ensures Apply(m, Increment(k, 1, ttl), now)
         == (m[k := Entry(Numerals.FormatInt(n + 1), if n == 0 then now + ttl else m[k].expires)], Count(n + 1))
  {
    if n == 0 {
      assert Lookup(m, k, now).None? && Wrap64(1) == 1;
    } else {
      IncrementOn(m, k, n, ttl, now);
    }
  }

  lemma IncrementOn(m: Entries, k: string, n: nat, ttl: int, now: int)
    requires 0 < ttl && 0 < n < Numerals.MAX_INT64
    requires k in m && m[k].value == Numerals.FormatInt(n) && now < m[k].expires
    ensures Apply(m, Increment(k, 1, ttl), now)
         == (m[k := Entry(Numerals.FormatInt(n + 1), m[k].expires)], Count(n + 1))
  {
    Numerals.FormatIntReadsBack(n);
    assert Lookup(m, k, now) == Some(m[k]) && Wrap64(n + 1) == n + 1;
  }

  lemma HitsGrow(l: Limit, events: seq<Event>, now: int, b: int)
    requires Countable(l)
    ensures Hits(l, events + [Try(now)], b) == Hits(l, events, b) + if Bucket(l, now) == b then 1 else 0
  {
    assert (events + [Try(now)])[..|events|] == events;
  }

  /** One more attempt reads one more than the attempts before it. */
  lemma TryCounts(m: Entries, l: Limit, events: seq<Event>, now: int)
    requires Countable(l) && 0 <= now && |events| < Numerals.MAX_INT64
    requires Counted(m, l, events, Bucket(l, now))
    ensures Do(m, l, Try(now)).1 == Count(Hits(l, events, Bucket(l, now)) + 1)
    ensures Counted(Do(m, l, Try(now)).0, l, events + [Try(now)], Bucket(l, now))
  {
    var b := Bucket(l, now);
    BucketBounds(l, now);
    StepUp(b, b, l.decay);
    HitsAtMost(l, events, b);
    HitsGrow(l, events, now, b);
    IncrementFrom(m, CounterKey(l, b), Hits(l, events, b), l.decay, now);
  }

  lemma CountingAfterTry(m: Entries, l: Limit, events: seq<Event>, since: int, now: int)
    requires Countable(l) && 0 <= since <= now && |events| < Numerals.MAX_INT64
    requires Counting(m, l, events, since)
    ensures Do(m, l, Try(now)).1 == Count(Hits(l, events, Bucket(l, now)) + 1)
    ensures Counting(Do(m, l, Try(now)).0, l, events + [Try(now)], now)
  {
    var b := Bucket(l, now);
    BucketMonotone(l, since, now);
    TryCounts(m, l, events, now);
    var op := Increment(CounterKey(l, b), 1, l.decay);
    forall c | b <= c ensures Counted(Do(m, l, Try(now)).0, l, events + [Try(now)], c) {
      if c != b {
        CounterKeyTells(l, b, l, c);
        Frame(m, op, now, CounterKey(l, c));
        HitsGrow(l, events, now, c);
        assert Counted(m, l, events, c);
      }
    }
  }

  lemma CountingAfterOther(m: Entries, l: Limit, events: seq<Event>, since: int, op: Op, now: int)
    requires Countable(l) && 0 <= since <= now && Foreign(l, op)
    requires Counting(m, l, events, since)
    ensures Counting(Do(m, l, Other(op, now)).0, l, events + [Other(op, now)], now)
  {
    BucketMonotone(l, since, now);
    var m', more := Do(m, l, Other(op, now)).0, events + [Other(op, now)];
    assert more[..|more| - 1] == events;
    forall b | Bucket(l, now) <= b ensures Counted(m', l, more, b) {
      if !op.Flush? { Frame(m, op, now, CounterKey(l, b)); }
      assert Counted(m, l, events, b);
    }
  }

  /** A store that holds none of this limit's counters for the buckets still to come. */
  ghost predicate Unused(m: Entries, l: Limit, since: int)
    requires Countable(l)
  {
    forall b :: Bucket(l, since) <= b ==> CounterKey(l, b) !in m
  }

  lemma CountingNext(m: Entries, l: Limit, events: seq<Event>, since: int, e: Event)
    requires Countable(l) && 0 <= since <= e.now && |events| < Numerals.MAX_INT64
    requires (e.Other? ==> Foreign(l, e.op)) && Counting(m, l, events, since)
    ensures Counting(Do(m, l, e).0, l, events + [e], e.now)
  {
    match e {
      case Try(now) => CountingAfterTry(m, l, events, since, now);
      case Other(op, now) => CountingAfterOther(m, l, events, since, op, now);
    }
  }

  function Latest(events: seq<Event>, since: int): int {
    if events == [] then since else events[|events| - 1].now
  }

  lemma ScheduleInit(l: Limit, events: seq<Event>, since: int)
    requires Schedule(l, events) && events != [] && 0 <= since <= events[0].now
    ensures var before, last := events[..|events| - 1], events[|events| - 1];
            && Schedule(l, before) && (before != [] ==> since <= before[0].now)
            && 0 <= Latest(before, since) <= last.now && (last.Other? ==> Foreign(l, last.op))
            && events == before + [last]
  {
  }

  lemma {:induction false} CountingAlways(m: Entries, l: Limit, events: seq<Event>, since: int)
    requires Countable(l) && Schedule(l, events) && |events| < Numerals.MAX_INT64
    requires 0 <= since && (events != [] ==> since <= events[0].now) && Unused(m, l, since)
    ensures Counting(After(m, l, events), l, events, Latest(events, since))
    decreases |events|
  {
    if events != [] {
      var before, last := events[..|events| - 1], events[|events| - 1];
      ScheduleInit(l, events, since);
      CountingAlways(m, l, before, since);
      CountingNext(After(m, l, before), l, before, Latest(before, since), last);
    }
  }

  /**
   The limit is exact: in any run on a shared store, the attempt at position i leaves a counter
   equal to the number of attempts of its bucket up to and including it, so exactly the first
   MaxAttempts of every bucket are OK and no counter is lost before its bucket ends.
   */
  lemma AttemptsAreExact(m: Entries, l: Limit, events: seq<Event>, since: int, i: nat)
    requires Countable(l) && Schedule(l, events) && |events| < Numerals.MAX_INT64
    requires 0 <= since && (events != [] ==> since <= events[0].now) && Unused(m, l, since)
    requires i < |events| && events[i].Try?
    ensures Do(After(m, l, events[..i]), l, events[i]).1
         == Count(Hits(l, events[..i + 1], Bucket(l, events[i].now)))
  {
    var before := events[..i];
    CountingAlways(m, l, before, since);
    assert events[..i + 1] == before + [events[i]];
    ExactNext(After(m, l, before), l, before, Latest(before, since), events[i]);
  }

  lemma ExactNext(m: Entries, l: Limit, events: seq<Event>, since: int, e: Event)
    requires Countable(l) && 0 <= since <= e.now && |events| < Numerals.MAX_INT64 && e.Try?
    requires Counting(m, l, events, since)
    ensures Do(m, l, e).1 == Count(Hits(l, events + [e], Bucket(l, e.now)))
  {
    CountingAfterTry(m, l, events, since, e.now);
    HitsGrow(l, events, e.now, Bucket(l, e.now));
  }

  /** Somebody's attempt. */
  datatype Attempted = Attempted(limit: Limit, now: int)

  /** One attempt, as the counters of a limit see it. */
  function EventOf(l: Limit, a: Attempted): Event
    requires Countable(a.limit)
  {
    if a.limit.key == l.key then Try(a.now)
    else Other(Increment(CounterKey(a.limit, Bucket(a.limit, a.now)), 1, a.limit.decay), a.now)
  }

  function EventsOf(l: Limit, attempts: seq<Attempted>): (events: seq<Event>)
    requires forall a :: a in attempts ==> Countable(a.limit)
    ensures |events| == |attempts| && forall i :: 0 <= i < |attempts| ==> events[i] == EventOf(l, attempts[i])
  {
    seq(|attempts|, i requires 0 <= i < |attempts| => EventOf(l, attempts[i]))
  }

  lemma AnothersIsForeign(l: Limit, a: Attempted)
    requires Countable(a.limit) && a.limit.key != l.key
    ensures Foreign(l, Increment(CounterKey(a.limit, Bucket(a.limit, a.now)), 1, a.limit.decay))
  {
    forall b ensures CounterKey(a.limit, Bucket(a.limit, a.now)) != CounterKey(l, b) {
      CounterKeyTells(a.limit, Bucket(a.limit, a.now), l, b);
    }
  }

  /** How many of the attempts under a key are in a bucket. */
  function Under(l: Limit, attempts: seq<Attempted>, bucket: int): nat
    requires 0 < l.decay
    decreases |attempts|
  {
    if attempts == [] then 0
    else
      var last := attempts[|attempts| - 1];
      Under(l, attempts[..|attempts| - 1], bucket)
      + if last.limit.key == l.key && Bucket(l, last.now) == bucket then 1 else 0
  }

  lemma {:induction false} UnderIsHits(l: Limit, attempts: seq<Attempted>, bucket: int)
    requires Countable(l) && forall a :: a in attempts ==> Countable(a.limit)
    ensures Hits(l, EventsOf(l, attempts), bucket) == Under(l, attempts, bucket)
    decreases |attempts|
  {
    if attempts != [] {
      var init := attempts[..|attempts| - 1];
      assert forall a :: a in init ==> a in attempts;
      UnderIsHits(l, init, bucket);
      assert EventsOf(l, attempts)[..|attempts| - 1] == EventsOf(l, init);
    }
  }

  /** The attempt itself, and attempts one after another. */
  function Made(m: Entries, a: Attempted): (Entries, Answer)
    requires Countable(a.limit)
  {
    Apply(m, Increment(CounterKey(a.limit, Bucket(a.limit, a.now)), 1, a.limit.decay), a.now)
  }

  function MadeAll(m: Entries, attempts: seq<Attempted>): Entries
    requires forall a :: a in attempts ==> Countable(a.limit)
  {
    if attempts == [] then m else Made(MadeAll(m, attempts[..|attempts| - 1]), attempts[|attempts| - 1]).0
  }

  /** Every attempt under this key is under its window. */
  ghost predicate OneWindow(l: Limit, attempts: seq<Attempted>) {
    forall a :: a in attempts ==> Countable(a.limit) && (a.limit.key == l.key ==> a.limit.decay == l.decay)
  }

  lemma MadeIsDone(m: Entries, l: Limit, a: Attempted)
    requires Countable(l) && Countable(a.limit) && (a.limit.key == l.key ==> a.limit.decay == l.decay)
    ensures Do(m, l, EventOf(l, a)) == Made(m, a)
  {
  }

  lemma EventsOneMore(l: Limit, attempts: seq<Attempted>)
    requires attempts != [] && OneWindow(l, attempts)
    ensures OneWindow(l, attempts[..|attempts| - 1]) && OneWindow(l, [attempts[|attempts| - 1]])
    ensures EventsOf(l, attempts)
         == EventsOf(l, attempts[..|attempts| - 1]) + [EventOf(l, attempts[|attempts| - 1])]
  {
    assert attempts[|attempts| - 1] in attempts && forall a :: a in attempts[..|attempts| - 1] ==> a in attempts;
  }

  lemma AfterOneMore(m: Entries, l: Limit, events: seq<Event>, e: Event)
    requires Countable(l)
    ensures After(m, l, events + [e]) == Do(After(m, l, events), l, e).0
  {
    assert (events + [e])[..|events|] == events;
  }

  lemma {:induction false} MadeAllIsAfter(m: Entries, l: Limit, attempts: seq<Attempted>)
    requires Countable(l) && OneWindow(l, attempts)
    ensures After(m, l, EventsOf(l, attempts)) == MadeAll(m, attempts)
    decreases |attempts|
  {
    if attempts != [] {
      var init, last := attempts[..|attempts| - 1], attempts[|attempts| - 1];
      EventsOneMore(l, attempts);
      MadeAllIsAfter(m, l, init);
      assert last in [last];
      calc {
        After(m, l, EventsOf(l, attempts));
        { AfterOneMore(m, l, EventsOf(l, init), EventOf(l, last)); }
        Do(MadeAll(m, init), l, EventOf(l, last)).0;
        { MadeIsDone(MadeAll(m, init), l, last); }
        Made(MadeAll(m, init), last).0;
      }
    }
  }

  lemma AttemptsAreScheduled(l: Limit, attempts: seq<Attempted>)
    requires OneWindow(l, attempts) && forall a :: a in attempts ==> 0 <= a.now
    requires forall j, k :: 0 <= j < k < |attempts| ==> attempts[j].now <= attempts[k].now
    ensures Schedule(l, EventsOf(l, attempts))
  {
    var events := EventsOf(l, attempts);
    forall j | 0 <= j < |events| ensures 0 <= events[j].now && (events[j].Other? ==> Foreign(l, events[j].op)) {
      assert attempts[j] in attempts;
      if events[j].Other? { AnothersIsForeign(l, attempts[j]); }
    }
  }

  lemma EventsSplit(l: Limit, before: seq<Attempted>, a: Attempted)
    requires OneWindow(l, before + [a])
    ensures OneWindow(l, before) && Countable(a.limit)
    ensures EventsOf(l, before + [a]) == EventsOf(l, before) + [EventOf(l, a)]
  {
    assert (before + [a])[|before|] == a && forall b :: b in before ==> b in before + [a];
  }

  /** In order, from this moment on. */
  ghost predicate Since(attempts: seq<Attempted>, since: int) {
    && 0 <= since && (forall a :: a in attempts ==> since <= a.now)
    && forall j, k :: 0 <= j < k < |attempts| ==> attempts[j].now <= attempts[k].now
  }

  lemma ExactOfEvents(m: Entries, l: Limit, events: seq<Event>, e: Event, since: int)
    requires Countable(l) && Underway(m, l, events + [e], since) && e.Try?
    ensures Do(After(m, l, events), l, e).1 == Count(Hits(l, events + [e], Bucket(l, e.now)))
  {
    var all := events + [e];
    assert all[..|events|] == events && all[..|events| + 1] == all;
    AttemptsAreExact(m, l, all, since, |events|);
  }

  /**
   Limits of different keys count apart: after any attempts under many limits on one store, an attempt under this one
   answers the number of attempts under its own key in its bucket so far, whatever the others did.
   */
  lemma LimitsCountApart(m: Entries, l: Limit, before: seq<Attempted>, a: Attempted, since: int)
    requires Countable(l) && OneWindow(l, before + [a]) && |before| + 1 < Numerals.MAX_INT64
    requires Since(before + [a], since) && Unused(m, l, since) && a.limit.key == l.key
    ensures OneWindow(l, before) && Countable(a.limit)
    ensures Made(MadeAll(m, before), a).1 == Count(Under(l, before + [a], Bucket(l, a.now)))
  {
    EventsSplit(l, before, a);
    AttemptsAreScheduled(l, before + [a]);
    assert (before + [a])[0] in before + [a];
    ExactOfEvents(m, l, EventsOf(l, before), EventOf(l, a), since);
    MadeAllIsAfter(m, l, before);
    MadeIsDone(MadeAll(m, before), l, a);
    UnderIsHits(l, before + [a], Bucket(l, a.now));
  }

  /** The store's own answer to an attempt, against the limit. */
  predicate Fits(m: Entries, l: Limit, e: Event)
    requires Countable(l)
  {
    e.Try? && Do(m, l, e).1.Count? && Do(m, l, e).1.count <= l.maxAttempts
  }

  /** Attempts the store let through with their time in [from, until). */
  function Allowed(m: Entries, l: Limit, events: seq<Event>, from: int, until: int): nat
    requires Countable(l)
    decreases |events|
  {
    if events == [] then 0
    else
      var init, last := events[..|events| - 1], events[|events| - 1];
      Allowed(m, l, init, from, until) + if from <= last.now < until && Fits(After(m, l, init), l, last) then 1 else 0
  }

  /** How many of n attempts in a bucket are let through. */
  function Through(l: Limit, n: nat): int {
    if n <= l.maxAttempts then n else l.maxAttempts
  }

  ghost predicate Underway(m: Entries, l: Limit, events: seq<Event>, since: int)
    requires Countable(l)
  {
    && Schedule(l, events) && |events| < Numerals.MAX_INT64 && 0 <= since
    && (events != [] ==> since <= events[0].now) && Unused(m, l, since)
  }

  /** One more attempt raises the count of its bucket, which is one of the two if it is in the window. */
  lemma OneMorePerBucket(l: Limit, events: seq<Event>, e: Event, from: int, d: int)
    requires Countable(l) && 0 <= from && e.Try?
    ensures var c := Bucket(l, e.now);
            && Hits(l, events + [e], d) == Hits(l, events, d) + (if c == d then 1 else 0)
            && (from <= e.now < from + l.decay ==> c == Bucket(l, from) || c == Bucket(l, from) + 1)
  {
    if from <= e.now < from + l.decay { NextBucketAtMost(l, from, e.now); }
    HitsGrow(l, events, e.now, d);
  }

  lemma AllowedOneMore(m: Entries, l: Limit, events: seq<Event>, e: Event, from: int, until: int)
    requires Countable(l)
    ensures Allowed(m, l, events + [e], from, until)
         == Allowed(m, l, events, from, until)
          + if from <= e.now < until && Fits(After(m, l, events), l, e) then 1 else 0
  {
    assert (events + [e])[..|events|] == events;
  }

  lemma OthersHitNothing(l: Limit, events: seq<Event>, e: Event, d: int)
    requires Countable(l) && e.Other?
    ensures Hits(l, events + [e], d) == Hits(l, events, d)
  {
    assert (events + [e])[..|events|] == events;
  }

  /** An attempt fits exactly while its bucket has room. */
  lemma FitsExactly(m: Entries, l: Limit, events: seq<Event>, since: int, e: Event)
    requires Countable(l) && Underway(m, l, events + [e], since) && e.Try?
    ensures Fits(After(m, l, events), l, e) <==> Hits(l, events + [e], Bucket(l, e.now)) <= l.maxAttempts
  {
    var all := events + [e];
    assert all[..|events|] == events && all[..|events| + 1] == all;
    AttemptsAreExact(m, l, all, since, |events|);
  }

  /** The attempts let through in a window are among the first ones of this bucket and the next. */
  ghost predicate PerBuckets(m: Entries, l: Limit, events: seq<Event>, from: int, b: int)
    requires Countable(l)
  {
    Allowed(m, l, events, from, from + l.decay) <= Through(l, Hits(l, events, b)) + Through(l, Hits(l, events, b + 1))
  }

  lemma PerBucketsTry(m: Entries, l: Limit, events: seq<Event>, e: Event, c: int, from: int, b: int)
    requires Countable(l) && 0 <= from && PerBuckets(m, l, events, from, b) && e.Try?
    requires b == Bucket(l, from) && c == Bucket(l, e.now)
    requires Fits(After(m, l, events), l, e) <==> Hits(l, events + [e], c) <= l.maxAttempts
    ensures PerBuckets(m, l, events + [e], from, b)
  {
    AllowedOneMore(m, l, events, e, from, from + l.decay);
    OneMorePerBucket(l, events, e, from, b);
    OneMorePerBucket(l, events, e, from, b + 1);
  }

  lemma PerBucketsOther(m: Entries, l: Limit, events: seq<Event>, e: Event, from: int, b: int)
    requires Countable(l) && PerBuckets(m, l, events, from, b) && e.Other?
    ensures PerBuckets(m, l, events + [e], from, b)
  {
    AllowedOneMore(m, l, events, e, from, from + l.decay);
    OthersHitNothing(l, events, e, b);
    OthersHitNothing(l, events, e, b + 1);
  }

  lemma UnderwayInit(m: Entries, l: Limit, events: seq<Event>, since: int)
    requires Countable(l) && Underway(m, l, events, since) && events != []
    ensures var before, last := events[..|events| - 1], events[|events| - 1];
            events == before + [last] && Underway(m, l, before, since)
  {
    ScheduleInit(l, events, since);
  }

  lemma PerBucketsNext(m: Entries, l: Limit, before: seq<Event>, since: int, last: Event, from: int)
    requires Countable(l) && 0 <= from && Underway(m, l, before + [last], since)
    requires PerBuckets(m, l, before, from, Bucket(l, from))
    ensures PerBuckets(m, l, before + [last], from, Bucket(l, from))
  {
    if last.Try? {
      FitsExactly(m, l, before, since, last);
      PerBucketsTry(m, l, before, last, Bucket(l, last.now), from, Bucket(l, from));
    } else {
      PerBucketsOther(m, l, before, last, from, Bucket(l, from));
    }
  }

  lemma NoneAllowed(m: Entries, l: Limit, from: int, b: int)
    requires Countable(l)
    ensures PerBuckets(m, l, [], from, b)
  {
  }

  lemma {:induction false} AllowedPerBuckets(m: Entries, l: Limit, events: seq<Event>, since: int, from: int)
    requires Countable(l) && Underway(m, l, events, since) && 0 <= from
    ensures PerBuckets(m, l, events, from, Bucket(l, from))
    decreases |events|
  {
    if events == [] {
      NoneAllowed(m, l, from, Bucket(l, from));
    } else {
      UnderwayInit(m, l, events, since);
      AllowedPerBuckets(m, l, events[..|events| - 1], since, from);
      PerBucketsNext(m, l, events[..|events| - 1], since, events[|events| - 1], from);
    }
  }

  lemma TwiceAtMost(m: Entries, l: Limit, events: seq<Event>, from: int, b: int)
    requires Countable(l) && PerBuckets(m, l, events, from, b)
    ensures Allowed(m, l, events, from, from + l.decay) <= 2 * l.maxAttempts
  {
  }

  /** Two bursts at most: in no stretch of time one window long does the store let more than twice the limit through. */
  lemma TwoBurstsAtMost(m: Entries, l: Limit, events: seq<Event>, since: int, from: int)
    requires Countable(l) && Underway(m, l, events, since) && 0 <= from
    ensures Allowed(m, l, events, from, from + l.decay) <= 2 * l.maxAttempts
  {
    AllowedPerBuckets(m, l, events, since, from);
    TwiceAtMost(m, l, events, from, Bucket(l, from));
  }

  // --------------------------------------------------------------- release

  /**
   One counter under concurrent hits and releases. `looked` releases have seen the key and not
   yet decremented; `owed` are the compensations decided on and not yet written.
   */
  datatype Shared = Shared(counter: Option<int>, looked: nat, owed: seq<nat>)

  datatype Move = Count1 | Look | TakeOne | Compensate(which: nat) | Expire

  function Reading(s: Shared): int {
    if s.counter.None? then 0 else s.counter.value
  }

  function Sum(owed: seq<nat>): nat {
    if owed == [] then 0 else owed[0] + Sum(owed[1..])
  }

  function Moved(s: Shared, a: Move): Shared {
    match a
    case Count1 => s.(counter := Some(Reading(s) + 1))
    case Look => if s.counter.None? then s else s.(looked := s.looked + 1)
    case TakeOne =>
      if s.looked == 0 then s
      else
        var n := Reading(s) - 1;
        Shared(Some(n), s.looked - 1, if n < 0 then s.owed + [-n] else s.owed)
    case Compensate(i) =>
      if i < |s.owed|
      then s.(counter := Some(Reading(s) + s.owed[i]), owed := s.owed[..i] + s.owed[i + 1..])
      else s
    case Expire => s.(counter := None)
  }

  function MovedAll(s: Shared, moves: seq<Move>): Shared {
    if moves == [] then s else Moved(MovedAll(s, moves[..|moves| - 1]), moves[|moves| - 1])
  }

  lemma {:induction false} SumSplit(a: seq<nat>, b: seq<nat>)
    ensures Sum(a + b) == Sum(a) + Sum(b)
  {
    if a == [] {
      assert a + b == b;
    } else {
      assert (a + b)[1..] == a[1..] + b;
      SumSplit(a[1..], b);
    }
  }

  lemma SumRemoves(owed: seq<nat>, i: nat)
    requires i < |owed|
    ensures Sum(owed) == owed[i] + Sum(owed[..i] + owed[i + 1..])
  {
    assert owed == owed[..i] + owed[i..];
    SumSplit(owed[..i], owed[i..]);
    SumSplit(owed[..i], owed[i + 1..]);
    assert owed[i..][1..] == owed[i + 1..];
  }

  /** Releases alone, however they overlap, leave a counter that is not there not there. */
  lemma {:induction false} ReleasesLeaveAbsence(s: Shared, moves: seq<Move>)
    requires s.counter.None? && s.looked == 0 && s.owed == []
    requires forall a :: a in moves ==> a.Look? || a.TakeOne? || a.Compensate?
    ensures MovedAll(s, moves) == s
  {
    if moves != [] {
      assert moves[|moves| - 1] in moves && forall a :: a in moves[..|moves| - 1] ==> a in moves;
      ReleasesLeaveAbsence(s, moves[..|moves| - 1]);
    }
  }

  /** What the counter will read once every compensation decided on has been written. */
  function Settled(s: Shared): int {
    Reading(s) + Sum(s.owed)
  }

  lemma MoveKeepsSettled(s: Shared, a: Move)
    requires 0 <= Settled(s)
    ensures 0 <= Settled(Moved(s, a))
  {
    match a {
      case TakeOne => SumSplit(s.owed, [if Reading(s) < 1 then 1 - Reading(s) else 0]);
      case Compensate(i) => if i < |s.owed| { SumRemoves(s.owed, i); }
      case _ =>
    }
  }

  /**
   No interleaving of hits, releases and expiries leaves a negative counter: the counter plus
   the compensations under way is never below zero, so with none under way neither is the counter.
   */
  lemma {:induction false} NeverNegative(s: Shared, moves: seq<Move>)
    requires 0 <= Settled(s)
    ensures 0 <= Settled(MovedAll(s, moves))
    ensures MovedAll(s, moves).owed == [] ==> 0 <= Reading(MovedAll(s, moves))
  {
    if moves != [] {
      NeverNegative(s, moves[..|moves| - 1]);
      MoveKeepsSettled(MovedAll(s, moves[..|moves| - 1]), moves[|moves| - 1]);
    }
  }

  /** What a move should do to what the counter settles at: a release stops at zero, an expiry or a Clear is zero. */
  function Clamped(s: Shared, x: int, a: Move): int {
    match a
    case Count1 => x + 1
    case TakeOne => if s.looked == 0 then x else if x > 0 then x - 1 else 0
    case Expire => 0
    case _ => x
  }

  /** No decrement of a spent counter, and no end of it, while a compensation is under way. */
  predicate Undisturbed(s: Shared, a: Move) {
    && (a.TakeOne? && 0 < s.looked ==> 0 < Reading(s) || s.owed == [])
    && (a.Expire? ==> s.owed == [])
  }

  /** Compensations are positive, and the counter settles at zero or above. */
  ghost predicate Orderly(s: Shared) {
    0 <= Settled(s) && forall n :: n in s.owed ==> 0 < n
  }

  lemma OrderlyMoved(s: Shared, a: Move)
    requires Orderly(s)
    ensures Orderly(Moved(s, a))
  {
    MoveKeepsSettled(s, a);
    forall n | n in Moved(s, a).owed ensures 0 < n {
      if n !in s.owed { assert a.TakeOne?; }
    }
  }

  lemma OwedIsPositive(owed: seq<nat>)
    requires forall n :: n in owed ==> 0 < n
    ensures Sum(owed) == 0 <==> owed == []
  {
    if owed != [] { assert owed[0] in owed; }
  }

  /** The floor the comment promises holds of one move exactly when no compensation is disturbed by it. */
  lemma FloorExactly(s: Shared, a: Move)
    requires Orderly(s)
    ensures Settled(Moved(s, a)) == Clamped(s, Settled(s), a) <==> Undisturbed(s, a)
  {
    OwedIsPositive(s.owed);
    match a {
      case TakeOne => SumSplit(s.owed, [if Reading(s) < 1 then 1 - Reading(s) else 0]);
      case Compensate(i) => if i < |s.owed| { SumRemoves(s.owed, i); }
      case _ =>
    }
  }

  /** A run of releases that each stop at zero. */
  function ClampedAll(s: Shared, moves: seq<Move>): int {
    if moves == [] then Settled(s)
    else
      var init := moves[..|moves| - 1];
      Clamped(MovedAll(s, init), ClampedAll(s, init), moves[|moves| - 1])
  }

  /** Up to the k-th move the counter has settled where releases that stop at zero would have it. */
  ghost predicate Floored(s: Shared, moves: seq<Move>, k: nat)
    requires k <= |moves|
  {
    Settled(MovedAll(s, moves[..k])) == ClampedAll(s, moves[..k])
  }

  /** At each of the first k moves. */
  ghost predicate AllUndisturbed(s: Shared, moves: seq<Move>, k: nat)
    requires k <= |moves|
  {
    k > 0 ==> Undisturbed(MovedAll(s, moves[..k - 1]), moves[k - 1]) && AllUndisturbed(s, moves, k - 1)
  }

  lemma {:induction false} OrderlyAll(s: Shared, moves: seq<Move>)
    requires Orderly(s)
    ensures Orderly(MovedAll(s, moves))
  {
    if moves != [] {
      OrderlyAll(s, moves[..|moves| - 1]);
      OrderlyMoved(MovedAll(s, moves[..|moves| - 1]), moves[|moves| - 1]);
    }
  }

  lemma FlooredNext(s: Shared, moves: seq<Move>, k: nat)
    requires Orderly(s) && k < |moves| && Floored(s, moves, k)
    ensures Floored(s, moves, k + 1) <==> Undisturbed(MovedAll(s, moves[..k]), moves[k])
  {
    OrderlyAll(s, moves[..k]);
    FloorExactly(MovedAll(s, moves[..k]), moves[k]);
    assert moves[..k + 1][..k] == moves[..k];
  }

  /** After each of the first k moves. */
  ghost predicate AllFloored(s: Shared, moves: seq<Move>, k: nat)
    requires k <= |moves|
  {
    Floored(s, moves, k) && (k > 0 ==> AllFloored(s, moves, k - 1))
  }

  /**
   Over every interleaving of hits, looks, decrements, compensations, expiries and clears: the counter settles,
   after each move up to the k-th, where releases that stop at zero would have it, if and only if no decrement
   met a spent counter and nothing ended the counter while a compensation was under way.
   */
  lemma {:induction false} FlooredExactly(s: Shared, moves: seq<Move>, k: nat)
    requires Orderly(s) && k <= |moves|
    ensures AllFloored(s, moves, k) <==> AllUndisturbed(s, moves, k)
  {
    if k == 0 {
      assert moves[..0] == [];
    } else {
      FlooredExactly(s, moves, k - 1);
      if AllFloored(s, moves, k - 1) { FlooredNext(s, moves, k - 1); }
    }
  }

  /** One release, and the end of the counter before its compensation lands: an attempt nobody made is counted. */
  lemma EndedBeforeCompensated()
    ensures var s := MovedAll(Shared(Some(0), 0, []), [Look, TakeOne, Expire, Compensate(0)]);
            s.counter == Some(1) && s.looked == 0 && s.owed == []
  {
    var s0 := Shared(Some(0), 0, []);
    MovedTwice(s0, [], Look, TakeOne);
    MovedTwice(s0, [] + [Look] + [TakeOne], Expire, Compensate(0));
    assert [] + [Look] + [TakeOne] + [Expire] + [Compensate(0)] == [Look, TakeOne, Expire, Compensate(0)];
  }

  /** Two releases of an empty counter that overlap hand out an attempt nobody made. */
  lemma OverlappingReleasesOvershoot()
    ensures var s := MovedAll(Shared(Some(0), 0, []), [Look, Look, TakeOne, TakeOne, Compensate(0), Compensate(0)]);
            s.counter == Some(1) && s.looked == 0 && s.owed == []
  {
    var s0 := Shared(Some(0), 0, []);
    var looked, taken := [Look] + [Look], [Look] + [Look] + [TakeOne] + [TakeOne];
    MovedTwice(s0, [], Look, Look);
    assert [] + [Look] + [Look] == looked;
    BothTake(s0, looked);
    MovedTwice(s0, taken, Compensate(0), Compensate(0));
    assert taken + [Compensate(0)] + [Compensate(0)]
        == [Look, Look, TakeOne, TakeOne, Compensate(0), Compensate(0)];
  }

  lemma BothTake(s: Shared, moves: seq<Move>)
    requires MovedAll(s, moves) == Shared(Some(0), 2, [])
    ensures MovedAll(s, moves + [TakeOne] + [TakeOne]) == Shared(Some(-2), 0, [1, 2])
  {
    MovedTwice(s, moves, TakeOne, TakeOne);
  }

  lemma MovedTwice(s: Shared, moves: seq<Move>, x: Move, y: Move)
    ensures MovedAll(s, moves + [x] + [y]) == Moved(Moved(MovedAll(s, moves), x), y)
  {
    assert (moves + [x])[..|moves|] == moves && (moves + [x] + [y])[..|moves| + 1] == moves + [x];
  }
}
