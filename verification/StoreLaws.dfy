/**
 What a caller of the in-process store can count on, in terms of its answers alone: what a read answers at any
 later moment after each kind of write, whatever calls that leave the key alone come between.
 */
module StoreLaws {
  import opened Wrappers
  import opened ArrayStores
  import Numerals

  // ----------------------------------------------------------- what is seen

  function After(m: Entries, calls: seq<Call>): Entries {
    if calls == [] then m
    else
      var last := calls[|calls| - 1];
      Apply(After(m, calls[..|calls| - 1]), last.op, last.now).0
  }

  /** What a read answers at this moment. */
  function Seen(m: Entries, key: string, now: int): Answer {
    Apply(m, Get(key), now).1
  }

  /** A call that writes no entry of this key: on another key, a read, or one that is refused for its time to live. */
  predicate Leaves(op: Op, key: string) {
    match op
    case Get(_) => true
    case Forget(k) => k != key
    case Flush(prefix) => !(prefix <= key)
    case _ => op.key != key || op.ttl <= 0
  }

  /** Calls from one moment to another, in order, that leave the key alone. */
  ghost predicate Between(calls: seq<Call>, key: string, from: int, to: int) {
    && from <= to && Monotone(calls)
    && forall i :: 0 <= i < |calls| ==> from <= calls[i].now <= to && Leaves(calls[i].op, key)
  }

  /** Two stores no read of the key can tell apart from this moment on. */
  ghost predicate SameSeen(m: Entries, n: Entries, key: string, from: int) {
    forall t :: from <= t ==> Seen(m, key, t) == Seen(n, key, t)
  }

  /** The key reads this value until then, and misses from then on. */
  ghost predicate Reads(m: Entries, key: string, value: string, from: int, until: int) {
    forall t :: from <= t ==> Seen(m, key, t) == if t < until then Bytes(value) else NotFound
  }

  ghost predicate Misses(m: Entries, key: string, from: int) {
    forall t :: from <= t ==> Seen(m, key, t) == NotFound
  }

  // ------------------------------------------------- calls that leave the key

  lemma LeavesSeen(m: Entries, call: Call, key: string, t: int)
    requires Leaves(call.op, key) && call.now <= t
    ensures Seen(Apply(m, call.op, call.now).0, key, t) == Seen(m, key, t)
  {
    if !call.op.Flush? && call.op.key != key { Frame(m, call.op, call.now, key); }
  }

  lemma {:induction false} BetweenSeen(m: Entries, calls: seq<Call>, key: string, from: int, to: int, t: int)
    requires Between(calls, key, from, to) && to <= t
    ensures Seen(After(m, calls), key, t) == Seen(m, key, t)
  {
    if calls != [] {
      var init, last := calls[..|calls| - 1], calls[|calls| - 1];
      BetweenSeen(m, init, key, from, to, t);
      LeavesSeen(After(m, init), last, key, t);
    }
  }

  // ------------------------------------------------------------------ writes

  /** A Put is refused without a time to live, and else is what is read until that time is over. */
  lemma PutIsRead(m: Entries, key: string, value: string, ttl: int, now: int)
    ensures var (n, a) := Apply(m, Put(key, value, ttl), now);
            if ttl <= 0 then a == NoTTL && n == m else a == Done && Reads(n, key, value, now, now + ttl)
  {
  }

  /** An Add stores exactly where a read would miss, and else changes nothing that is read. */
  lemma AddIsRead(m: Entries, key: string, value: string, ttl: int, now: int)
    ensures var (n, a) := Apply(m, Add(key, value, ttl), now);
            if ttl <= 0 then a == NoTTL && n == m
            else if Seen(m, key, now) == NotFound then a == Flag(true) && Reads(n, key, value, now, now + ttl)
            else a == Flag(false) && SameSeen(n, m, key, now)
  {
  }

  /** A Touch answers whether a read would, keeps the value, and moves the moment it goes. */
  lemma TouchIsRead(m: Entries, key: string, ttl: int, now: int)
    ensures var (n, a) := Apply(m, Touch(key, ttl), now);
            if ttl <= 0 then a == NoTTL && n == m
            else if Seen(m, key, now) == NotFound then a == Flag(false) && Misses(n, key, now)
            else a == Flag(true) && Reads(n, key, Seen(m, key, now).bytes, now, now + ttl)
  {
  }

  /** A key that was forgotten misses. */
  lemma ForgetIsRead(m: Entries, key: string, now: int)
    ensures var (n, a) := Apply(m, Forget(key), now); a == Done && Misses(n, key, now)
  {
  }

  /** A flush makes the keys with its prefix miss, and changes nothing read under any other. */
  lemma FlushIsRead(m: Entries, prefix: string, key: string, now: int)
    ensures var (n, a) := Apply(m, Flush(prefix), now);
            a == Done && if prefix <= key then Misses(n, key, now) else SameSeen(n, m, key, now)
  {
  }

  lemma IncrementMisses(m: Entries, key: string, delta: int, ttl: int, now: int)
    requires 0 < ttl && Seen(m, key, now) == NotFound
    ensures var (n, a) := Apply(m, Increment(key, delta, ttl), now);
            a == Count(Wrap64(delta)) && Reads(n, key, Numerals.FormatInt(Wrap64(delta)), now, now + ttl)
  {
  }

  lemma IncrementMeets(m: Entries, key: string, delta: int, ttl: int, now: int)
    requires 0 < ttl && Seen(m, key, now).Bytes?
    ensures var (n, a) := Apply(m, Increment(key, delta, ttl), now);
            var was := Numerals.ParseInt(Seen(m, key, now).bytes);
            if was.None? then a == NotACounter && SameSeen(n, m, key, now)
            else a == Count(Wrap64(was.value + delta)) && Counts(m, n, key, Wrap64(was.value + delta), now)
  {
  }

  /**
   An increment where a read misses starts at the difference, for the time to live; where a read answers a number it
   reads the sum from then on, for exactly as long as the number would have been read; and anything else stays.
   */
  lemma IncrementIsRead(m: Entries, key: string, delta: int, ttl: int, now: int)
    ensures var (n, a) := Apply(m, Increment(key, delta, ttl), now);
            if ttl <= 0 then a == NoTTL && n == m
            else if Seen(m, key, now) == NotFound
            then a == Count(Wrap64(delta)) && Reads(n, key, Numerals.FormatInt(Wrap64(delta)), now, now + ttl)
            else
              var was := Numerals.ParseInt(Seen(m, key, now).bytes);
              if was.None? then a == NotACounter && SameSeen(n, m, key, now)
              else a == Count(Wrap64(was.value + delta)) && Counts(m, n, key, Wrap64(was.value + delta), now)
  {
    if 0 < ttl {
      if Seen(m, key, now) == NotFound {
        IncrementMisses(m, key, delta, ttl, now);
      } else {
        IncrementMeets(m, key, delta, ttl, now);
      }
    }
  }

  /** The key reads this number, for as long as it would have read what it read before. */
  ghost predicate Counts(m: Entries, n: Entries, key: string, count: int, from: int) {
    forall t :: from <= t ==>
      Seen(n, key, t) == if Seen(m, key, t) == NotFound then NotFound else Bytes(Numerals.FormatInt(count))
  }

  // -------------------------------------------------------------- over runs

  /** What was written is read at any later moment until it expires, whatever was called in between. */
  lemma ReadsLater(n: Entries, key: string, value: string, now: int, until: int, calls: seq<Call>, t: int)
    requires Reads(n, key, value, now, until) && Between(calls, key, now, t)
    ensures Seen(After(n, calls), key, t) == if t < until then Bytes(value) else NotFound
  {
    BetweenSeen(n, calls, key, now, t, t);
  }

  /** A write that took, as its answer tells. */
  predicate Wrote(op: Op, a: Answer, key: string, value: string) {
    || (op.Put? && op.key == key && op.value == value && a == Done)
    || (op.Add? && op.key == key && op.value == value && a == Flag(true))
  }

  /**
   Read your writes: a Put that was not refused, or an Add that was told it stored, is what every read answers from
   then until the time to live is over, and no read after that, whatever calls that leave the key alone come between.
   */
  lemma ReadYourWrites(m: Entries, op: Op, now: int, calls: seq<Call>, key: string, value: string, t: int)
    requires Wrote(op, Apply(m, op, now).1, key, value) && Between(calls, key, now, t)
    ensures Seen(After(Apply(m, op, now).0, calls), key, t)
         == if t < now + op.ttl then Bytes(value) else NotFound
  {
    match op {
      case Put(_, _, ttl) => PutIsRead(m, key, value, ttl, now);
      case Add(_, _, ttl) => AddIsRead(m, key, value, ttl, now);
    }
    ReadsLater(Apply(m, op, now).0, key, value, now, now + op.ttl, calls, t);
  }

  /** A Touch keeps the value and moves the moment it expires, over the same runs. */
  lemma TouchKeepsTheValue(m: Entries, key: string, ttl: int, now: int, calls: seq<Call>, t: int)
    requires 0 < ttl && Seen(m, key, now).Bytes? && Between(calls, key, now, t)
    ensures Apply(m, Touch(key, ttl), now).1 == Flag(true)
    ensures Seen(After(Apply(m, Touch(key, ttl), now).0, calls), key, t)
         == if t < now + ttl then Seen(m, key, now) else NotFound
  {
    TouchIsRead(m, key, ttl, now);
    ReadsLater(Apply(m, Touch(key, ttl), now).0, key, Seen(m, key, now).bytes, now, now + ttl, calls, t);
  }

  /** A forgotten key misses until somebody writes it. */
  lemma ForgottenStays(m: Entries, key: string, now: int, calls: seq<Call>, t: int)
    requires Between(calls, key, now, t)
    ensures Seen(After(Apply(m, Forget(key), now).0, calls), key, t) == NotFound
  {
    ForgetIsRead(m, key, now);
    BetweenSeen(Apply(m, Forget(key), now).0, calls, key, now, t, t);
  }

  /** An Add that was told no, like a read, changes no later answer to anybody. */
  lemma RefusedAddIsUnseen(m: Entries, key: string, value: string, ttl: int, now: int, calls: seq<Call>)
    requires Apply(m, Add(key, value, ttl), now).1 == Flag(false)
    requires Monotone(calls) && (calls != [] ==> now <= calls[0].now)
    ensures LazyRun(Apply(m, Add(key, value, ttl), now).0, calls) == LazyRun(m, calls)
    ensures LazyRun(Apply(m, Get(key), now).0, calls) == LazyRun(m, calls)
  {
    SweepKeepsLookups(m, key, now);
    LazyExpiryIsInvisible(Apply(m, Add(key, value, ttl), now).0, m, calls, now);
    LazyExpiryIsInvisible(Apply(m, Get(key), now).0, m, calls, now);
    LazyExpiryIsInvisible(m, m, calls, now);
  }

  /** The sum is read until the number it was added to would have gone, or for the time to live where there was none. */
  lemma SumIsReadLater(m: Entries, key: string, delta: int, ttl: int, now: int, calls: seq<Call>, t: int)
    requires Apply(m, Increment(key, delta, ttl), now).1.Count? && Between(calls, key, now, t)
    ensures var (n, a) := Apply(m, Increment(key, delta, ttl), now);
            var gone := if Seen(m, key, now) == NotFound then now + ttl <= t else Seen(m, key, t) == NotFound;
            Seen(After(n, calls), key, t) == if gone then NotFound else Bytes(Numerals.FormatInt(a.count))
  {
    IncrementIsRead(m, key, delta, ttl, now);
    BetweenSeen(Apply(m, Increment(key, delta, ttl), now).0, calls, key, now, t, t);
  }
}
