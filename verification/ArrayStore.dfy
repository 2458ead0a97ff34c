/**
 The in-process store: a map with deadlines whose expired entries are dropped when they
 are next looked at, and a second map for locks. Every operation is given the clock.
 */
module ArrayStores {
  import opened Wrappers
  import Numerals
  import Keys

  datatype Entry = Entry(value: string, expires: int)

  type Entries = map<string, Entry>

  datatype Op =
    | Get(key: string)
    | Put(key: string, value: string, ttl: int)
    | Add(key: string, value: string, ttl: int)
    | Forget(key: string)
    | Increment(key: string, delta: int, ttl: int)
    | Touch(key: string, ttl: int)
    | Flush(prefix: string)

  datatype Answer =
    | NotFound
    | Bytes(bytes: string)
    | Done
    | Flag(flag: bool)
    | Count(count: int)
    | NoTTL
    | NotACounter

  /** Two's complement wrap-around of a 64-bit sum. */
  function Wrap64(n: int): (r: int)
    ensures Numerals.MIN_INT64 <= r <= Numerals.MAX_INT64
    ensures Numerals.MIN_INT64 <= n <= Numerals.MAX_INT64 ==> r == n
  {
    (n - Numerals.MIN_INT64) % 0x1_0000_0000_0000_0000 + Numerals.MIN_INT64
  }

  lemma WrapsAround(n: int)
    ensures (Wrap64(n) - n) % 0x1_0000_0000_0000_0000 == 0
  {
  }

  /** What a store holds for anyone who asks at this moment. */
  function Lookup(m: Entries, key: string, now: int): Option<Entry> {
    if key in m && now < m[key].expires then Some(m[key]) else None
  }

  function Without(m: Entries, prefix: string): Entries {
    map k | k in m && !(prefix <= k) :: m[k]
  }

  /** The map after `live` has looked at a key. */
  function Looked(m: Entries, key: string, now: int): Entries {
    if key in m && m[key].expires <= now then m - {key} else m
  }

  /** Writing a key leaves no trace of the look before it. */
  lemma WriteAfterLook(m: Entries, key: string, now: int, e: Entry)
    ensures Looked(m, key, now)[key := e] == m[key := e]
  {
  }

  /** The store as the code runs it: an expired entry stays until somebody looks at it. */
  function Apply(m: Entries, op: Op, now: int): (Entries, Answer) {
    match op
    case Get(k) =>
      (Looked(m, k, now), if Lookup(m, k, now).None? then NotFound else Bytes(Lookup(m, k, now).value.value))
    case Put(k, v, ttl) =>
      if ttl <= 0 then (m, NoTTL) else (m[k := Entry(v, now + ttl)], Done)
    case Add(k, v, ttl) =>
      if ttl <= 0 then (m, NoTTL)
      else if Lookup(m, k, now).Some? then (m, Flag(false))
      else (m[k := Entry(v, now + ttl)], Flag(true))
    case Forget(k) => (m - {k}, Done)
    case Increment(k, delta, ttl) =>
      if ttl <= 0 then (m, NoTTL)
      else (
        match Lookup(m, k, now)
        case None =>
          var n := Wrap64(delta);
          (m[k := Entry(Numerals.FormatInt(n), now + ttl)], Count(n))
        case Some(e) =>
          match Numerals.ParseInt(e.value)
          case None => (m, NotACounter)
          case Some(c) =>
            var n := Wrap64(c + delta);
            (m[k := Entry(Numerals.FormatInt(n), e.expires)], Count(n))
      )
    case Touch(k, ttl) =>
      if ttl <= 0 then (m, NoTTL)
      else (
        match Lookup(m, k, now)
        case None => (Looked(m, k, now), Flag(false))
        case Some(e) => (m[k := Entry(e.value, now + ttl)], Flag(true))
      )
    case Flush(prefix) => (Without(m, prefix), Done)
  }

  /** An increment that finds this counter, or none, in terms of the map after the look. */
  lemma IncrementFinds(m: Entries, k: string, delta: int, ttl: int, now: int, n: int, expires: int)
    requires 0 < ttl
    requires Lookup(m, k, now).None? ==> n == 0 && expires == now + ttl
    requires Lookup(m, k, now).Some? ==>
               var e := Lookup(m, k, now).value; Numerals.ParseInt(e.value) == Some(n) && expires == e.expires
    ensures var sum := Wrap64(n + delta);
            Apply(m, Increment(k, delta, ttl), now)
            == (Looked(m, k, now)[k := Entry(Numerals.FormatInt(sum), expires)], Count(sum))
  {
    WriteAfterLook(m, k, now, Entry(Numerals.FormatInt(Wrap64(n + delta)), expires));
  }

  /** AcquireLock and ReleaseLock on the map of locks, whose values are tokens. */
  function AcquiredLock(locks: Entries, key: string, token: string, ttl: int, now: int): (Entries, Answer) {
    if ttl <= 0 then (locks, NoTTL)
    else if Lookup(locks, key, now).Some? then (locks, Flag(false))
    else (locks[key := Entry(token, now + ttl)], Flag(true))
  }

  function ReleasedLock(locks: Entries, key: string, token: string, now: int): Entries {
    match Lookup(locks, key, now)
    case None => Looked(locks, key, now)
    case Some(e) => if e.value == token then locks - {key} else locks
  }

  class ArrayStore {
    var entries: Entries
    var locks: Entries

    constructor ()
      ensures entries == map[] && locks == map[]
    {
      entries, locks := map[], map[];
    }

    /** `live` on the entries: the look that drops what has expired. */
    method Live(key: string, now: int) returns (e: Option<Entry>)
      modifies this`entries
      ensures e == Lookup(old(entries), key, now)
      ensures entries == Looked(old(entries), key, now)
    {
      if key !in entries {
        return None;
      }
      if entries[key].expires <= now {
        entries := entries - {key};
        return None;
      }
      e := Some(entries[key]);
    }

    method Get(key: string, now: int) returns (a: Answer)
      modifies this`entries
      ensures (entries, a) == Apply(old(entries), Op.Get(key), now)
    {
      var e := Live(key, now);
      a := if e.None? then NotFound else Bytes(e.value.value);
    }

    method Put(key: string, value: string, ttl: int, now: int) returns (a: Answer)
      modifies this`entries
      ensures (entries, a) == Apply(old(entries), Op.Put(key, value, ttl), now)
    {
      if ttl <= 0 {
        return NoTTL;
      }
      entries := entries[key := Entry(value, now + ttl)];
      a := Done;
    }

    method Add(key: string, value: string, ttl: int, now: int) returns (a: Answer)
      modifies this`entries
      ensures (entries, a) == Apply(old(entries), Op.Add(key, value, ttl), now)
    {
      if ttl <= 0 {
        return NoTTL;
      }
      var e := Live(key, now);
      if e.Some? {
        return Flag(false);
      }
      WriteAfterLook(old(entries), key, now, Entry(value, now + ttl));
      entries := entries[key := Entry(value, now + ttl)];
      a := Flag(true);
    }

    method Forget(key: string, now: int) returns (a: Answer)
      modifies this`entries
      ensures (entries, a) == Apply(old(entries), Op.Forget(key), now)
    {
      entries := entries - {key};
      a := Done;
    }

    method Increment(key: string, delta: int, ttl: int, now: int) returns (a: Answer)
      modifies this`entries
      ensures (entries, a) == Apply(old(entries), Op.Increment(key, delta, ttl), now)
    {
      if ttl <= 0 {
        return NoTTL;
      }
      var n, expires := 0, now + ttl;
      var e := Live(key, now);
      if e.Some? {
        var parsed := Numerals.ParseInt(e.value.value);
        if parsed.None? {
          return NotACounter;
        }
        n, expires := parsed.value, e.value.expires;
      }
      IncrementFinds(old(entries), key, delta, ttl, now, n, expires);
      n := Wrap64(n + delta);
      entries := entries[key := Entry(Numerals.FormatInt(n), expires)];
      a := Count(n);
    }

    method Touch(key: string, ttl: int, now: int) returns (a: Answer)
      modifies this`entries
      ensures (entries, a) == Apply(old(entries), Op.Touch(key, ttl), now)
    {
      if ttl <= 0 {
        return NoTTL;
      }
      var e := Live(key, now);
      if e.None? {
        return Flag(false);
      }
      entries := entries[key := Entry(e.value.value, now + ttl)];
      a := Flag(true);
    }

    /** Deleting while ranging: the keys are visited in any order. */
    method Flush(prefix: string, now: int) returns (a: Answer)
      modifies this`entries
      ensures (entries, a) == Apply(old(entries), Op.Flush(prefix), now)
    {
      var left := entries.Keys;
      while left != {}
        invariant left <= old(entries).Keys
        invariant entries == map k | k in old(entries) && (k in left || !(prefix <= k)) :: old(entries)[k]
        decreases |left|
      {
        var key :| key in left;
        if prefix <= key {
          entries := entries - {key};
        }
        left := left - {key};
      }
      assert entries == Without(old(entries), prefix);
      a := Done;
    }

    /** `live` on the locks. */
    method LiveLock(key: string, now: int) returns (e: Option<Entry>)
      modifies this`locks
      ensures e == Lookup(old(locks), key, now)
      ensures locks == Looked(old(locks), key, now)
    {
      if key !in locks {
        return None;
      }
      if locks[key].expires <= now {
        locks := locks - {key};
        return None;
      }
      e := Some(locks[key]);
    }

    method AcquireLock(key: string, token: string, ttl: int, now: int) returns (a: Answer)
      modifies this`locks
      ensures (locks, a) == AcquiredLock(old(locks), key, token, ttl, now)
    {
      if ttl <= 0 {
        return NoTTL;
      }
      var e := LiveLock(key, now);
      if e.Some? {
        return Flag(false);
      }
      WriteAfterLook(old(locks), key, now, Entry(token, now + ttl));
      locks := locks[key := Entry(token, now + ttl)];
      a := Flag(true);
    }

    method ReleaseLock(key: string, token: string, now: int)
      modifies this`locks
      ensures locks == ReleasedLock(old(locks), key, token, now)
    {
      var e := LiveLock(key, now);
      if e.None? || e.value.value != token {
        return;
      }
      locks := locks - {key};
    }
  }

  // ------------------------------------------------- lazy expiry is invisible

  /** The store with everything that has expired already gone. */
  function Sweep(m: Entries, now: int): Entries {
    map k | k in m && now < m[k].expires :: m[k]
  }

  /** The same store swept before every operation. */
  function Eager(m: Entries, op: Op, now: int): (Entries, Answer) {
    Apply(Sweep(m, now), op, now)
  }

  lemma SweepKeepsLookups(m: Entries, key: string, now: int)
    ensures Lookup(Sweep(m, now), key, now) == Lookup(m, key, now)
    ensures Sweep(Looked(m, key, now), now) == Sweep(m, now)
    ensures Looked(Sweep(m, now), key, now) == Sweep(m, now)
  {
  }

  lemma LaterSweep(m: Entries, now: int, later: int)
    requires now <= later
    ensures Sweep(Sweep(m, now), later) == Sweep(m, later)
  {
  }

  lemma SweepCommutes(m: Entries, prefix: string, now: int)
    ensures Sweep(Without(Sweep(m, now), prefix), now) == Sweep(Without(m, prefix), now)
  {
  }

  /** An operation on one key leaves the map, looks at the key, writes it or drops it. */
  lemma OneKeyAtMost(m: Entries, op: Op, now: int) returns (e: Entry)
    requires !op.Flush?
    ensures var after := Apply(m, op, now).0;
            after == m || after == Looked(m, op.key, now) || after == m[op.key := e] || after == m - {op.key}
  {
    var after := Apply(m, op, now).0;
    e := if op.key in after then after[op.key] else Entry("", 0);
  }

  /** Only the key an operation names, or a flush, changes what the store holds. */
  lemma Frame(m: Entries, op: Op, now: int, k: string)
    requires !op.Flush? && k != op.key
    ensures var after := Apply(m, op, now).0; (k in after <==> k in m) && (k in m ==> after[k] == m[k])
  {
    var e := OneKeyAtMost(m, op, now);
  }

  /** The two maps hold the same away from this key. */
  ghost predicate SameBeside(a: Entries, b: Entries, key: string) {
    forall k :: k != key ==> (k in a <==> k in b) && (k in a ==> a[k] == b[k])
  }

  lemma FrameAll(m: Entries, op: Op, now: int)
    requires !op.Flush?
    ensures SameBeside(Apply(m, op, now).0, m, op.key)
  {
    forall k | k != op.key { Frame(m, op, now, k); }
  }

  lemma SweptAlike(m: Entries, a: Entries, b: Entries, key: string, now: int)
    requires SameBeside(a, m, key) && SameBeside(b, Sweep(m, now), key) && Lookup(a, key, now) == Lookup(b, key, now)
    ensures Sweep(a, now) == Sweep(b, now)
  {
  }

  /** One operation: lazy and eager stores answer alike and stay alike once swept. */
  lemma EagerStep(m: Entries, op: Op, now: int)
    ensures Apply(m, op, now).1 == Eager(m, op, now).1
    ensures Sweep(Apply(m, op, now).0, now) == Sweep(Eager(m, op, now).0, now)
  {
    if op.Flush? {
      SweepCommutes(m, op.prefix, now);
    } else {
      SweepKeepsLookups(m, op.key, now);
      SameOutcome(m, Sweep(m, now), op, now);
      FrameAll(m, op, now);
      FrameAll(Sweep(m, now), op, now);
      SweptAlike(m, Apply(m, op, now).0, Eager(m, op, now).0, op.key, now);
    }
  }

  /** Stores that agree on the key answer alike, and agree on it afterwards. */
  lemma SameOutcome(m: Entries, n: Entries, op: Op, now: int)
    requires !op.Flush? && Lookup(m, op.key, now) == Lookup(n, op.key, now)
    ensures Apply(m, op, now).1 == Apply(n, op, now).1
    ensures Lookup(Apply(m, op, now).0, op.key, now) == Lookup(Apply(n, op, now).0, op.key, now)
  {
  }

  datatype Call = Call(op: Op, now: int)

  ghost predicate Monotone(calls: seq<Call>) {
    forall i, j :: 0 <= i < j < |calls| ==> calls[i].now <= calls[j].now
  }

  function LazyRun(m: Entries, calls: seq<Call>): seq<Answer>
    decreases |calls|
  {
    if calls == [] then []
    else [Apply(m, calls[0].op, calls[0].now).1] + LazyRun(Apply(m, calls[0].op, calls[0].now).0, calls[1..])
  }

  function EagerRun(m: Entries, calls: seq<Call>): seq<Answer>
    decreases |calls|
  {
    if calls == [] then []
    else [Eager(m, calls[0].op, calls[0].now).1] + EagerRun(Eager(m, calls[0].op, calls[0].now).0, calls[1..])
  }

  lemma EagerFromSwept(m: Entries, op: Op, now: int, earlier: int)
    requires earlier <= now
    ensures Eager(Sweep(m, earlier), op, now) == Eager(m, op, now)
  {
    LaterSweep(m, earlier, now);
  }

  /**
   Dropping expired entries only when somebody looks is never observable: over every run
   under a clock that does not go back, the store answers as one swept before every call.
   */
  lemma {:induction false} LazyExpiryIsInvisible(lazy: Entries, eager: Entries, calls: seq<Call>, since: int)
    requires Monotone(calls) && (calls != [] ==> since <= calls[0].now)
    requires Sweep(lazy, since) == Sweep(eager, since)
    ensures LazyRun(lazy, calls) == EagerRun(eager, calls)
    decreases |calls|
  {
    if calls != [] {
      var op, now := calls[0].op, calls[0].now;
      EagerStep(lazy, op, now);
      EagerFromSwept(lazy, op, now, since);
      EagerFromSwept(eager, op, now, since);
      assert calls[1..] == [] || calls[1..][0] == calls[1];
      LazyExpiryIsInvisible(Apply(lazy, op, now).0, Eager(eager, op, now).0, calls[1..], now);
    }
  }

  // ------------------------------------------------------- flush by prefix

  /** The rows `DELETE ... WHERE key LIKE ?` leaves, under a backslash escape. */
  function DeleteLike(m: Entries, pattern: string): Entries {
    map k | k in m && !Keys.Like(pattern, k, true) :: m[k]
  }

  /** The database store and the array store flush the same entries. */
  lemma FlushesAgree(m: Entries, prefix: string)
    ensures DeleteLike(m, Keys.Escaped(prefix) + "%") == Without(m, prefix)
  {
    forall k | k in m ensures Keys.Like(Keys.Escaped(prefix) + "%", k, true) <==> prefix <= k {
      Keys.EscapedMatchesExtensions(prefix, k);
    }
  }

  /** A flush of one tenant's namespace removes its entries and leaves every other entry as it was. */
  lemma FlushIsolatesTenants(m: Entries, tenant: string, namespace: string,
                             t: string, n: string, key: string, now: int)
    requires Keys.Prefix(tenant, namespace).Ok? && Keys.FullKey(t, n, key).Ok?
    ensures var after := Apply(m, Flush(Keys.Prefix(tenant, namespace).value), now).0;
            var full := Keys.FullKey(t, n, key).value;
            if t == tenant && n == namespace then full !in after
            else (full in after <==> full in m) && (full in m ==> after[full] == m[full])
  {
    Keys.PrefixSeparates(tenant, namespace, t, n, key);
  }
}
