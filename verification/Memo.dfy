/**
 The memo over a store: what a key answered is remembered, a miss as well as a value,
 and every write forgets the key first.
 */
module Memos {
  import opened Wrappers
  import opened ArrayStores

  type Memory = map<string, Option<string>>

  datatype State = State(memo: Memory, entries: Entries)

  function Recall(remembered: Option<string>): Answer {
    if remembered.None? then NotFound else Bytes(remembered.value)
  }

  /** One call through the memo. */
  function Through(s: State, op: Op, now: int): (State, Answer) {
    if op.Get? && op.key in s.memo then (s, Recall(s.memo[op.key]))
    else
      var (entries, answer) := Apply(s.entries, op, now);
      var memo :=
        if op.Get? then s.memo[op.key := if answer.Bytes? then Some(answer.bytes) else None]
        else if op.Flush? then map[]
        else s.memo - {op.key};
      (State(memo, entries), answer)
  }

  class MemoizedStore {
    const store: ArrayStore
    var memo: Memory

    ghost function View(): State
      reads this, store
    {
      State(memo, store.entries)
    }

    constructor (store: ArrayStore)
      ensures this.store == store && memo == map[] && store.entries == old(store.entries)
    {
      this.store := store;
      memo := map[];
    }

    method Get(key: string, now: int) returns (a: Answer)
      modifies this`memo, store`entries
      ensures (View(), a) == Through(old(View()), Op.Get(key), now)
    {
      if key in memo {
        if memo[key].None? {
          return NotFound;
        }
        return Bytes(memo[key].value);
      }
      a := store.Get(key, now);
      memo := memo[key := if a == NotFound then None else Some(a.bytes)];
    }

    method Put(key: string, value: string, ttl: int, now: int) returns (a: Answer)
      modifies this`memo, store`entries
      ensures (View(), a) == Through(old(View()), Op.Put(key, value, ttl), now)
    {
      memo := memo - {key};
      a := store.Put(key, value, ttl, now);
    }

    method Add(key: string, value: string, ttl: int, now: int) returns (a: Answer)
      modifies this`memo, store`entries
      ensures (View(), a) == Through(old(View()), Op.Add(key, value, ttl), now)
    {
      memo := memo - {key};
      a := store.Add(key, value, ttl, now);
    }

    method Increment(key: string, delta: int, ttl: int, now: int) returns (a: Answer)
      modifies this`memo, store`entries
      ensures (View(), a) == Through(old(View()), Op.Increment(key, delta, ttl), now)
    {
      memo := memo - {key};
      a := store.Increment(key, delta, ttl, now);
    }

    method Touch(key: string, ttl: int, now: int) returns (a: Answer)
      modifies this`memo, store`entries
      ensures (View(), a) == Through(old(View()), Op.Touch(key, ttl), now)
    {
      memo := memo - {key};
      a := store.Touch(key, ttl, now);
    }

    method Forget(key: string, now: int) returns (a: Answer)
      modifies this`memo, store`entries
      ensures (View(), a) == Through(old(View()), Op.Forget(key), now)
    {
      memo := memo - {key};
      a := store.Forget(key, now);
    }

    method Flush(prefix: string, now: int) returns (a: Answer)
      modifies this`memo, store`entries
      ensures (View(), a) == Through(old(View()), Op.Flush(prefix), now)
    {
      memo := map[];
      a := store.Flush(prefix, now);
    }
  }

  /**
   With no other writer a remembered value is still the one stored, expired or not, and
   a remembered miss is a key the store does not hold.
   */
  ghost predicate Faithful(s: State) {
    forall k :: k in s.memo ==>
      if s.memo[k].None? then k !in s.entries
      else k in s.entries && s.entries[k].value == s.memo[k].value
  }

  lemma FaithfulKept(s: State, op: Op, now: int)
    requires Faithful(s)
    ensures Faithful(Through(s, op, now).0)
  {
    var s' := Through(s, op, now).0;
    forall k | k in s'.memo
      ensures if s'.memo[k].None? then k !in s'.entries else k in s'.entries && s'.entries[k].value == s'.memo[k].value
    {
      if !op.Flush? && k != op.key { Frame(s.entries, op, now, k); }
    }
  }

  predicate Stale(s: State, key: string, now: int) {
    key in s.memo && s.memo[key].Some? && key in s.entries && s.entries[key].expires <= now
  }

  /**
   A read through the memo answers what the bare store would, exactly unless the memo
   holds a value whose entry has expired since: misses and empty values stay apart.
   */
  lemma ReadAgreesExactly(s: State, key: string, now: int)
    requires Faithful(s)
    ensures Through(s, Get(key), now).1 == Apply(s.entries, Get(key), now).1 <==> !Stale(s, key, now)
  {
  }

  // ------------------------------------------------------------------ runs

  /** The state after the calls, oldest first. */
  function After(s: State, calls: seq<Call>): State
    decreases |calls|
  {
    if calls == [] then s
    else Through(After(s, calls[..|calls| - 1]), calls[|calls| - 1].op, calls[|calls| - 1].now).0
  }

  function BareAfter(m: Entries, calls: seq<Call>): Entries
    decreases |calls|
  {
    if calls == [] then m
    else Apply(BareAfter(m, calls[..|calls| - 1]), calls[|calls| - 1].op, calls[|calls| - 1].now).0
  }

  lemma {:induction false} FaithfulAlways(m: Entries, calls: seq<Call>)
    ensures Faithful(After(State(map[], m), calls))
    decreases |calls|
  {
    if calls != [] {
      var last := calls[|calls| - 1];
      FaithfulAlways(m, calls[..|calls| - 1]);
      FaithfulKept(After(State(map[], m), calls[..|calls| - 1]), last.op, last.now);
    }
  }

  ghost predicate NothingStale(s: State, now: int) {
    forall k :: !Stale(s, k, now)
  }

  lemma StillStep(s: State, op: Op, now: int)
    requires Faithful(s) && NothingStale(s, now)
    ensures NothingStale(Through(s, op, now).0, now)
    ensures Through(s, op, now).1 == Apply(s.entries, op, now).1
    ensures Through(s, op, now).0.entries == Apply(s.entries, op, now).0
  {
    var s' := Through(s, op, now).0;
    if op.Get? { ReadAgreesExactly(s, op.key, now); }
    forall k ensures !Stale(s', k, now) {
      if !op.Flush? && k != op.key { Frame(s.entries, op, now, k); }
      assert !Stale(s, k, now);
    }
  }

  /**
   Under a still clock the memo cannot be told from the store: after any calls, the next
   one answers as the bare store that received the same calls, and the entries are the same.
   */
  lemma {:induction false} MemoIsTransparent(m: Entries, calls: seq<Call>, op: Op, now: int)
    requires forall c :: c in calls ==> c.now == now
    ensures var s := After(State(map[], m), calls);
            && NothingStale(s, now)
            && s.entries == BareAfter(m, calls)
            && Through(s, op, now).1 == Apply(BareAfter(m, calls), op, now).1
    decreases |calls|
  {
    var s := After(State(map[], m), calls);
    FaithfulAlways(m, calls);
    if calls != [] {
      var before, last := calls[..|calls| - 1], calls[|calls| - 1];
      assert last in calls && forall c :: c in before ==> c in calls;
      MemoIsTransparent(m, before, last.op, now);
      FaithfulAlways(m, before);
      StillStep(After(State(map[], m), before), last.op, now);
    }
    StillStep(s, op, now);
  }

  predicate Writes(op: Op, key: string) {
    op.Flush? || (!op.Get? && op.key == key)
  }

  /**
   Under any clock, whatever the memo remembers of a key is what the store itself answered
   to one of the reads of that key, and no call since that read wrote it.
   */
  lemma {:induction false} RememberedSinceLastWrite(m: Entries, calls: seq<Call>, key: string) returns (i: nat)
    requires key in After(State(map[], m), calls).memo
    ensures i < |calls| && calls[i].op == Get(key)
    ensures Recall(After(State(map[], m), calls).memo[key])
         == Apply(After(State(map[], m), calls[..i]).entries, Get(key), calls[i].now).1
    ensures forall j :: i <= j < |calls| ==> !Writes(calls[j].op, key)
    decreases |calls|
  {
    var before, last := calls[..|calls| - 1], calls[|calls| - 1];
    var s := After(State(map[], m), before);
    if key in s.memo && !Writes(last.op, key) {
      i := RememberedSinceLastWrite(m, before, key);
      assert before[..i] == calls[..i];
    } else {
      i := |calls| - 1;
    }
  }

  /**
   A key that was read is remembered: until a call writes it, every read answers the same, whatever the clock
   says by then, and does not reach the store.
   */
  lemma {:induction false} RemembersUntilWritten(s: State, key: string, now: int, calls: seq<Call>, t: int)
    requires forall c :: c in calls ==> !Writes(c.op, key)
    ensures var (read, answer) := Through(s, Get(key), now);
            var later := After(read, calls);
            key in later.memo && later.memo[key] == read.memo[key] && Through(later, Get(key), t) == (later, answer)
    decreases |calls|
  {
    if calls != [] {
      var before, last := calls[..|calls| - 1], calls[|calls| - 1];
      assert last in calls && forall c :: c in before ==> c in calls;
      RemembersUntilWritten(s, key, now, before, t);
    }
  }
}
