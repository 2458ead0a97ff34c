/**
 The sign-in throttle: two budgets read and spent in one step, fixed windows, an optional lockout,
 refunds, and a table that never outgrows its cap.
 */
module Throttle {
  import opened Wrappers

  const MAX_TRACKED: nat := 0x1_0000

  datatype Policy = Policy(maxFailures: int, maxPerClient: int, window: int, lockout: int) {
    predicate Valid() { 0 < maxFailures && 0 < maxPerClient && 0 < window && 0 <= lockout }
  }

  datatype Counter = Counter(count: int, reset: int)

  type Counters = map<string, Counter>

  /** `fingerprint` is the digest of the identity, lower-cased and trimmed. */
  function PairKey(tenant: string, fingerprint: string, client: string): string {
    "signin:" + tenant + ":" + fingerprint + ":" + client
  }

  function ClientKey(tenant: string, client: string): string {
    "client:" + tenant + ":" + client
  }

  /** The budget a key is counted against, which its first letters say. */
  function LimitOf(p: Policy, key: string): int {
    if "signin:" <= key then p.maxFailures else p.maxPerClient
  }

  lemma KeysApart(tenant: string, fingerprint: string, client: string, t: string, c: string)
    ensures PairKey(tenant, fingerprint, client) != ClientKey(t, c)
    ensures "signin:" <= PairKey(tenant, fingerprint, client) && !("signin:" <= ClientKey(t, c))
  {
    assert PairKey(tenant, fingerprint, client)[0] == 's' && ClientKey(t, c)[0] == 'c';
  }

  // ------------------------------------------------------------- one counter

  function Spent(m: Counters, key: string, limit: int, now: int): Option<int> {
    if key !in m || m[key].reset <= now || m[key].count < limit then None else Some(m[key].reset - now)
  }

  /** A unit taken from a key at `now`; the one that spends the budget starts the lockout, if there is one. */
  function Taken(p: Policy, m: Counters, key: string, limit: int, now: int): Counters {
    var c := if key !in m || m[key].reset <= now then Counter(0, now + p.window) else m[key];
    m[key := Counter(c.count + 1, if limit <= c.count + 1 && 0 < p.lockout then now + p.lockout else c.reset)]
  }

  function GivenBack(m: Counters, key: string): Counters {
    if key !in m then m
    else if m[key].count - 1 <= 0 then m - {key}
    else m[key := Counter(m[key].count - 1, m[key].reset)]
  }

  function DropUpTo(m: Counters, cut: int): Counters {
    map k | k in m && cut < m[k].reset :: m[k]
  }

  function Keep(m: Counters, keys: set<string>): Counters {
    map k | k in m && k in keys :: m[k]
  }

  // --------------------------------------------------------------- one call

  datatype State = State(counters: Counters, lastSweep: int)

  /** Two pairs of arguments come to two keys; `kept` is what an eviction at the cap would spare. */
  datatype Call =
    | Attempt(pair: string, client: string, now: int, kept: set<string>)
    | Refund(pair: string, client: string)
    | Clear(pair: string, client: string)

  datatype Answer = Admitted | Refused(retryAfter: int) | NoAnswer

  function Swept(p: Policy, s: State, now: int): State {
    if now - s.lastSweep >= p.window then State(DropUpTo(s.counters, now), now) else s
  }

  /** The decision, on a table already trimmed. */
  function Decide(p: Policy, m: Counters, pair: string, client: string, now: int): (Counters, Answer) {
    match Spent(m, pair, p.maxFailures, now)
    case Some(retry) => (m, Refused(retry))
    case None =>
      match Spent(m, client, p.maxPerClient, now)
      case Some(retry) => (m, Refused(retry))
      case None =>
        (Taken(p, Taken(p, m, pair, p.maxFailures, now), client, p.maxPerClient, now), Admitted)
  }

  function Trimmed(p: Policy, s: State, now: int, kept: set<string>): State {
    var swept := Swept(p, s, now);
    if |swept.counters| <= MAX_TRACKED - 2 then swept else swept.(counters := Keep(swept.counters, kept))
  }

  /** What an eviction at the cap leaves: as soon as two more fit, it stops. */
  predicate Spared(m: Counters, kept: set<string>) {
    |m| <= MAX_TRACKED - 2 || |Keep(m, kept)| == MAX_TRACKED - 2
  }

  function Do(p: Policy, s: State, c: Call): (State, Answer) {
    match c
    case Attempt(pair, client, now, kept) =>
      var t := Trimmed(p, s, now, kept);
      var (m, answer) := Decide(p, t.counters, pair, client, now);
      (t.(counters := m), answer)
    case Refund(pair, client) => (s.(counters := GivenBack(GivenBack(s.counters, pair), client)), NoAnswer)
    case Clear(pair, client) => (s.(counters := GivenBack(s.counters - {pair}, client)), NoAnswer)
  }

  // -------------------------------------------------------------- the class

  /** Every counter holds between one and its limit. */
  ghost predicate InBudget(p: Policy, m: Counters) {
    forall k :: k in m ==> 1 <= m[k].count <= LimitOf(p, k)
  }

  ghost predicate Fine(p: Policy, m: Counters) {
    InBudget(p, m) && |m| <= MAX_TRACKED
  }

  predicate ProperKeys(pair: string, client: string) {
    "signin:" <= pair && !("signin:" <= client)
  }

  lemma DropSize(m: Counters, key: string)
    ensures |m - {key}| == |m| - if key in m then 1 else 0
  {
    assert (m - {key}).Keys == m.Keys - {key};
  }

  lemma DroppedFine(p: Policy, m: Counters, key: string)
    requires Fine(p, m)
    ensures Fine(p, m - {key})
  {
    DropSize(m, key);
  }

  lemma GivenBackFine(p: Policy, m: Counters, key: string)
    requires Fine(p, m)
    ensures Fine(p, GivenBack(m, key))
  {
    DropSize(m, key);
    if key in m { assert m[key := Counter(m[key].count - 1, m[key].reset)].Keys == m.Keys; }
  }

  lemma TakenFine(p: Policy, m: Counters, key: string, now: int)
    requires p.Valid() && InBudget(p, m) && Spent(m, key, LimitOf(p, key), now).None?
    ensures InBudget(p, Taken(p, m, key, LimitOf(p, key), now))
    ensures |Taken(p, m, key, LimitOf(p, key), now)| <= |m| + 1
  {
    var m' := Taken(p, m, key, LimitOf(p, key), now);
    assert m'.Keys == m.Keys + {key};
  }

  /** Taking from one key does not spend another. */
  lemma DecideFine(p: Policy, m: Counters, pair: string, client: string, now: int)
    requires p.Valid() && ProperKeys(pair, client) && InBudget(p, m) && |m| <= MAX_TRACKED - 2
    ensures Fine(p, Decide(p, m, pair, client, now).0)
  {
    if Decide(p, m, pair, client, now).1 == Admitted {
      TakenFine(p, m, pair, now);
      TakenFine(p, Taken(p, m, pair, p.maxFailures, now), client, now);
    }
  }

  lemma KeepSize(m: Counters, kept: set<string>)
    ensures Keep(m, kept).Keys == m.Keys * kept
  {
  }

  class MemoryThrottle {
    const policy: Policy
    var counters: Counters
    var lastSweep: int

    ghost predicate Valid()
      reads this
    {
      policy.Valid() && Fine(policy, counters)
    }

    ghost function View(): State
      reads this
    {
      State(counters, lastSweep)
    }

    /** NewMemoryThrottleWith, once the policy has passed its check. */
    constructor (policy: Policy, now: int)
      requires policy.Valid()
      ensures Valid() && this.policy == policy && counters == map[] && lastSweep == now
    {
      this.policy := policy;
      counters, lastSweep := map[], now;
    }

    /** Deleting while ranging: every counter whose window is over, in any order. */
    method DropExpired(cut: int)
      modifies this`counters
      ensures counters == DropUpTo(old(counters), cut)
    {
      var left := counters.Keys;
      while left != {}
        invariant left <= old(counters).Keys
        invariant counters
               == map k | k in old(counters) && (k in left || cut < old(counters)[k].reset) :: old(counters)[k]
        decreases |left|
      {
        var k :| k in left;
        if counters[k].reset <= cut {
          counters := counters - {k};
        }
        left := left - {k};
      }
      assert counters == DropUpTo(old(counters), cut);
    }

    /** At the cap, forget counters in map order until two more fit. Says which it spared. */
    method Evict() returns (ghost kept: set<string>)
      modifies this`counters
      ensures counters == if |old(counters)| <= MAX_TRACKED - 2 then old(counters) else Keep(old(counters), kept)
      ensures |counters| <= MAX_TRACKED - 2 && Spared(old(counters), kept)
    {
      while |counters| > MAX_TRACKED - 2
        invariant counters == Keep(old(counters), counters.Keys)
        invariant |old(counters)| > MAX_TRACKED - 2 ==> |counters| >= MAX_TRACKED - 2
        invariant |old(counters)| <= MAX_TRACKED - 2 ==> counters == old(counters)
        decreases |counters|
      {
        var k :| k in counters;
        DropSize(counters, k);
        counters := counters - {k};
      }
      kept := counters.Keys;
    }

    /** Sweep once a window, then evict. */
    method Trim(now: int) returns (ghost kept: set<string>)
      requires Valid()
      modifies this
      ensures View() == Trimmed(policy, old(View()), now, kept)
      ensures Spared(Swept(policy, old(View()), now).counters, kept)
      ensures |counters| <= MAX_TRACKED - 2 && InBudget(policy, counters)
    {
      if now - lastSweep >= policy.window {
        DropExpired(now);
        lastSweep := now;
      }
      kept := Evict();
    }

    /** Both budgets are read before either is spent, and a refusal spends nothing. */
    method Attempt(tenant: string, fingerprint: string, address: string, now: int)
      returns (retryAfter: int, ok: bool, ghost kept: set<string>)
      requires Valid()
      modifies this
      ensures Valid()
      ensures (View(), if ok then Admitted else Refused(retryAfter))
           == Do(policy, old(View()),
                 Call.Attempt(PairKey(tenant, fingerprint, address), ClientKey(tenant, address), now, kept))
      ensures Spared(Swept(policy, old(View()), now).counters, kept)
    {
      var pair, client := PairKey(tenant, fingerprint, address), ClientKey(tenant, address);
      KeysApart(tenant, fingerprint, address, tenant, address);
      kept := Trim(now);
      DecideFine(policy, counters, pair, client, now);
      var spent := Spent(counters, pair, policy.maxFailures, now);
      if spent.Some? {
        return spent.value, false, kept;
      }
      spent := Spent(counters, client, policy.maxPerClient, now);
      if spent.Some? {
        return spent.value, false, kept;
      }
      counters := Taken(policy, counters, pair, policy.maxFailures, now);
      counters := Taken(policy, counters, client, policy.maxPerClient, now);
      retryAfter, ok := 0, true;
    }

    method Refund(tenant: string, fingerprint: string, address: string)
      requires Valid()
      modifies this
      ensures Valid()
      ensures View()
           == Do(policy, old(View()),
                 Call.Refund(PairKey(tenant, fingerprint, address), ClientKey(tenant, address))).0
    {
      var pair, client := PairKey(tenant, fingerprint, address), ClientKey(tenant, address);
      GivenBackFine(policy, counters, pair);
      counters := GivenBack(counters, pair);
      GivenBackFine(policy, counters, client);
      counters := GivenBack(counters, client);
    }

    method Clear(tenant: string, fingerprint: string, address: string)
      requires Valid()
      modifies this
      ensures Valid()
      ensures View()
           == Do(policy, old(View()),
                 Call.Clear(PairKey(tenant, fingerprint, address), ClientKey(tenant, address))).0
    {
      var pair, client := PairKey(tenant, fingerprint, address), ClientKey(tenant, address);
      DroppedFine(policy, counters, pair);
      counters := counters - {pair};
      GivenBackFine(policy, counters, client);
      counters := GivenBack(counters, client);
    }
  }

  // ------------------------------------------------------------------- runs

  function After(p: Policy, s: State, calls: seq<Call>): State {
    if calls == [] then s else Do(p, After(p, s, calls[..|calls| - 1]), calls[|calls| - 1]).0
  }

  ghost predicate Proper(calls: seq<Call>) {
    forall i :: 0 <= i < |calls| ==> ProperKeys(calls[i].pair, calls[i].client)
  }

  /** The clock read by the attempts does not go back. */
  ghost predicate Monotone(calls: seq<Call>) {
    forall i, j :: 0 <= i < j < |calls| && calls[i].Attempt? && calls[j].Attempt? ==> calls[i].now <= calls[j].now
  }

  lemma TrimmedFine(p: Policy, s: State, now: int, kept: set<string>)
    requires p.Valid() && Fine(p, s.counters) && |kept| <= MAX_TRACKED - 2
    ensures InBudget(p, Trimmed(p, s, now, kept).counters) && |Trimmed(p, s, now, kept).counters| <= MAX_TRACKED - 2
  {
    var swept := Swept(p, s, now).counters;
    assert swept.Keys <= s.counters.Keys;
    KeepSize(swept, kept);
    Smaller(swept.Keys * kept, kept);
  }

  lemma {:induction false} Smaller(a: set<string>, b: set<string>)
    requires a <= b
    ensures |a| <= |b|
  {
    if a != {} {
      var x :| x in a;
      Smaller(a - {x}, b - {x});
    }
  }

  /**
   In every reachable state, after any calls whatever, each counter holds between one and its limit
   and the table has at most MAX_TRACKED entries.
   */
  lemma {:induction false} AlwaysBounded(p: Policy, since: int, calls: seq<Call>)
    requires p.Valid() && Proper(calls)
    requires forall c :: c in calls && c.Attempt? ==> |c.kept| <= MAX_TRACKED - 2
    ensures Fine(p, After(p, State(map[], since), calls).counters)
  {
    if calls != [] {
      var init, last := calls[..|calls| - 1], calls[|calls| - 1];
      assert last in calls && forall c :: c in init ==> c in calls;
      AlwaysBounded(p, since, init);
      var s := After(p, State(map[], since), init);
      match last {
        case Attempt(pair, client, now, kept) =>
          TrimmedFine(p, s, now, kept);
          DecideFine(p, Trimmed(p, s, now, kept).counters, pair, client, now);
        case Refund(pair, client) =>
          GivenBackFine(p, s.counters, pair);
          GivenBackFine(p, GivenBack(s.counters, pair), client);
        case Clear(pair, client) =>
          DroppedFine(p, s.counters, pair);
          GivenBackFine(p, s.counters - {pair}, client);
      }
    }
  }

  // ------------------------------------------------- one call, seen by one key

  predicate Touches(c: Call, key: string) {
    c.pair == key || c.client == key
  }

  /** Nothing forgives a key: no refund, no clear, no eviction of it. */
  predicate Unforgiven(c: Call, key: string) {
    if c.Attempt? then key in c.kept else !Touches(c, key)
  }

  /** What is left of a key's counter when this attempt looks at it. */
  function LiveAt(m: Counters, key: string, now: int): Option<Counter> {
    if key in m && now < m[key].reset then Some(m[key]) else None
  }

  lemma TrimKeepsLive(p: Policy, s: State, key: string, now: int, kept: set<string>)
    requires key in kept
    ensures LiveAt(Trimmed(p, s, now, kept).counters, key, now) == LiveAt(s.counters, key, now)
    ensures var m := Trimmed(p, s, now, kept).counters;
            key in m ==> key in s.counters && m[key] == s.counters[key]
  {
  }

  /** An admitted attempt as one of its two keys sees it. */
  lemma AdmittedTakes(p: Policy, m: Counters, c: Call, key: string)
    requires p.Valid() && c.Attempt? && ProperKeys(c.pair, c.client) && Touches(c, key)
    requires Decide(p, m, c.pair, c.client, c.now).1 == Admitted
    ensures var m' := Decide(p, m, c.pair, c.client, c.now).0;
            var live := LiveAt(m, key, c.now);
            var from := if live.Some? then live.value else Counter(0, c.now + p.window);
            && from.count < LimitOf(p, key)
            && key in m' && m'[key].count == from.count + 1
            && m'[key].reset
               == if LimitOf(p, key) <= from.count + 1 && 0 < p.lockout then c.now + p.lockout else from.reset
  {
  }

  lemma UntouchedStays(p: Policy, m: Counters, c: Call, key: string)
    requires c.Attempt? && (!Touches(c, key) || Decide(p, m, c.pair, c.client, c.now).1 != Admitted)
    ensures var m' := Decide(p, m, c.pair, c.client, c.now).0;
            (key in m' <==> key in m) && (key in m ==> m'[key] == m[key])
  {
  }
}
