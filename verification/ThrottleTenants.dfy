/**
 Tenants do not share the throttle's counters: what is answered to one of them is what would be answered if the
 others had never called.
 */
module ThrottleTenants {
  import opened Throttle
  import opened ThrottleLaws
  import Keys

  // --------------------------------------------------------------- the keys

  lemma AfterPrefix(p: string, tenant: string, rest: string)
    ensures (p + tenant + ":" + rest)[|p|..] == tenant + [':'] + rest
  {
  }

  lemma SameTenant(p: string, t: string, x: string, u: string, y: string)
    requires Keys.ValidTenant(t) && Keys.ValidTenant(u) && p + t + ":" + x == p + u + ":" + y
    ensures t == u && x == y
  {
    AfterPrefix(p, t, x);
    AfterPrefix(p, u, y);
    Keys.NoColon(t);
    Keys.NoColon(u);
    Keys.CutAtFirst(t, x, u, y, ':');
  }

  /** An address key tells the tenant and the address. */
  lemma ClientKeyTells(t: string, a: string, u: string, b: string)
    requires Keys.ValidTenant(t) && Keys.ValidTenant(u)
    ensures ClientKey(t, a) == ClientKey(u, b) <==> t == u && a == b
  {
    if ClientKey(t, a) == ClientKey(u, b) { SameTenant("client:", t, a, u, b); }
  }

  lemma PairSplits(t: string, f: string, a: string)
    ensures PairKey(t, f, a) == "signin:" + t + ":" + (f + [':'] + a)
  {
  }

  /** A pair key tells the tenant, the identity and the address; a fingerprint is base 64 and holds no colon. */
  lemma PairKeyTells(t: string, f: string, a: string, u: string, g: string, b: string)
    requires Keys.ValidTenant(t) && Keys.ValidTenant(u) && ':' !in f && ':' !in g
    ensures PairKey(t, f, a) == PairKey(u, g, b) <==> t == u && f == g && a == b
  {
    if PairKey(t, f, a) == PairKey(u, g, b) {
      PairSplits(t, f, a);
      PairSplits(u, g, b);
      SameTenant("signin:", t, f + [':'] + a, u, g + [':'] + b);
      Keys.CutAtFirst(f, a, g, b, ':');
    }
  }

  // --------------------------------------------------------------- the calls

  /** A call made for this tenant. */
  ghost predicate Of(c: Call, tenant: string) {
    exists f, a :: ':' !in f && c.pair == PairKey(tenant, f, a) && c.client == ClientKey(tenant, a)
  }

  /** A key of this tenant. */
  ghost predicate Owns(tenant: string, key: string) {
    exists f, a :: ':' !in f && (key == PairKey(tenant, f, a) || key == ClientKey(tenant, a))
  }

  lemma OwnKeys(c: Call, tenant: string)
    requires Of(c, tenant)
    ensures Owns(tenant, c.pair) && Owns(tenant, c.client)
  {
  }

  /** No key is of two tenants. */
  lemma OwnedByOne(t: string, u: string, key: string)
    requires Keys.ValidTenant(t) && Keys.ValidTenant(u) && Owns(t, key) && Owns(u, key)
    ensures t == u
  {
    var f, a :| ':' !in f && (key == PairKey(t, f, a) || key == ClientKey(t, a));
    var g, b :| ':' !in g && (key == PairKey(u, g, b) || key == ClientKey(u, b));
    KeysApart(t, f, a, u, b);
    KeysApart(u, g, b, t, a);
    PairKeyTells(t, f, a, u, g, b);
    ClientKeyTells(t, a, u, b);
  }

  lemma AnothersKeys(c: Call, t: string, u: string, key: string)
    requires Keys.ValidTenant(t) && Keys.ValidTenant(u) && t != u && Of(c, u) && Owns(t, key)
    ensures key != c.pair && key != c.client
  {
    OwnKeys(c, u);
    if Owns(u, key) { OwnedByOne(t, u, key); }
  }

  // ----------------------------------------------------- what one tenant sees

  /** Two tables that no attempt of this tenant can tell apart from now on. */
  ghost predicate AlikeFor(m: Counters, n: Counters, tenant: string, now: int) {
    forall k :: Owns(tenant, k) ==> LiveAt(m, k, now) == LiveAt(n, k, now)
  }

  lemma LaterAlikeFor(m: Counters, n: Counters, tenant: string, now: int, later: int)
    requires AlikeFor(m, n, tenant, now) && now <= later
    ensures AlikeFor(m, n, tenant, later)
  {
    forall k | Owns(tenant, k) ensures LiveAt(m, k, later) == LiveAt(n, k, later) {
      assert LiveAt(m, k, now) == LiveAt(n, k, now);
    }
  }

  lemma TakenLive(p: Policy, m: Counters, n: Counters, key: string, limit: int, now: int, k: string)
    requires LiveAt(m, key, now) == LiveAt(n, key, now) && LiveAt(m, k, now) == LiveAt(n, k, now)
    ensures LiveAt(Taken(p, m, key, limit, now), k, now) == LiveAt(Taken(p, n, key, limit, now), k, now)
  {
  }

  lemma TakenFor(p: Policy, m: Counters, n: Counters, tenant: string, key: string, limit: int, now: int)
    requires AlikeFor(m, n, tenant, now) && Owns(tenant, key)
    ensures AlikeFor(Taken(p, m, key, limit, now), Taken(p, n, key, limit, now), tenant, now)
  {
    assert LiveAt(m, key, now) == LiveAt(n, key, now);
    forall k | Owns(tenant, k)
      ensures LiveAt(Taken(p, m, key, limit, now), k, now) == LiveAt(Taken(p, n, key, limit, now), k, now)
    {
      TakenLive(p, m, n, key, limit, now, k);
    }
  }

  lemma GivenBackLive(m: Counters, n: Counters, key: string, now: int, k: string)
    requires LiveAt(m, key, now) == LiveAt(n, key, now) && LiveAt(m, k, now) == LiveAt(n, k, now)
    ensures LiveAt(GivenBack(m, key), k, now) == LiveAt(GivenBack(n, key), k, now)
    ensures LiveAt(m - {key}, k, now) == LiveAt(n - {key}, k, now)
  {
  }

  lemma GivenBackFor(m: Counters, n: Counters, tenant: string, key: string, now: int)
    requires AlikeFor(m, n, tenant, now) && Owns(tenant, key)
    ensures AlikeFor(GivenBack(m, key), GivenBack(n, key), tenant, now)
    ensures AlikeFor(m - {key}, n - {key}, tenant, now)
  {
    assert LiveAt(m, key, now) == LiveAt(n, key, now);
    forall k | Owns(tenant, k)
      ensures LiveAt(GivenBack(m, key), k, now) == LiveAt(GivenBack(n, key), k, now)
      ensures LiveAt(m - {key}, k, now) == LiveAt(n - {key}, k, now)
    {
      GivenBackLive(m, n, key, now, k);
    }
  }

  lemma DecideFor(p: Policy, m: Counters, n: Counters, tenant: string, c: Call)
    requires c.Attempt? && AlikeFor(m, n, tenant, c.now) && Owns(tenant, c.pair) && Owns(tenant, c.client)
    ensures Decide(p, m, c.pair, c.client, c.now).1 == Decide(p, n, c.pair, c.client, c.now).1
    ensures AlikeFor(Decide(p, m, c.pair, c.client, c.now).0, Decide(p, n, c.pair, c.client, c.now).0, tenant, c.now)
  {
    assert LiveAt(m, c.pair, c.now) == LiveAt(n, c.pair, c.now);
    assert LiveAt(m, c.client, c.now) == LiveAt(n, c.client, c.now);
    TakenFor(p, m, n, tenant, c.pair, p.maxFailures, c.now);
    TakenFor(p, Taken(p, m, c.pair, p.maxFailures, c.now), Taken(p, n, c.pair, p.maxFailures, c.now), tenant, c.client,
             p.maxPerClient, c.now);
  }

  lemma AttemptFor(p: Policy, s: State, t: State, tenant: string, c: Call)
    requires c.Attempt? && Of(c, tenant) && Roomy(p, s, c) && Roomy(p, t, c)
    requires AlikeFor(s.counters, t.counters, tenant, c.now)
    ensures Do(p, s, c).1 == Do(p, t, c).1
    ensures AlikeFor(Do(p, s, c).0.counters, Do(p, t, c).0.counters, tenant, c.now)
  {
    SweptAlike(p, s, c);
    SweptAlike(p, t, c);
    OwnKeys(c, tenant);
    var m, n := Trimmed(p, s, c.now, c.kept).counters, Trimmed(p, t, c.now, c.kept).counters;
    assert AlikeFor(m, n, tenant, c.now) by {
      forall k | Owns(tenant, k) ensures LiveAt(m, k, c.now) == LiveAt(n, k, c.now) {
        assert LiveAt(s.counters, k, c.now) == LiveAt(t.counters, k, c.now);
      }
    }
    DecideFor(p, m, n, tenant, c);
  }

  /** A call of the tenant's own answers alike on tables alike to it, and leaves them so. */
  lemma OwnCall(p: Policy, s: State, t: State, tenant: string, c: Call, now: int)
    requires Of(c, tenant) && Roomy(p, s, c) && Roomy(p, t, c) && AlikeFor(s.counters, t.counters, tenant, now)
    requires c.Attempt? ==> c.now == now
    ensures Do(p, s, c).1 == Do(p, t, c).1
    ensures AlikeFor(Do(p, s, c).0.counters, Do(p, t, c).0.counters, tenant, now)
  {
    OwnKeys(c, tenant);
    match c {
      case Attempt(_, _, _, _) => AttemptFor(p, s, t, tenant, c);
      case Refund(pair, client) =>
        GivenBackFor(s.counters, t.counters, tenant, pair, now);
        GivenBackFor(GivenBack(s.counters, pair), GivenBack(t.counters, pair), tenant, client, now);
      case Clear(pair, client) =>
        GivenBackFor(s.counters, t.counters, tenant, pair, now);
        GivenBackFor(s.counters - {pair}, t.counters - {pair}, tenant, client, now);
    }
  }

  lemma BesideCall(p: Policy, s: State, c: Call, k: string, now: int)
    requires k != c.pair && k != c.client && Roomy(p, s, c) && (c.Attempt? ==> c.now == now)
    ensures LiveAt(Do(p, s, c).0.counters, k, now) == LiveAt(s.counters, k, now)
  {
    if c.Attempt? {
      SweptAlike(p, s, c);
      var m := Trimmed(p, s, c.now, c.kept).counters;
      assert LiveAt(m, k, now) == LiveAt(s.counters, k, now);
      UntouchedStays(p, m, c, k);
    }
  }

  /** A call of another tenant leaves the table alike to this one. */
  lemma AnothersCall(p: Policy, s: State, tenant: string, other: string, c: Call, now: int)
    requires Keys.ValidTenant(tenant) && Keys.ValidTenant(other) && other != tenant && Of(c, other)
    requires Roomy(p, s, c) && (c.Attempt? ==> c.now == now)
    ensures AlikeFor(Do(p, s, c).0.counters, s.counters, tenant, now)
  {
    forall k | Owns(tenant, k) ensures LiveAt(Do(p, s, c).0.counters, k, now) == LiveAt(s.counters, k, now) {
      AnothersKeys(c, tenant, other, k);
      BesideCall(p, s, c, k, now);
    }
  }

  // ------------------------------------------------------------------- runs

  /** A call and the tenant it is made for. */
  datatype Tenanted = Tenanted(tenant: string, call: Call)

  ghost predicate Proper(all: seq<Tenanted>) {
    forall x :: x in all ==> Keys.ValidTenant(x.tenant) && Of(x.call, x.tenant)
  }

  function Calls(all: seq<Tenanted>): seq<Call> {
    if all == [] then [] else Calls(all[..|all| - 1]) + [all[|all| - 1].call]
  }

  /** The calls of one tenant, and what they are answered among all of them. */
  function Mine(all: seq<Tenanted>, tenant: string): seq<Tenanted> {
    if all == [] then []
    else
      var last := all[|all| - 1];
      Mine(all[..|all| - 1], tenant) + if last.tenant == tenant then [last] else []
  }

  function AnswersTo(p: Policy, s: State, all: seq<Tenanted>, tenant: string): seq<Answer> {
    if all == [] then []
    else
      var init, last := all[..|all| - 1], all[|all| - 1];
      AnswersTo(p, s, init, tenant)
      + if last.tenant == tenant then [Do(p, After(p, s, Calls(init)), last.call).1] else []
  }

  /** Made under a clock that does not go back, up to this moment. */
  predicate Timely(all: seq<Tenanted>, clock: int) {
    all != [] ==>
      var last := all[|all| - 1].call;
      && (last.Attempt? ==> last.now <= clock)
      && Timely(all[..|all| - 1], if last.Attempt? then last.now else clock)
  }

  lemma CallsOneMore(p: Policy, s: State, all: seq<Tenanted>, x: Tenanted)
    ensures Calls(all + [x]) == Calls(all) + [x.call]
    ensures After(p, s, Calls(all + [x])) == Do(p, After(p, s, Calls(all)), x.call).0
    ensures Answers(p, s, Calls(all + [x])) == Answers(p, s, Calls(all)) + [Do(p, After(p, s, Calls(all)), x.call).1]
  {
    assert (all + [x])[..|all|] == all;
    assert (Calls(all) + [x.call])[..|Calls(all)|] == Calls(all);
  }

  /** What the tenant has seen so far, and what its next call will see. */
  ghost predicate Apart(p: Policy, s: State, all: seq<Tenanted>, mine: seq<Tenanted>, tenant: string, clock: int) {
    && AnswersTo(p, s, all, tenant) == Answers(p, s, Calls(mine))
    && AlikeFor(After(p, s, Calls(all)).counters, After(p, s, Calls(mine)).counters, tenant, clock)
  }

  lemma ApartOwn(p: Policy, s: State, all: seq<Tenanted>, mine: seq<Tenanted>, x: Tenanted, tenant: string, clock: int)
    requires Apart(p, s, all, mine, tenant, clock) && x.tenant == tenant && Of(x.call, tenant)
    requires Roomy(p, After(p, s, Calls(all)), x.call) && Roomy(p, After(p, s, Calls(mine)), x.call)
    requires x.call.Attempt? ==> x.call.now == clock
    ensures Apart(p, s, all + [x], mine + [x], tenant, clock)
  {
    assert (all + [x])[..|all|] == all;
    CallsOneMore(p, s, all, x);
    CallsOneMore(p, s, mine, x);
    OwnCall(p, After(p, s, Calls(all)), After(p, s, Calls(mine)), tenant, x.call, clock);
  }

  lemma ApartAnother(p: Policy, s: State, all: seq<Tenanted>, mine: seq<Tenanted>, x: Tenanted, tenant: string,
                     clock: int)
    requires Apart(p, s, all, mine, tenant, clock) && x.tenant != tenant && Of(x.call, x.tenant)
    requires Keys.ValidTenant(tenant) && Keys.ValidTenant(x.tenant) && Roomy(p, After(p, s, Calls(all)), x.call)
    requires x.call.Attempt? ==> x.call.now == clock
    ensures Apart(p, s, all + [x], mine, tenant, clock)
  {
    assert (all + [x])[..|all|] == all;
    CallsOneMore(p, s, all, x);
    AnothersCall(p, After(p, s, Calls(all)), tenant, x.tenant, x.call, clock);
  }

  lemma ApartLater(p: Policy, s: State, all: seq<Tenanted>, mine: seq<Tenanted>, tenant: string, now: int, clock: int)
    requires Apart(p, s, all, mine, tenant, now) && now <= clock
    ensures Apart(p, s, all, mine, tenant, clock)
  {
    LaterAlikeFor(After(p, s, Calls(all)).counters, After(p, s, Calls(mine)).counters, tenant, now, clock);
  }

  lemma ProperInit(all: seq<Tenanted>)
    requires Proper(all) && all != []
    ensures Proper(all[..|all| - 1]) && Of(all[|all| - 1].call, all[|all| - 1].tenant)
    ensures Keys.ValidTenant(all[|all| - 1].tenant) && all == all[..|all| - 1] + [all[|all| - 1]]
  {
    assert all[|all| - 1] in all && forall x :: x in all[..|all| - 1] ==> x in all;
  }

  lemma RoomyInit(p: Policy, s: State, calls: seq<Call>, c: Call)
    requires RoomyRun(p, s, calls + [c])
    ensures RoomyRun(p, s, calls) && Roomy(p, After(p, s, calls), c)
  {
    var more := calls + [c];
    assert more[|calls|] == c && more[..|calls|] == calls;
    forall i | 0 <= i < |calls| ensures Roomy(p, After(p, s, calls[..i]), calls[i]) {
      assert more[..i] == calls[..i] && more[i] == calls[i];
    }
  }

  lemma MineOneMore(all: seq<Tenanted>, x: Tenanted, tenant: string)
    ensures Mine(all + [x], tenant) == if x.tenant == tenant then Mine(all, tenant) + [x] else Mine(all, tenant)
  {
    assert (all + [x])[..|all|] == all;
  }

  /**
   Over every run of calls for many tenants in which nothing is evicted, each tenant is answered what it would be
   answered if only its own calls had been made.
   */
  lemma {:induction false} TenantsApart(p: Policy, s: State, all: seq<Tenanted>, tenant: string, clock: int)
    requires Keys.ValidTenant(tenant) && Proper(all) && Timely(all, clock)
    requires RoomyRun(p, s, Calls(all)) && RoomyRun(p, s, Calls(Mine(all, tenant)))
    ensures AnswersTo(p, s, all, tenant) == Answers(p, s, Calls(Mine(all, tenant)))
    ensures Apart(p, s, all, Mine(all, tenant), tenant, clock)
  {
    if all != [] {
      var init, x := all[..|all| - 1], all[|all| - 1];
      var at := if x.call.Attempt? then x.call.now else clock;
      ProperInit(all);
      MineOneMore(init, x, tenant);
      CallsOneMore(p, s, init, x);
      CallsOneMore(p, s, Mine(init, tenant), x);
      RoomyInit(p, s, Calls(init), x.call);
      if x.tenant == tenant {
        RoomyInit(p, s, Calls(Mine(init, tenant)), x.call);
        TenantsApart(p, s, init, tenant, at);
        ApartOwn(p, s, init, Mine(init, tenant), x, tenant, at);
      } else {
        TenantsApart(p, s, init, tenant, at);
        ApartAnother(p, s, init, Mine(init, tenant), x, tenant, at);
      }
      ApartLater(p, s, all, Mine(all, tenant), tenant, at, clock);
    }
  }
}
