/**
 The bound of two budgets a window, exactly: under every policy that is not steady, a run of attempts
 from one address that nothing forgives exceeds it.
 */
module ThrottleExcess {
  import opened Wrappers
  import opened Throttle
  import opened ThrottleWindow

  // -------------------------------------------------------------- the runs

  /** Both keys are made of one tenant, one identity and one address. */
  ghost predicate Formed(c: Call) {
    exists t, f, a :: c.pair == PairKey(t, f, a) && c.client == ClientKey(t, a)
  }

  /** Attempts of a pair that were admitted and neither refunded nor cleared yet. */
  function Pending(p: Policy, s: State, calls: seq<Call>, pair: string): int {
    if calls == [] then 0
    else
      var init, last := calls[..|calls| - 1], calls[|calls| - 1];
      Pending(p, s, init, pair)
      + if last.pair != pair then 0
        else if !last.Attempt? then -1
        else if Do(p, After(p, s, init), last).1 == Admitted then 1 else 0
  }

  /**
   Calls as the throttle is given them: a refund or a clear answers an attempt that was admitted, and an
   eviction at the cap stops when two more fit.
   */
  ghost predicate Real(p: Policy, s: State, calls: seq<Call>) {
    forall i :: 0 <= i < |calls| ==> Formed(calls[i]) && Fair(p, s, calls[..i], calls[i])
  }

  ghost predicate Fair(p: Policy, s: State, calls: seq<Call>, c: Call) {
    if c.Attempt? then Spared(Swept(p, After(p, s, calls), c.now).counters, c.kept)
    else 0 < Pending(p, s, calls, c.pair)
  }

  /** No such run that never forgives the key admits more than twice its budget in one window. */
  ghost predicate Bounded(p: Policy, key: string) {
    forall since, calls, a :: Harsh(calls, key) && Real(p, State(map[], since), calls) ==>
      AdmittedIn(p, State(map[], since), calls, key, a) <= 2 * LimitOf(p, key)
  }

  /** One identity at one address of one tenant. */
  datatype Person = Person(tenant: string, fingerprint: string, address: string) {
    function Pair(): string { PairKey(tenant, fingerprint, address) }

    function Client(): string { ClientKey(tenant, address) }
  }

  function Stroke(n: nat): string {
    if n == 0 then "" else Stroke(n - 1) + "i"
  }

  lemma {:induction false} StrokesDiffer(i: nat)
    ensures |Stroke(i)| == i
  {
    if i > 0 { StrokesDiffer(i - 1); }
  }

  /** Another identity at the same address, a different one for every number. */
  function Other(who: Person, i: nat): Person {
    who.(fingerprint := who.fingerprint + Stroke(i + 1))
  }

  lemma OthersDiffer(who: Person, i: nat)
    ensures Other(who, i).Pair() != who.Pair() && Other(who, i).Client() == who.Client()
    ensures forall j: nat :: j != i ==> Other(who, j).Pair() != Other(who, i).Pair()
    ensures ProperKeys(who.Pair(), who.Client()) && ProperKeys(Other(who, i).Pair(), who.Client())
  {
    KeysApart(who.tenant, who.fingerprint, who.address, who.tenant, who.address);
    KeysApart(who.tenant, Other(who, i).fingerprint, who.address, who.tenant, who.address);
    StrokesDiffer(i + 1);
    assert |Other(who, i).Pair()| == |who.Pair()| + i + 1;
    forall j: nat | j != i ensures Other(who, j).Pair() != Other(who, i).Pair() {
      StrokesDiffer(j + 1);
      assert |Other(who, j).Pair()| == |who.Pair()| + j + 1;
    }
  }

  // ------------------------------------------------- two counters on their own

  function Live(c: Option<Counter>, now: int): Option<Counter> {
    if c.Some? && now < c.value.reset then c else None
  }

  predicate Full(n: int, c: Option<Counter>, now: int) {
    Live(c, now).Some? && n <= c.value.count
  }

  function Took(p: Policy, n: int, c: Option<Counter>, now: int): Counter {
    var from := if Live(c, now).Some? then c.value else Counter(0, now + p.window);
    Counter(from.count + 1, if n <= from.count + 1 && 0 < p.lockout then now + p.lockout else from.reset)
  }

  /** The counters of one pair and of its address. */
  datatype Duo = Duo(pair: Option<Counter>, client: Option<Counter>)

  /** An attempt by the identity of the pair, or by one that was never seen before. */
  datatype Try = Try(own: bool, now: int)

  function Tried(p: Policy, d: Duo, e: Try): (Duo, bool) {
    if (e.own && Full(p.maxFailures, d.pair, e.now)) || Full(p.maxPerClient, d.client, e.now) then (d, false)
    else
      (Duo(if e.own then Some(Took(p, p.maxFailures, d.pair, e.now)) else d.pair,
           Some(Took(p, p.maxPerClient, d.client, e.now))), true)
  }

  /** One attempt after another. */
  datatype Script = Start | Then(before: Script, last: Try) {
    function Size(): nat { if Start? then 0 else before.Size() + 1 }

    /** In order of time, and nothing after `to`. */
    predicate Upto(to: int) { Then? ==> last.now <= to && before.Upto(last.now) }
  }

  function DuoAfter(p: Policy, x: Script): Duo {
    if x.Start? then Duo(None, None) else Tried(p, DuoAfter(p, x.before), x.last).0
  }

  /** How many of these are admitted in [a, a + window), of the pair or of the whole address. */
  function DuoIn(p: Policy, x: Script, pair: bool, a: int): nat {
    if x.Start? then 0 else DuoIn(p, x.before, pair, a) + Counted(p, DuoAfter(p, x.before), x.last, pair, a)
  }

  function Counted(p: Policy, d: Duo, e: Try, pair: bool, a: int): nat {
    if (!pair || e.own) && Tried(p, d, e).1 && a <= e.now < a + p.window then 1 else 0
  }

  // ------------------------------------------------------------- one attempt

  /** The table holds this counter of a key, as anybody who looks from `since` on can tell. */
  ghost predicate Shows(m: Counters, key: string, c: Option<Counter>, since: int) {
    forall now :: since <= now ==> LiveAt(m, key, now) == Live(c, now)
  }

  /** The table after i attempts: the two counters, nobody of the identities to come, and no more than the cap. */
  ghost predicate Agrees(s: State, who: Person, i: nat, d: Duo, since: int) {
    && Shows(s.counters, who.Pair(), d.pair, since) && Shows(s.counters, who.Client(), d.client, since)
    && |s.counters| <= MAX_TRACKED && forall j: nat :: i <= j ==> Other(who, j).Pair() !in s.counters
  }

  /** Attempt i. */
  function CallOf(who: Person, i: nat, e: Try, kept: set<string>): Call {
    Attempt(if e.own then who.Pair() else Other(who, i).Pair(), who.Client(), e.now, kept)
  }

  lemma CallIsFormed(who: Person, i: nat, e: Try, kept: set<string>)
    ensures Formed(CallOf(who, i, e, kept)) && ProperKeys(CallOf(who, i, e, kept).pair, who.Client())
  {
    OthersDiffer(who, i);
    var o := Other(who, i);
    assert o.Pair() == PairKey(o.tenant, o.fingerprint, o.address) && o.Client() == ClientKey(o.tenant, o.address);
    assert who.Pair() == PairKey(who.tenant, who.fingerprint, who.address);
  }

  lemma TrimShows(p: Policy, s: State, key: string, now: int, kept: set<string>, c: Option<Counter>)
    requires key in kept && Shows(s.counters, key, c, now)
    ensures Shows(Trimmed(p, s, now, kept).counters, key, c, now)
  {
    TrimKeepsLive(p, s, key, now, kept);
    var m := Trimmed(p, s, now, kept).counters;
    forall t | now <= t ensures LiveAt(m, key, t) == Live(c, t) {
      assert LiveAt(s.counters, key, t) == Live(c, t);
    }
  }

  lemma TakenShows(p: Policy, m: Counters, m': Counters, key: string, n: int, c: Option<Counter>, now: int)
    requires Shows(m, key, c, now) && key in m' && n == LimitOf(p, key)
    requires var live := LiveAt(m, key, now);
             var from := if live.Some? then live.value else Counter(0, now + p.window);
             && m'[key].count == from.count + 1
             && m'[key].reset == if n <= from.count + 1 && 0 < p.lockout then now + p.lockout else from.reset
    ensures Shows(m', key, Some(Took(p, n, c, now)), now)
  {
    assert LiveAt(m, key, now) == Live(c, now);
  }

  lemma SameShows(m: Counters, m': Counters, key: string, c: Option<Counter>, now: int)
    requires Shows(m, key, c, now) && (key in m' <==> key in m) && (key in m ==> m'[key] == m[key])
    ensures Shows(m', key, c, now)
  {
    forall t | now <= t ensures LiveAt(m', key, t) == Live(c, t) { assert LiveAt(m, key, t) == Live(c, t); }
  }

  /** On a table already trimmed, the decision is that of the two counters. */
  lemma DecidesAlike(p: Policy, m: Counters, who: Person, i: nat, d: Duo, e: Try, kept: set<string>)
    requires p.Valid() && Shows(m, who.Pair(), d.pair, e.now) && Shows(m, who.Client(), d.client, e.now)
    requires Other(who, i).Pair() !in m
    ensures var c := CallOf(who, i, e, kept);
            (Decide(p, m, c.pair, c.client, e.now).1 == Admitted) == Tried(p, d, e).1
  {
    OthersDiffer(who, i);
    assert LiveAt(m, who.Pair(), e.now) == Live(d.pair, e.now);
    assert LiveAt(m, who.Client(), e.now) == Live(d.client, e.now);
  }

  lemma DecidedShows(p: Policy, m: Counters, who: Person, i: nat, d: Duo, e: Try, kept: set<string>)
    requires p.Valid() && Shows(m, who.Pair(), d.pair, e.now) && Shows(m, who.Client(), d.client, e.now)
    requires Other(who, i).Pair() !in m
    ensures var c, d' := CallOf(who, i, e, kept), Tried(p, d, e).0;
            var m' := Decide(p, m, c.pair, c.client, e.now).0;
            Shows(m', who.Pair(), d'.pair, e.now) && Shows(m', who.Client(), d'.client, e.now)
  {
    var c := CallOf(who, i, e, kept);
    DecidesAlike(p, m, who, i, d, e, kept);
    OthersDiffer(who, i);
    if Tried(p, d, e).1 {
      var m' := Decide(p, m, c.pair, c.client, e.now).0;
      AdmittedTakes(p, m, c, who.Client());
      TakenShows(p, m, m', who.Client(), p.maxPerClient, d.client, e.now);
      if e.own {
        AdmittedTakes(p, m, c, who.Pair());
        TakenShows(p, m, m', who.Pair(), p.maxFailures, d.pair, e.now);
      } else {
        UntouchedStays(p, m, c, who.Pair());
        SameShows(m, m', who.Pair(), d.pair, e.now);
      }
    }
  }

  lemma TakenAdds(p: Policy, m: Counters, key: string, limit: int, now: int)
    ensures Taken(p, m, key, limit, now).Keys == m.Keys + {key} && |Taken(p, m, key, limit, now)| <= |m| + 1
  {
    var m' := Taken(p, m, key, limit, now);
    assert m'.Keys == m.Keys + {key};
  }

  lemma DecideAdds(p: Policy, m: Counters, pair: string, client: string, now: int)
    ensures Decide(p, m, pair, client, now).0.Keys <= m.Keys + {pair, client}
    ensures |Decide(p, m, pair, client, now).0| <= |m| + 2
  {
    TakenAdds(p, m, pair, p.maxFailures, now);
    TakenAdds(p, Taken(p, m, pair, p.maxFailures, now), client, p.maxPerClient, now);
  }

  lemma TrimAddsNothing(p: Policy, s: State, now: int, kept: set<string>)
    ensures Trimmed(p, s, now, kept).counters.Keys <= s.counters.Keys
    ensures Spared(Swept(p, s, now).counters, kept) ==> |Trimmed(p, s, now, kept).counters| <= MAX_TRACKED - 2
  {
  }

  /** One attempt does to the table what it does to the two counters. */
  lemma AttemptAgrees(p: Policy, s: State, who: Person, i: nat, d: Duo, since: int, e: Try, kept: set<string>)
    requires p.Valid() && Agrees(s, who, i, d, since) && since <= e.now
    requires {who.Pair(), who.Client()} <= kept && Spared(Swept(p, s, e.now).counters, kept)
    ensures var c := CallOf(who, i, e, kept);
            && (Do(p, s, c).1 == Admitted) == Tried(p, d, e).1
            && Agrees(Do(p, s, c).0, who, i + 1, Tried(p, d, e).0, e.now)
  {
    var c, m := CallOf(who, i, e, kept), Trimmed(p, s, e.now, kept).counters;
    TrimAddsNothing(p, s, e.now, kept);
    TrimShows(p, s, who.Pair(), e.now, kept, d.pair);
    TrimShows(p, s, who.Client(), e.now, kept, d.client);
    DecidesAlike(p, m, who, i, d, e, kept);
    DecidedShows(p, m, who, i, d, e, kept);
    DecideAdds(p, m, c.pair, c.client, e.now);
    forall j: nat | i + 1 <= j ensures Other(who, j).Pair() !in Do(p, s, c).0.counters {
      OthersDiffer(who, j);
    }
  }

  // --------------------------------------------------------------- whole runs

  /** A set of this size between the two. */
  lemma {:induction false} Between(core: set<string>, all: set<string>, size: nat) returns (kept: set<string>)
    requires core <= all && |core| <= size <= |all|
    ensures core <= kept <= all && |kept| == size
    decreases |all|
  {
    if |all| == size {
      kept := all;
    } else {
      assert !(all <= core) by { if all <= core { Smaller(all, core); } }
      var x :| x in all && x !in core;
      kept := Between(core, all - {x}, size);
    }
  }

  /** What an eviction can spare, these two keys among it. */
  lemma SomethingSpared(m: Counters, a: string, b: string) returns (kept: set<string>)
    ensures {a, b} <= kept && Spared(m, kept)
  {
    if |m| <= MAX_TRACKED - 2 {
      kept := {a, b};
    } else {
      var core := m.Keys * {a, b};
      Smaller(core, {a, b});
      var some := Between(core, m.Keys, MAX_TRACKED - 2);
      kept := some + {a, b};
      KeepSize(m, kept);
      assert m.Keys * kept == some;
    }
  }

  const START: State := State(map[], 0)

  /** These calls play the script. */
  ghost predicate Plays(p: Policy, calls: seq<Call>, who: Person, x: Script, since: int) {
    && |calls| == x.Size() && Real(p, START, calls) && Unforgiving(calls, who, since)
    && Agrees(After(p, START, calls), who, |calls|, DuoAfter(p, x), since)
  }

  /** Attempts only, up to this moment, and neither key of the person forgiven. */
  ghost predicate Unforgiving(calls: seq<Call>, who: Person, since: int) {
    && Harsh(calls, who.Pair()) && Harsh(calls, who.Client())
    && forall i :: 0 <= i < |calls| ==> calls[i].Attempt? && calls[i].now <= since
  }

  lemma HarshOneMore(calls: seq<Call>, c: Call, key: string)
    requires Harsh(calls, key) && c.Attempt? && ProperKeys(c.pair, c.client) && key in c.kept
    requires forall i :: 0 <= i < |calls| ==> calls[i].Attempt? && calls[i].now <= c.now
    ensures Harsh(calls + [c], key)
  {
  }

  lemma RealOneMore(p: Policy, s: State, calls: seq<Call>, c: Call)
    requires Real(p, s, calls) && Formed(c) && Fair(p, s, calls, c)
    ensures Real(p, s, calls + [c]) && After(p, s, calls + [c]) == Do(p, After(p, s, calls), c).0
  {
    assert (calls + [c])[..|calls|] == calls;
    forall i | 0 <= i < |calls| ensures (calls + [c])[..i] == calls[..i] {}
  }

  lemma AdmittedOneMore(p: Policy, s: State, calls: seq<Call>, c: Call, key: string, a: int)
    requires c.Attempt?
    ensures AdmittedIn(p, s, calls + [c], key, a) == AdmittedIn(p, s, calls, key, a)
              + if Touches(c, key) && Do(p, After(p, s, calls), c).1 == Admitted && a <= c.now < a + p.window
                then 1 else 0
  {
    assert (calls + [c])[..|calls|] == calls;
  }

  /** What is counted of the pair, or of its address. */
  function KeyOf(who: Person, pair: bool): string {
    if pair then who.Pair() else who.Client()
  }

  lemma TouchesExactly(who: Person, i: nat, e: Try, kept: set<string>, pair: bool)
    ensures Touches(CallOf(who, i, e, kept), KeyOf(who, pair)) <==> !pair || e.own
  {
    OthersDiffer(who, i);
  }

  lemma StillAgrees(s: State, who: Person, i: nat, d: Duo, from: int, since: int)
    requires Agrees(s, who, i, d, from) && from <= since
    ensures Agrees(s, who, i, d, since)
  {
  }

  lemma CallUnforgiving(calls: seq<Call>, who: Person, i: nat, e: Try, since: int, kept: set<string>)
    requires Unforgiving(calls, who, e.now) && e.now <= since && {who.Pair(), who.Client()} <= kept
    ensures Unforgiving(calls + [CallOf(who, i, e, kept)], who, since)
  {
    var c := CallOf(who, i, e, kept);
    CallIsFormed(who, i, e, kept);
    HarshOneMore(calls, c, who.Pair());
    HarshOneMore(calls, c, who.Client());
  }

  lemma CallPlays(p: Policy, calls: seq<Call>, who: Person, x: Script, e: Try, since: int, kept: set<string>)
    requires p.Valid() && Plays(p, calls, who, x, e.now) && e.now <= since && {who.Pair(), who.Client()} <= kept
    requires Spared(Swept(p, After(p, START, calls), e.now).counters, kept)
    ensures Plays(p, calls + [CallOf(who, |calls|, e, kept)], who, Then(x, e), since)
  {
    var i := |calls|;
    var c := CallOf(who, i, e, kept);
    CallIsFormed(who, i, e, kept);
    RealOneMore(p, START, calls, c);
    CallUnforgiving(calls, who, i, e, since, kept);
    AttemptAgrees(p, After(p, START, calls), who, i, DuoAfter(p, x), e.now, e, kept);
    StillAgrees(Do(p, After(p, START, calls), c).0, who, i + 1, Tried(p, DuoAfter(p, x), e).0, e.now, since);
  }

  lemma CallCounts(p: Policy, calls: seq<Call>, who: Person, i: nat, d: Duo, e: Try, kept: set<string>, pair: bool,
                   a: int)
    requires p.Valid() && Agrees(After(p, START, calls), who, i, d, e.now) && {who.Pair(), who.Client()} <= kept
    requires Spared(Swept(p, After(p, START, calls), e.now).counters, kept)
    ensures AdmittedIn(p, START, calls + [CallOf(who, i, e, kept)], KeyOf(who, pair), a)
         == AdmittedIn(p, START, calls, KeyOf(who, pair), a) + Counted(p, d, e, pair, a)
  {
    AttemptAgrees(p, After(p, START, calls), who, i, d, e.now, e, kept);
    AdmittedOneMore(p, START, calls, CallOf(who, i, e, kept), KeyOf(who, pair), a);
    TouchesExactly(who, i, e, kept, pair);
  }

  /** Any script can be played, and its attempts are admitted as the two counters say. */
  lemma {:induction false} SomeRun(p: Policy, who: Person, x: Script, since: int, pair: bool, a: int)
    returns (calls: seq<Call>)
    requires p.Valid() && x.Upto(since)
    ensures Plays(p, calls, who, x, since)
    ensures AdmittedIn(p, START, calls, KeyOf(who, pair), a) == DuoIn(p, x, pair, a)
    decreases x
  {
    if x.Start? {
      calls := [];
    } else {
      var e := x.last;
      var before := SomeRun(p, who, x.before, e.now, pair, a);
      var kept := SomethingSpared(Swept(p, After(p, START, before), e.now).counters, who.Pair(), who.Client());
      CallPlays(p, before, who, x.before, e, since, kept);
      CallCounts(p, before, who, |before|, DuoAfter(p, x.before), e, kept, pair, a);
      calls := before + [CallOf(who, |before|, e, kept)];
    }
  }

  // --------------------------------------------------- the scripts that exceed

  /** A script, the counters it leaves and how many of it are admitted from a on. */
  ghost predicate Leaves(p: Policy, x: Script, to: int, d: Duo, pair: bool, a: int, m: int) {
    x.Upto(to) && DuoAfter(p, x) == d && DuoIn(p, x, pair, a) == m
  }

  lemma LeavesNothing(p: Policy, pair: bool, a: int)
    ensures Leaves(p, Start, 0, Duo(None, None), pair, a, 0)
  {
  }

  lemma OneMore(p: Policy, x: Script, to: int, d: Duo, pair: bool, a: int, m: int, e: Try)
    requires Leaves(p, x, to, d, pair, a, m) && to <= e.now
    ensures Leaves(p, Then(x, e), e.now, Tried(p, d, e).0, pair, a, m + Counted(p, d, e, pair, a))
  {
    Later(x, to, e.now);
  }

  lemma Later(x: Script, to: int, later: int)
    requires x.Upto(to) && to <= later
    ensures x.Upto(later)
  {
  }

  /** A counter of budget n that k units were taken from at this very moment, and none before that count. */
  ghost predicate Holding(p: Policy, n: int, c: Option<Counter>, now: int, k: int) {
    if k == 0 then Live(c, now).None?
    else c == Some(Counter(k, if n <= k && 0 < p.lockout then now + p.lockout else now + p.window))
  }

  lemma HoldingOneMore(p: Policy, n: int, c: Option<Counter>, now: int, k: nat)
    requires p.Valid() && k < n && Holding(p, n, c, now, k)
    ensures !Full(n, c, now) && Holding(p, n, Some(Took(p, n, c, now)), now, k + 1)
  {
  }

  /** How much one moment's tries of the key come to, if the moment is in the window. */
  function Worth(p: Policy, now: int, a: int, k: int): int {
    if a <= now < a + p.window then k else 0
  }

  lemma OneOther(p: Policy, x: Script, d: Duo, pair: bool, a: int, m: int, now: int, k: nat)
    returns (x': Script, d': Duo)
    requires p.Valid() && Leaves(p, x, now, d, pair, a, m) && k < p.maxPerClient
    requires Holding(p, p.maxPerClient, d.client, now, k)
    ensures Leaves(p, x', now, d', pair, a, m + if pair then 0 else Worth(p, now, a, 1))
    ensures d'.pair == d.pair && Holding(p, p.maxPerClient, d'.client, now, k + 1)
  {
    HoldingOneMore(p, p.maxPerClient, d.client, now, k);
    OneMore(p, x, now, d, pair, a, m, Try(false, now));
    x', d' := Then(x, Try(false, now)), Tried(p, d, Try(false, now)).0;
  }

  lemma OneOwn(p: Policy, x: Script, d: Duo, a: int, m: int, now: int, k: nat, j: nat)
    returns (x': Script, d': Duo)
    requires p.Valid() && Leaves(p, x, now, d, true, a, m) && k < p.maxPerClient && j < p.maxFailures
    requires Holding(p, p.maxPerClient, d.client, now, k) && Holding(p, p.maxFailures, d.pair, now, j)
    ensures Leaves(p, x', now, d', true, a, m + Worth(p, now, a, 1))
    ensures Holding(p, p.maxFailures, d'.pair, now, j + 1) && Holding(p, p.maxPerClient, d'.client, now, k + 1)
  {
    HoldingOneMore(p, p.maxPerClient, d.client, now, k);
    HoldingOneMore(p, p.maxFailures, d.pair, now, j);
    OneMore(p, x, now, d, true, a, m, Try(true, now));
    x', d' := Then(x, Try(true, now)), Tried(p, d, Try(true, now)).0;
  }

  lemma WorthOneMore(p: Policy, now: int, a: int, k: int)
    ensures Worth(p, now, a, k) + Worth(p, now, a, 1) == Worth(p, now, a, k + 1)
  {
  }

  /** k other identities, one attempt each. */
  lemma {:induction false} OthersTry(p: Policy, x: Script, d: Duo, pair: bool, a: int, m: int, now: int, k: nat)
    returns (x': Script, d': Duo)
    requires p.Valid() && Leaves(p, x, now, d, pair, a, m) && k <= p.maxPerClient
    requires Holding(p, p.maxPerClient, d.client, now, 0)
    ensures Leaves(p, x', now, d', pair, a, m + if pair then 0 else Worth(p, now, a, k))
    ensures d'.pair == d.pair && Holding(p, p.maxPerClient, d'.client, now, k)
  {
    if k == 0 {
      x', d' := x, d;
    } else {
      x', d' := OthersTry(p, x, d, pair, a, m, now, k - 1);
      WorthOneMore(p, now, a, k - 1);
      x', d' := OneOther(p, x', d', pair, a, m + if pair then 0 else Worth(p, now, a, k - 1), now, k - 1);
    }
  }

  /** After k others, j attempts of the identity itself. */
  lemma {:induction false} OwnTries(p: Policy, x: Script, d: Duo, a: int, m: int, now: int, k: nat, j: nat)
    returns (x': Script, d': Duo)
    requires p.Valid() && Leaves(p, x, now, d, true, a, m) && j <= p.maxFailures && k + j <= p.maxPerClient
    requires Holding(p, p.maxFailures, d.pair, now, 0) && Holding(p, p.maxPerClient, d.client, now, k)
    ensures Leaves(p, x', now, d', true, a, m + Worth(p, now, a, j))
    ensures Holding(p, p.maxFailures, d'.pair, now, j) && Holding(p, p.maxPerClient, d'.client, now, k + j)
  {
    if j == 0 {
      x', d' := x, d;
    } else {
      x', d' := OwnTries(p, x, d, a, m, now, k, j - 1);
      WorthOneMore(p, now, a, j - 1);
      x', d' := OneOwn(p, x', d', a, m + Worth(p, now, a, j - 1), now, k + j - 1, j - 1);
    }
  }

  function Budget(p: Policy, pair: bool): int {
    if pair then p.maxFailures else p.maxPerClient
  }

  /** Both counters of the key are over by now; an address has only its own. */
  predicate Over(d: Duo, pair: bool, now: int) {
    Live(d.client, now).None? && (pair ==> Live(d.pair, now).None?)
  }

  predicate Able(p: Policy, pair: bool) {
    p.Valid() && (pair ==> p.maxFailures <= p.maxPerClient)
  }

  /** A whole budget of the key at one moment, the address filled with it: both are over a lockout later. */
  lemma Burst(p: Policy, x: Script, to: int, d: Duo, pair: bool, a: int, m: int, now: int)
    returns (x': Script, d': Duo)
    requires Able(p, pair) && 0 < p.lockout && Leaves(p, x, to, d, pair, a, m) && to <= now && Over(d, pair, now)
    ensures Leaves(p, x', now, d', pair, a, m + Worth(p, now, a, Budget(p, pair))) && Over(d', pair, now + p.lockout)
  {
    if pair {
      var k := p.maxPerClient - p.maxFailures;
      Later(x, to, now);
      x', d' := OthersTry(p, x, d, true, a, m, now, k);
      x', d' := OwnTries(p, x', d', a, m, now, k, p.maxFailures);
    } else {
      Later(x, to, now);
      x', d' := OthersTry(p, x, d, false, a, m, now, p.maxPerClient);
    }
  }

  /** Three budgets in one window: a lockout under half of it, and a burst whenever one ends. */
  lemma ThreeBursts(p: Policy, pair: bool) returns (x: Script, to: int)
    requires Able(p, pair) && 0 < p.lockout && 2 * p.lockout < p.window
    ensures x.Upto(to) && DuoIn(p, x, pair, 0) == 3 * Budget(p, pair)
  {
    var l, n, d := p.lockout, Budget(p, pair), Duo(None, None);
    LeavesNothing(p, pair, 0);
    x, d := Burst(p, Start, 0, d, pair, 0, 0, 0);
    x, d := Burst(p, x, 0, d, pair, 0, n, l);
    x, d := Burst(p, x, l, d, pair, 0, n + n, 2 * l);
    to := 2 * l;
  }

  /** Both counters of the key at this count, as their window began at zero. */
  predicate AtCount(p: Policy, d: Duo, pair: bool, k: int) {
    d.client == Some(Counter(k, p.window)) && (pair ==> d.pair == Some(Counter(k, p.window)))
  }

  lemma FirstTry(p: Policy, pair: bool, a: int) returns (x: Script, d: Duo)
    requires Able(p, pair) && 3 <= Budget(p, pair) && 0 < a
    ensures Leaves(p, x, 0, d, pair, a, 0) && AtCount(p, d, pair, 1)
  {
    LeavesNothing(p, pair, a);
    OneMore(p, Start, 0, Duo(None, None), pair, a, 0, Try(pair, 0));
    x, d := Then(Start, Try(pair, 0)), Tried(p, Duo(None, None), Try(pair, 0)).0;
  }

  /** Early in a window one attempt, late in it another: neither counter fills, and both end with the window. */
  lemma EarlyAndLate(p: Policy, pair: bool) returns (x: Script, d: Duo)
    requires Able(p, pair) && 3 <= Budget(p, pair) && 1 < p.window
    ensures Leaves(p, x, p.window - 1, d, pair, p.window - 1, 1) && AtCount(p, d, pair, 2)
  {
    var y, c := FirstTry(p, pair, p.window - 1);
    OneMore(p, y, 0, c, pair, p.window - 1, 0, Try(pair, p.window - 1));
    x, d := Then(y, Try(pair, p.window - 1)), Tried(p, c, Try(pair, p.window - 1)).0;
  }

  /** Two budgets and one more: the end of a window, the whole of the next, and one that the lockout brings forward. */
  lemma LateAndTwoBursts(p: Policy, pair: bool) returns (x: Script, to: int)
    requires Able(p, pair) && 3 <= Budget(p, pair) && 0 < p.lockout < p.window - 1
    ensures x.Upto(to)
    ensures DuoIn(p, x, pair, p.window - 1) == 2 * Budget(p, pair) + 1
  {
    var w, l, n := p.window, p.lockout, Budget(p, pair);
    var d;
    x, d := EarlyAndLate(p, pair);
    x, d := Burst(p, x, w - 1, d, pair, w - 1, 1, w);
    x, d := Burst(p, x, w, d, pair, w - 1, 1 + n, w + l);
    to := w + l;
  }

  // --------------------------------------------------------------- the bound

  lemma ExceededBy(p: Policy, who: Person, pair: bool, x: Script, to: int, a: int)
    requires p.Valid() && x.Upto(to)
    requires DuoIn(p, x, pair, a) > 2 * Budget(p, pair)
    ensures !Bounded(p, KeyOf(who, pair))
  {
    var calls := SomeRun(p, who, x, to, pair, a);
    LimitIsBudget(p, who, pair);
    assert AdmittedIn(p, State(map[], 0), calls, KeyOf(who, pair), a) > 2 * LimitOf(p, KeyOf(who, pair));
  }

  /** A policy that is not steady for the key's budget lets some run past two of them. */
  lemma Exceeded(p: Policy, who: Person, pair: bool)
    requires Able(p, pair) && !Steady(p.lockout, p.window, Budget(p, pair))
    ensures !Bounded(p, KeyOf(who, pair))
  {
    if 2 * p.lockout < p.window {
      var x, to := ThreeBursts(p, pair);
      ExceededBy(p, who, pair, x, to, 0);
    } else {
      var x, to := LateAndTwoBursts(p, pair);
      ExceededBy(p, who, pair, x, to, p.window - 1);
    }
  }

  lemma LimitIsBudget(p: Policy, who: Person, pair: bool)
    ensures LimitOf(p, KeyOf(who, pair)) == Budget(p, pair)
  {
    KeysApart(who.tenant, who.fingerprint, who.address, who.tenant, who.address);
  }

  lemma BoundedIfSteady(p: Policy, key: string)
    requires p.Valid() && Steady(p.lockout, p.window, LimitOf(p, key))
    ensures Bounded(p, key)
  {
    forall since, calls, a | Harsh(calls, key) && Real(p, State(map[], since), calls)
      ensures AdmittedIn(p, State(map[], since), calls, key, a) <= 2 * LimitOf(p, key)
    {
      TwoBudgetsPerWindow(p, since, calls, key, a);
    }
  }

  /**
   The bound, exactly: no run sees more than two budgets of an address in a window if and only if the policy
   is steady for that budget, and the same of a pair whose budget is not above its address's.
   */
  lemma BoundedExactly(p: Policy, who: Person)
    requires p.Valid()
    ensures Bounded(p, who.Client()) <==> Steady(p.lockout, p.window, p.maxPerClient)
    ensures p.maxFailures <= p.maxPerClient ==>
              (Bounded(p, who.Pair()) <==> Steady(p.lockout, p.window, p.maxFailures))
  {
    forall pair: bool | Able(p, pair)
      ensures Bounded(p, KeyOf(who, pair)) <==> Steady(p.lockout, p.window, Budget(p, pair))
    {
      LimitIsBudget(p, who, pair);
      if Steady(p.lockout, p.window, Budget(p, pair)) {
        BoundedIfSteady(p, KeyOf(who, pair));
      } else {
        Exceeded(p, who, pair);
      }
    }
    assert Able(p, false) && KeyOf(who, false) == who.Client() && KeyOf(who, true) == who.Pair();
  }
}
