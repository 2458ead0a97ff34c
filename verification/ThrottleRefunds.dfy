/**
 When a refund can be told from no attempt at all: exactly when the attempt moved the reset of one of its keys.
 */
module ThrottleRefunds {
  import opened Wrappers
  import opened Throttle
  import opened ThrottleLaws
  import opened ThrottleExcess

  /** The table after an attempt and its refund. */
  function Refunded(p: Policy, s: State, c: Call): State {
    Do(p, Do(p, s, c).0, Refund(c.pair, c.client)).0
  }

  /** No later run answers otherwise than it would have without the two. */
  ghost predicate Unseen(p: Policy, s: State, c: Call)
    requires c.Attempt?
  {
    forall calls, clock | Follows(p, s, c, calls, clock) :: Answers(p, Refunded(p, s, c), calls) == Answers(p, s, calls)
  }

  ghost predicate Follows(p: Policy, s: State, c: Call, calls: seq<Call>, clock: int)
    requires c.Attempt?
  {
    && c.now <= clock && Monotone(calls)
    && (forall i :: 0 <= i < |calls| && calls[i].Attempt? ==> c.now <= calls[i].now <= clock)
    && RoomyRun(p, s, calls) && RoomyRun(p, Refunded(p, s, c), calls)
  }

  /** The address can take two more attempts. */
  predicate Spacious(p: Policy, m: Counters, client: string, now: int) {
    var live := LiveAt(m, client, now);
    2 <= p.maxPerClient && (live.Some? ==> live.value.count + 2 <= p.maxPerClient)
  }

  // ------------------------------------------------------ the two tables

  lemma {:induction false} LongestKey(keys: set<string>) returns (n: nat)
    ensures forall k :: k in keys ==> |k| <= n
  {
    if keys == {} {
      n := 0;
    } else {
      var k :| k in keys;
      n := LongestKey(keys - {k});
      if n < |k| { n := |k|; }
    }
  }

  /** Identities the table has not seen. */
  lemma Unknown(m: Counters, who: Person) returns (i: nat)
    ensures forall j: nat :: i <= j ==> Other(who, j).Pair() !in m
  {
    i := LongestKey(m.Keys);
    forall j: nat | i <= j ensures Other(who, j).Pair() !in m {
      StrokesDiffer(j + 1);
      assert |Other(who, j).Pair()| == |who.Pair()| + j + 1;
    }
  }

  /** The counters of a pair and its address in a table, as anyone sees them from now on. */
  function DuoOf(m: Counters, who: Person, now: int): Duo {
    Duo(LiveAt(m, who.Pair(), now), LiveAt(m, who.Client(), now))
  }

  lemma TableAgrees(s: State, who: Person, i: nat, now: int)
    requires |s.counters| <= MAX_TRACKED && forall j: nat :: i <= j ==> Other(who, j).Pair() !in s.counters
    ensures Agrees(s, who, i, DuoOf(s.counters, who, now), now)
  {
  }

  /** One attempt of the pair, and what a refund leaves of it. */
  function One(who: Person, now: int, kept: set<string>): Call {
    Attempt(who.Pair(), who.Client(), now, kept)
  }

  /** A key that was relocked comes back with its count and another reset. */
  lemma RelockedIs(p: Policy, m: Counters, key: string, now: int)
    requires p.Valid() && InBudget(p, m) && Spent(m, key, LimitOf(p, key), now).None? && Relocks(p, m, key, now)
    ensures At(GivenBack(Taken(p, m, key, LimitOf(p, key), now), key), key)
         == Some(Counter(LimitOf(p, key) - 1, now + p.lockout))
    ensures LiveAt(m, key, now).value.count == LimitOf(p, key) - 1 && 2 <= LimitOf(p, key)
  {
  }

  lemma TrimmedIs(p: Policy, s: State, c: Call)
    requires c.Attempt? && Roomy(p, s, c) && InBudget(p, s.counters)
    ensures var m := Trimmed(p, s, c.now, c.kept).counters;
            && InBudget(p, m) && m.Keys <= s.counters.Keys
            && forall k :: LiveAt(m, k, c.now) == LiveAt(s.counters, k, c.now)
  {
    SweptAlike(p, s, c);
  }

  lemma GivenBackShrinks(m: Counters, key: string)
    ensures GivenBack(m, key).Keys <= m.Keys && |GivenBack(m, key)| <= |m|
  {
    Smaller(GivenBack(m, key).Keys, m.Keys);
  }

  lemma RefundedKeys(p: Policy, s: State, c: Call)
    requires c.Attempt?
    ensures Refunded(p, s, c).counters.Keys <= s.counters.Keys + {c.pair, c.client}
    ensures |Refunded(p, s, c).counters| <= |s.counters| + 2
  {
    AttemptSize(p, s, c);
    var m := Do(p, s, c).0.counters;
    GivenBackShrinks(m, c.pair);
    GivenBackShrinks(GivenBack(m, c.pair), c.client);
  }

  /** What the refund leaves of one key: as it was, or relocked. */
  ghost predicate Back(p: Policy, m: Counters, back: Counters, key: string, now: int) {
    if Relocks(p, m, key, now) then
      && LiveAt(m, key, now).value.count == LimitOf(p, key) - 1 && 2 <= LimitOf(p, key)
      && LiveAt(back, key, now) == Some(Counter(LimitOf(p, key) - 1, now + p.lockout))
    else LiveAt(back, key, now) == LiveAt(m, key, now)
  }

  lemma TakenBack(p: Policy, m: Counters, pair: string, client: string, now: int)
    requires p.Valid() && InBudget(p, m) && ProperKeys(pair, client)
    requires Spent(m, pair, p.maxFailures, now).None? && Spent(m, client, p.maxPerClient, now).None?
    ensures var taken := Taken(p, Taken(p, m, pair, p.maxFailures, now), client, p.maxPerClient, now);
            var back := GivenBack(GivenBack(taken, pair), client);
            Back(p, m, back, pair, now) && Back(p, m, back, client, now)
  {
    TwoTakenGivenBack(p, m, pair, client, now);
    BackOnPair(p, m, pair, client, now);
    BackOnClient(p, m, pair, client, now);
    if Relocks(p, m, pair, now) { RelockedIs(p, m, pair, now); }
    if Relocks(p, m, client, now) { RelockedIs(p, m, client, now); }
  }

  lemma BackAlike(p: Policy, m: Counters, n: Counters, back: Counters, key: string, now: int)
    requires LiveAt(m, key, now) == LiveAt(n, key, now) && Back(p, m, back, key, now)
    ensures Back(p, n, back, key, now)
  {
  }

  lemma RefundedBack(p: Policy, s: State, who: Person, now: int, kept: set<string>)
    requires p.Valid() && InBudget(p, s.counters) && Roomy(p, s, One(who, now, kept))
    requires Do(p, s, One(who, now, kept)).1 == Admitted
    ensures Back(p, s.counters, Refunded(p, s, One(who, now, kept)).counters, who.Pair(), now)
    ensures Back(p, s.counters, Refunded(p, s, One(who, now, kept)).counters, who.Client(), now)
  {
    var c := One(who, now, kept);
    var m := Trimmed(p, s, now, kept).counters;
    OthersDiffer(who, 0);
    TrimmedIs(p, s, c);
    TakenBack(p, m, c.pair, c.client, now);
    BackAlike(p, m, s.counters, Refunded(p, s, c).counters, c.pair, now);
    BackAlike(p, m, s.counters, Refunded(p, s, c).counters, c.client, now);
  }

  // ------------------------------------------------------ two more attempts

  /** The second of two attempts at a moment when one of the two counters is over and the other lacks one unit. */
  lemma SecondTells(p: Policy, d: Duo, d': Duo, pair: bool, t: int)
    requires p.Valid() && 2 <= Budget(p, pair)
    requires var k, k' := if pair then d.pair else d.client, if pair then d'.pair else d'.client;
             && Live(k, t).None? && Live(k', t).Some? && k'.value.count == Budget(p, pair) - 1 && 0 < p.lockout
    requires pair ==> Takes(p, d.client, t) && Takes(p, d'.client, t)
    ensures var e := Try(pair, t);
            && Tried(p, d, e).1 && Tried(p, d', e).1
            && Tried(p, Tried(p, d, e).0, e).1 && !Tried(p, Tried(p, d', e).0, e).1
  {
  }

  predicate Takes(p: Policy, client: Option<Counter>, t: int) {
    2 <= p.maxPerClient && (Live(client, t).Some? ==> client.value.count + 2 <= p.maxPerClient)
  }

  /** Two attempts, one after the other, of the identity or of two that were never seen. */
  function Two(who: Person, i: nat, e: Try, kept: set<string>): seq<Call> {
    [CallOf(who, i, e, kept), CallOf(who, i + 1, e, kept)]
  }

  lemma TwoInOrder(who: Person, i: nat, e: Try, kept: set<string>)
    ensures Monotone(Two(who, i, e, kept))
    ensures forall j :: 0 <= j < 2 ==> Two(who, i, e, kept)[j].Attempt? && Two(who, i, e, kept)[j].now == e.now
  {
  }

  lemma AnswersTwo(p: Policy, s: State, a: Call, b: Call)
    ensures Answers(p, s, [a, b]) == [Do(p, s, a).1, Do(p, Do(p, s, a).0, b).1]
    ensures After(p, s, [a]) == Do(p, s, a).0
  {
    assert [a, b][..|[a, b]| - 1] == [a] && [a][..|[a]| - 1] == [];
    assert Answers(p, s, [a]) == Answers(p, s, []) + [Do(p, After(p, s, []), a).1];
  }

  lemma TwoTell(p: Policy, s: State, who: Person, i: nat, d: Duo, now: int, e: Try, kept: set<string>)
    requires p.Valid() && Agrees(s, who, i, d, now) && now <= e.now && {who.Pair(), who.Client()} <= kept
    requires |s.counters| <= MAX_TRACKED - 4
    ensures var answers := Answers(p, s, Two(who, i, e, kept));
            && |answers| == 2 && (answers[0] == Admitted) == Tried(p, d, e).1
            && (answers[1] == Admitted) == Tried(p, Tried(p, d, e).0, e).1
    ensures RoomyRun(p, s, Two(who, i, e, kept))
  {
    var a, b := CallOf(who, i, e, kept), CallOf(who, i + 1, e, kept);
    AnswersTwo(p, s, a, b);
    SweptSize(p, s, e.now);
    AttemptAgrees(p, s, who, i, d, now, e, kept);
    AttemptSize(p, s, a);
    SweptSize(p, Do(p, s, a).0, e.now);
    AttemptAgrees(p, Do(p, s, a).0, who, i + 1, Tried(p, d, e).0, e.now, e, kept);
    RoomyTwo(p, s, a, b);
  }

  lemma RoomyTwo(p: Policy, s: State, a: Call, b: Call)
    requires Roomy(p, s, a) && Roomy(p, Do(p, s, a).0, b)
    ensures RoomyRun(p, s, [a, b])
  {
    AnswersTwo(p, s, a, b);
    assert [a, b][..0] == [] && [a, b][..1] == [a];
  }

  lemma SweptSize(p: Policy, s: State, now: int)
    ensures |Swept(p, s, now).counters| <= |s.counters|
  {
    Smaller(Swept(p, s, now).counters.Keys, s.counters.Keys);
  }

  lemma AttemptSize(p: Policy, s: State, c: Call)
    requires c.Attempt?
    ensures |Do(p, s, c).0.counters| <= |s.counters| + 2
    ensures Do(p, s, c).0.counters.Keys <= s.counters.Keys + {c.pair, c.client}
  {
    var m := Trimmed(p, s, c.now, c.kept).counters;
    Smaller(m.Keys, s.counters.Keys);
    DecideAdds(p, m, c.pair, c.client, c.now);
  }

  // ------------------------------------------------------------ the theorem

  /** One key is over in one of the tables and lacks one unit in the other: the second of two attempts tells. */
  lemma Told(p: Policy, s: State, s': State, who: Person, d: Duo, d': Duo, now: int, pair: bool, t: int)
    returns (calls: seq<Call>)
    requires p.Valid() && now <= t && |s.counters| <= MAX_TRACKED - 4 && |s'.counters| <= MAX_TRACKED - 4
    requires d == DuoOf(s.counters, who, now) && d' == DuoOf(s'.counters, who, now) && 2 <= Budget(p, pair)
    requires var k, k' := if pair then d.pair else d.client, if pair then d'.pair else d'.client;
             && Live(k, t).None? && Live(k', t).Some? && k'.value.count == Budget(p, pair) - 1 && 0 < p.lockout
    requires pair ==> Takes(p, d.client, t) && Takes(p, d'.client, t)
    ensures Answers(p, s, calls) != Answers(p, s', calls) && RoomyRun(p, s, calls) && RoomyRun(p, s', calls)
    ensures Monotone(calls) && forall i :: 0 <= i < |calls| ==> calls[i].Attempt? && calls[i].now == t
  {
    var i := Unknown(s.counters, who);
    var j := Unknown(s'.counters, who);
    if i < j { i := j; }
    var kept := {who.Pair(), who.Client()};
    TableAgrees(s, who, i, now);
    TableAgrees(s', who, i, now);
    TwoTell(p, s, who, i, d, now, Try(pair, t), kept);
    TwoTell(p, s', who, i, d', now, Try(pair, t), kept);
    SecondTells(p, d, d', pair, t);
    TwoInOrder(who, i, Try(pair, t), kept);
    calls := Two(who, i, Try(pair, t), kept);
  }

  /** A key that was relocked is told from what it was, at the earlier of the two resets. */
  lemma RelockShows(p: Policy, s: State, who: Person, now: int, kept: set<string>, pair: bool)
    returns (calls: seq<Call>)
    requires p.Valid() && InBudget(p, s.counters) && |s.counters| <= MAX_TRACKED - 6
    requires Do(p, s, One(who, now, kept)).1 == Admitted && Relocks(p, s.counters, KeyOf(who, pair), now)
    requires pair ==> !Relocks(p, s.counters, who.Client(), now) && Spacious(p, s.counters, who.Client(), now)
    ensures exists clock :: Follows(p, s, One(who, now, kept), calls, clock)
    ensures Answers(p, s, calls) != Answers(p, Refunded(p, s, One(who, now, kept)), calls)
  {
    var c := One(who, now, kept);
    var s' := Refunded(p, s, c);
    SweptSize(p, s, now);
    RefundedBack(p, s, who, now, kept);
    RefundedKeys(p, s, c);
    LimitIsBudget(p, who, pair);
    var d, d' := DuoOf(s.counters, who, now), DuoOf(s'.counters, who, now);
    var was, relocked := LiveAt(s.counters, KeyOf(who, pair), now).value.reset, now + p.lockout;
    if was < relocked {
      calls := Told(p, s, s', who, d, d', now, pair, was);
      assert Follows(p, s, c, calls, was);
    } else {
      calls := Told(p, s', s, who, d', d, now, pair, relocked);
      assert Follows(p, s, c, calls, relocked);
    }
  }

  /**
   An admitted attempt and its refund are never seen by later calls if and only if neither key was relocked by it.
   Of the pair alone that is said where the address can take two more.
   */
  lemma RefundUnseenExactly(p: Policy, s: State, who: Person, now: int, kept: set<string>)
    requires p.Valid() && InBudget(p, s.counters) && |s.counters| <= MAX_TRACKED - 6
    requires Do(p, s, One(who, now, kept)).1 == Admitted
    requires Relocks(p, s.counters, who.Pair(), now) ==>
               Relocks(p, s.counters, who.Client(), now) || Spacious(p, s.counters, who.Client(), now)
    ensures Unseen(p, s, One(who, now, kept))
       <==> !Relocks(p, s.counters, who.Pair(), now) && !Relocks(p, s.counters, who.Client(), now)
  {
    var c := One(who, now, kept);
    SweptSize(p, s, now);
    OthersDiffer(who, 0);
    if Relocks(p, s.counters, who.Client(), now) {
      var calls := RelockShows(p, s, who, now, kept, false);
      assert !Unseen(p, s, c);
    } else if Relocks(p, s.counters, who.Pair(), now) {
      var calls := RelockShows(p, s, who, now, kept, true);
      assert !Unseen(p, s, c);
    } else {
      forall calls, clock | Follows(p, s, c, calls, clock)
        ensures Answers(p, Refunded(p, s, c), calls) == Answers(p, s, calls)
      {
        RefundIsInvisible(p, s, c, calls, clock);
      }
    }
  }
}
