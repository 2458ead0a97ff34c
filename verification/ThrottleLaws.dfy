/**
 What a refusal, a refund and a lockout mean for the calls that follow.
 */
module ThrottleLaws {
  import opened Wrappers
  import opened Throttle

  // --------------------------------------------------------------- refusals

  predicate SpentAt(p: Policy, m: Counters, key: string, now: int) {
    var live := LiveAt(m, key, now);
    live.Some? && LimitOf(p, key) <= live.value.count
  }

  /**
   Of a table that evicts neither key, an attempt is refused exactly when one of its two live
   counters is at its limit; the wait is what is left of that counter, and neither counter moves.
   */
  lemma RefusedExactly(p: Policy, s: State, c: Call)
    requires p.Valid() && c.Attempt? && ProperKeys(c.pair, c.client) && c.pair in c.kept && c.client in c.kept
    ensures Do(p, s, c).1.Refused? <==> SpentAt(p, s.counters, c.pair, c.now) || SpentAt(p, s.counters, c.client, c.now)
    ensures Do(p, s, c).1.Refused? ==>
              var spent := if SpentAt(p, s.counters, c.pair, c.now) then c.pair else c.client;
              && Do(p, s, c).1.retryAfter == s.counters[spent].reset - c.now > 0
              && (forall k :: k in {c.pair, c.client} ==>
                    LiveAt(Do(p, s, c).0.counters, k, c.now) == LiveAt(s.counters, k, c.now))
  {
    TrimKeepsLive(p, s, c.pair, c.now, c.kept);
    TrimKeepsLive(p, s, c.client, c.now, c.kept);
  }

  // ---------------------------------------------------------------- refunds

  /** Two tables no attempt at `now` or later can tell apart. */
  ghost predicate Alike(m: Counters, n: Counters, now: int) {
    forall k :: LiveAt(m, k, now) == LiveAt(n, k, now)
  }

  /** No eviction: the sweep alone makes room. */
  predicate Roomy(p: Policy, s: State, c: Call) {
    c.Attempt? ==> |Swept(p, s, c.now).counters| <= MAX_TRACKED - 2
  }

  /** Spending this key's budget moves its reset, and a refund does not move it back. */
  predicate Relocks(p: Policy, m: Counters, key: string, now: int) {
    var live := LiveAt(m, key, now);
    0 < p.lockout && live.Some? && LimitOf(p, key) <= live.value.count + 1 && live.value.reset != now + p.lockout
  }

  lemma SweptAlike(p: Policy, s: State, c: Call)
    requires c.Attempt? && Roomy(p, s, c)
    ensures Alike(s.counters, Trimmed(p, s, c.now, c.kept).counters, c.now)
  {
  }

  lemma LaterAlike(m: Counters, n: Counters, now: int, later: int)
    requires Alike(m, n, now) && now <= later
    ensures Alike(m, n, later)
  {
    forall k ensures LiveAt(m, k, later) == LiveAt(n, k, later) {
      assert LiveAt(m, k, now) == LiveAt(n, k, now);
    }
  }

  /** One unit taken from a key and given back, at the same instant. */
  lemma TakenGivenBack(p: Policy, m: Counters, key: string, now: int)
    requires p.Valid() && InBudget(p, m) && Spent(m, key, LimitOf(p, key), now).None?
    ensures var back := GivenBack(Taken(p, m, key, LimitOf(p, key), now), key);
            && (forall k :: k != key ==> LiveAt(back, k, now) == LiveAt(m, k, now))
            && (LiveAt(back, key, now) == LiveAt(m, key, now) <==> !Relocks(p, m, key, now))
  {
  }

  /**
   An admitted attempt and its refund leave a table no later call can tell from the one before,
   exactly when neither key was relocked by it. Without a lockout nothing relocks.
   */
  lemma RefundUndoesExactly(p: Policy, s: State, c: Call)
    requires p.Valid() && InBudget(p, s.counters) && c.Attempt? && ProperKeys(c.pair, c.client)
    requires Roomy(p, s, c) && Do(p, s, c).1 == Admitted
    ensures var back := Do(p, Do(p, s, c).0, Refund(c.pair, c.client)).0;
            Alike(back.counters, s.counters, c.now)
            <==> !Relocks(p, s.counters, c.pair, c.now) && !Relocks(p, s.counters, c.client, c.now)
  {
    SweptAlike(p, s, c);
    var m := Trimmed(p, s, c.now, c.kept).counters;
    assert InBudget(p, m);
    TwoTakenGivenBack(p, m, c.pair, c.client, c.now);
    var back := Do(p, Do(p, s, c).0, Refund(c.pair, c.client)).0.counters;
    assert forall k :: LiveAt(m, k, c.now) == LiveAt(s.counters, k, c.now);
    assert Alike(back, s.counters, c.now) ==>
        && LiveAt(back, c.pair, c.now) == LiveAt(m, c.pair, c.now)
        && LiveAt(back, c.client, c.now) == LiveAt(m, c.client, c.now);
  }

  lemma TwoTakenGivenBack(p: Policy, m: Counters, pair: string, client: string, now: int)
    requires p.Valid() && InBudget(p, m) && ProperKeys(pair, client)
    requires Spent(m, pair, p.maxFailures, now).None? && Spent(m, client, p.maxPerClient, now).None?
    ensures var taken := Taken(p, Taken(p, m, pair, p.maxFailures, now), client, p.maxPerClient, now);
            var back := GivenBack(GivenBack(taken, pair), client);
            && (forall k :: k != pair && k != client ==> LiveAt(back, k, now) == LiveAt(m, k, now))
            && (LiveAt(back, pair, now) == LiveAt(m, pair, now) <==> !Relocks(p, m, pair, now))
            && (LiveAt(back, client, now) == LiveAt(m, client, now) <==> !Relocks(p, m, client, now))
  {
    var t1 := Taken(p, m, pair, p.maxFailures, now);
    var t2 := Taken(p, t1, client, p.maxPerClient, now);
    var b2 := GivenBack(GivenBack(t2, pair), client);
    forall k | k != pair && k != client ensures LiveAt(b2, k, now) == LiveAt(m, k, now) {
      BackElsewhere(p, m, pair, client, now, k);
    }
    BackOnPair(p, m, pair, client, now);
    TakenGivenBack(p, m, pair, now);
    BackOnClient(p, m, pair, client, now);
    TakenGivenBack(p, m, client, now);
  }

  lemma BackElsewhere(p: Policy, m: Counters, pair: string, client: string, now: int, k: string)
    requires k != pair && k != client
    ensures var taken := Taken(p, Taken(p, m, pair, p.maxFailures, now), client, p.maxPerClient, now);
            At(GivenBack(GivenBack(taken, pair), client), k) == At(m, k)
  {
    var t1 := Taken(p, m, pair, p.maxFailures, now);
    var t2 := Taken(p, t1, client, p.maxPerClient, now);
    Beside(p, m, pair, p.maxFailures, now, k);
    Beside(p, t1, client, p.maxPerClient, now, k);
    Beside(p, t2, pair, p.maxFailures, now, k);
    Beside(p, GivenBack(t2, pair), client, p.maxPerClient, now, k);
  }

  lemma BackOnPair(p: Policy, m: Counters, pair: string, client: string, now: int)
    requires pair != client
    ensures var taken := Taken(p, Taken(p, m, pair, p.maxFailures, now), client, p.maxPerClient, now);
            At(GivenBack(GivenBack(taken, pair), client), pair)
            == At(GivenBack(Taken(p, m, pair, p.maxFailures, now), pair), pair)
  {
    var t1 := Taken(p, m, pair, p.maxFailures, now);
    var t2 := Taken(p, t1, client, p.maxPerClient, now);
    Beside(p, t1, client, p.maxPerClient, now, pair);
    Locally(p, t2, t1, pair, p.maxFailures, now);
    Beside(p, GivenBack(t2, pair), client, p.maxPerClient, now, pair);
  }

  lemma BackOnClient(p: Policy, m: Counters, pair: string, client: string, now: int)
    requires pair != client
    ensures var taken := Taken(p, Taken(p, m, pair, p.maxFailures, now), client, p.maxPerClient, now);
            At(GivenBack(GivenBack(taken, pair), client), client)
            == At(GivenBack(Taken(p, m, client, p.maxPerClient, now), client), client)
  {
    var t1 := Taken(p, m, pair, p.maxFailures, now);
    var t2 := Taken(p, t1, client, p.maxPerClient, now);
    Beside(p, m, pair, p.maxFailures, now, client);
    Locally(p, t1, m, client, p.maxPerClient, now);
    Beside(p, t2, pair, p.maxFailures, now, client);
    Locally(p, GivenBack(t2, pair), Taken(p, m, client, p.maxPerClient, now), client, p.maxPerClient, now);
  }

  function At(m: Counters, key: string): Option<Counter> {
    if key in m then Some(m[key]) else None
  }

  /** Taking from a key or giving back to it is nothing to another. */
  lemma Beside(p: Policy, m: Counters, key: string, limit: int, now: int, other: string)
    requires other != key
    ensures At(Taken(p, m, key, limit, now), other) == At(m, other) && At(GivenBack(m, key), other) == At(m, other)
  {
  }

  /** What it does to the key depends on that key alone. */
  lemma Locally(p: Policy, m: Counters, n: Counters, key: string, limit: int, now: int)
    requires At(m, key) == At(n, key)
    ensures At(Taken(p, m, key, limit, now), key) == At(Taken(p, n, key, limit, now), key)
    ensures At(GivenBack(m, key), key) == At(GivenBack(n, key), key)
  {
  }

  function Answers(p: Policy, s: State, calls: seq<Call>): seq<Answer> {
    if calls == [] then []
    else
      var init := calls[..|calls| - 1];
      Answers(p, s, init) + [Do(p, After(p, s, init), calls[|calls| - 1]).1]
  }

  ghost predicate RoomyRun(p: Policy, s: State, calls: seq<Call>) {
    forall i :: 0 <= i < |calls| ==> Roomy(p, After(p, s, calls[..i]), calls[i])
  }

  lemma AttemptAlike(p: Policy, s: State, t: State, c: Call)
    requires p.Valid() && c.Attempt? && Roomy(p, s, c) && Roomy(p, t, c) && Alike(s.counters, t.counters, c.now)
    ensures Do(p, s, c).1 == Do(p, t, c).1
    ensures Alike(Do(p, s, c).0.counters, Do(p, t, c).0.counters, c.now)
  {
    SweptAlike(p, s, c);
    SweptAlike(p, t, c);
    var m, n := Trimmed(p, s, c.now, c.kept).counters, Trimmed(p, t, c.now, c.kept).counters;
    assert Alike(m, n, c.now);
    assert LiveAt(m, c.pair, c.now) == LiveAt(n, c.pair, c.now);
    assert LiveAt(m, c.client, c.now) == LiveAt(n, c.client, c.now);
    TakenAlike(p, m, n, c.pair, p.maxFailures, c.now);
    TakenAlike(p, Taken(p, m, c.pair, p.maxFailures, c.now), Taken(p, n, c.pair, p.maxFailures, c.now), c.client,
               p.maxPerClient, c.now);
  }

  lemma TakenAlike(p: Policy, m: Counters, n: Counters, key: string, limit: int, now: int)
    requires Alike(m, n, now)
    ensures Alike(Taken(p, m, key, limit, now), Taken(p, n, key, limit, now), now)
  {
    assert LiveAt(m, key, now) == LiveAt(n, key, now);
    forall k ensures LiveAt(Taken(p, m, key, limit, now), k, now) == LiveAt(Taken(p, n, key, limit, now), k, now) {
      assert LiveAt(m, k, now) == LiveAt(n, k, now);
    }
  }

  lemma GivenBackAlike(m: Counters, n: Counters, key: string, now: int)
    requires Alike(m, n, now)
    ensures Alike(GivenBack(m, key), GivenBack(n, key), now) && Alike(m - {key}, n - {key}, now)
  {
    assert LiveAt(m, key, now) == LiveAt(n, key, now);
    forall k ensures LiveAt(GivenBack(m, key), k, now) == LiveAt(GivenBack(n, key), k, now)
             ensures LiveAt(m - {key}, k, now) == LiveAt(n - {key}, k, now) {
      assert LiveAt(m, k, now) == LiveAt(n, k, now);
    }
  }

  /** Tables alike at `start` answer every later run alike. */
  lemma {:induction false} AlikeAlways(p: Policy, s: State, t: State, start: int, calls: seq<Call>, clock: int)
    requires p.Valid() && Alike(s.counters, t.counters, start) && start <= clock && Monotone(calls)
    requires forall i :: 0 <= i < |calls| && calls[i].Attempt? ==> start <= calls[i].now <= clock
    requires RoomyRun(p, s, calls) && RoomyRun(p, t, calls)
    ensures Answers(p, s, calls) == Answers(p, t, calls)
    ensures Alike(After(p, s, calls).counters, After(p, t, calls).counters, clock)
  {
    if calls == [] {
      LaterAlike(s.counters, t.counters, start, clock);
    } else {
      var init, last := calls[..|calls| - 1], calls[|calls| - 1];
      assert forall i :: 0 <= i < |init| ==> init[..i] == calls[..i];
      var at := if last.Attempt? then last.now else clock;
      AlikeAlways(p, s, t, start, init, at);
      var s', t' := After(p, s, init), After(p, t, init);
      AlikeStep(p, s', t', last, at);
      LaterAlike(After(p, s, calls).counters, After(p, t, calls).counters, at, clock);
    }
  }

  lemma AlikeStep(p: Policy, s: State, t: State, c: Call, now: int)
    requires p.Valid() && Roomy(p, s, c) && Roomy(p, t, c) && Alike(s.counters, t.counters, now)
    requires c.Attempt? ==> c.now == now
    ensures Do(p, s, c).1 == Do(p, t, c).1
    ensures Alike(Do(p, s, c).0.counters, Do(p, t, c).0.counters, now)
  {
    match c {
      case Attempt(_, _, _, _) => AttemptAlike(p, s, t, c);
      case Refund(pair, client) =>
        GivenBackAlike(s.counters, t.counters, pair, now);
        GivenBackAlike(GivenBack(s.counters, pair), GivenBack(t.counters, pair), client, now);
      case Clear(pair, client) =>
        GivenBackAlike(s.counters, t.counters, pair, now);
        GivenBackAlike(s.counters - {pair}, t.counters - {pair}, client, now);
    }
  }

  /** An admitted attempt that is refunded leaves every later answer what it would have been. */
  lemma RefundIsInvisible(p: Policy, s: State, c: Call, calls: seq<Call>, clock: int)
    requires p.Valid() && InBudget(p, s.counters) && c.Attempt? && ProperKeys(c.pair, c.client)
    requires Roomy(p, s, c) && Do(p, s, c).1 == Admitted
    requires !Relocks(p, s.counters, c.pair, c.now) && !Relocks(p, s.counters, c.client, c.now)
    requires c.now <= clock && Monotone(calls)
    requires forall i :: 0 <= i < |calls| && calls[i].Attempt? ==> c.now <= calls[i].now <= clock
    requires RoomyRun(p, s, calls) && RoomyRun(p, Do(p, Do(p, s, c).0, Refund(c.pair, c.client)).0, calls)
    ensures Answers(p, Do(p, Do(p, s, c).0, Refund(c.pair, c.client)).0, calls) == Answers(p, s, calls)
  {
    RefundUndoesExactly(p, s, c);
    AlikeAlways(p, Do(p, Do(p, s, c).0, Refund(c.pair, c.client)).0, s, c.now, calls, clock);
  }

  // --------------------------------------------------------------- lockouts

  /** A full counter that nothing forgives stays as it is until its reset. */
  lemma {:induction false} StaysSpent(p: Policy, s: State, calls: seq<Call>, pair: string, until: int)
    requires p.Valid() && Proper(calls) && "signin:" <= pair
    requires pair in s.counters && s.counters[pair].reset == until && p.maxFailures <= s.counters[pair].count
    requires forall i :: 0 <= i < |calls| ==> Unforgiven(calls[i], pair) && (calls[i].Attempt? ==> calls[i].now < until)
    ensures pair in After(p, s, calls).counters && After(p, s, calls).counters[pair] == s.counters[pair]
  {
    if calls != [] {
      var init, last := calls[..|calls| - 1], calls[|calls| - 1];
      StaysSpent(p, s, init, pair, until);
      var t := After(p, s, init);
      if last.Attempt? {
        TrimKeepsLive(p, t, pair, last.now, last.kept);
        UntouchedStays(p, Trimmed(p, t, last.now, last.kept).counters, last, pair);
      }
    }
  }

  /**
   The attempt that spends the pair's budget locks the pair for the whole lockout and no longer:
   whatever comes in between without forgiving it, the pair's counter is spent at `d.now` exactly
   when the lockout is not over, and an attempt before then is told how much of it is left.
   */
  lemma LockedForTheWholeLockout(p: Policy, s: State, c: Call, calls: seq<Call>, d: Call)
    requires p.Valid() && 0 < p.lockout && c.Attempt? && ProperKeys(c.pair, c.client) && Proper(calls)
    requires Do(p, s, c).1 == Admitted && p.maxFailures <= Do(p, s, c).0.counters[c.pair].count
    requires forall i :: 0 <= i < |calls| ==>
               Unforgiven(calls[i], c.pair) && (calls[i].Attempt? ==> calls[i].now < c.now + p.lockout)
    requires d.Attempt? && d.pair == c.pair && d.pair in d.kept
    ensures var t := After(p, Do(p, s, c).0, calls);
            && (SpentAt(p, t.counters, c.pair, d.now) <==> d.now < c.now + p.lockout)
            && (d.now < c.now + p.lockout ==> Do(p, t, d).1 == Refused(c.now + p.lockout - d.now))
  {
    AdmittedTakes(p, Trimmed(p, s, c.now, c.kept).counters, c, c.pair);
    StaysSpent(p, Do(p, s, c).0, calls, c.pair, c.now + p.lockout);
    SpentUntil(p, After(p, Do(p, s, c).0, calls), d, c.now + p.lockout);
  }

  lemma SpentUntil(p: Policy, s: State, d: Call, until: int)
    requires d.Attempt? && "signin:" <= d.pair && d.pair in d.kept && d.pair in s.counters
    requires s.counters[d.pair].reset == until && p.maxFailures <= s.counters[d.pair].count
    ensures SpentAt(p, s.counters, d.pair, d.now) <==> d.now < until
    ensures d.now < until ==> Do(p, s, d).1 == Refused(until - d.now)
  {
    TrimKeepsLive(p, s, d.pair, d.now, d.kept);
  }

  // ------------------------------------------------------------ signing in

  lemma ClearedLive(p: Policy, m: Counters, pair: string, client: string, now: int)
    requires p.Valid() && InBudget(p, m) && ProperKeys(pair, client)
    requires Spent(m, pair, p.maxFailures, now).None? && Spent(m, client, p.maxPerClient, now).None?
    ensures var taken := Taken(p, Taken(p, m, pair, p.maxFailures, now), client, p.maxPerClient, now);
            var back := GivenBack(taken - {pair}, client);
            && LiveAt(back, pair, now).None?
            && (forall k :: k != pair && k != client ==> LiveAt(back, k, now) == LiveAt(m, k, now))
            && (LiveAt(back, client, now) == LiveAt(m, client, now) <==> !Relocks(p, m, client, now))
  {
    var t1 := Taken(p, m, pair, p.maxFailures, now);
    var t2 := Taken(p, t1, client, p.maxPerClient, now);
    var back := GivenBack(t2 - {pair}, client);
    assert At(t1, client) == At(m, client);
    Locally(p, t1, m, client, p.maxPerClient, now);
    Locally(p, t2 - {pair}, Taken(p, m, client, p.maxPerClient, now), client, p.maxPerClient, now);
    TakenGivenBack(p, m, client, now);
    forall k | k != pair && k != client ensures LiveAt(back, k, now) == LiveAt(m, k, now) {
      Beside(p, m, pair, p.maxFailures, now, k);
      Beside(p, t1, client, p.maxPerClient, now, k);
      Beside(p, t2 - {pair}, client, p.maxPerClient, now, k);
    }
  }

  /**
   An admitted attempt that signs in, and so is cleared: the pair is forgotten, with every failure before it; the
   address is left as it was before the attempt, exactly unless it was relocked; no other counter changes.
   */
  lemma SigningInForgives(p: Policy, s: State, c: Call)
    requires p.Valid() && InBudget(p, s.counters) && c.Attempt? && ProperKeys(c.pair, c.client)
    requires Roomy(p, s, c) && Do(p, s, c).1 == Admitted
    ensures var m := Do(p, Do(p, s, c).0, Clear(c.pair, c.client)).0.counters;
            && LiveAt(m, c.pair, c.now).None? && !SpentAt(p, m, c.pair, c.now)
            && (LiveAt(m, c.client, c.now) == LiveAt(s.counters, c.client, c.now)
                <==> !Relocks(p, s.counters, c.client, c.now))
            && (forall k :: k != c.pair && k != c.client ==> LiveAt(m, k, c.now) == LiveAt(s.counters, k, c.now))
  {
    SweptAlike(p, s, c);
    var m := Trimmed(p, s, c.now, c.kept).counters;
    assert InBudget(p, m);
    ClearedLive(p, m, c.pair, c.client, c.now);
    assert LiveAt(m, c.client, c.now) == LiveAt(s.counters, c.client, c.now);
  }

  // ----------------------------------------------------------------- sweeps

  /** A sweep leaves the live counters and no others, and is the last for a window. */
  lemma SweptOnceAWindow(p: Policy, s: State, now: int, later: int)
    requires p.Valid() && s.lastSweep + p.window <= now <= later
    ensures var t := Swept(p, s, now);
            && (forall k :: k in t.counters <==> LiveAt(s.counters, k, now).Some?)
            && (forall k :: k in t.counters ==> Some(t.counters[k]) == LiveAt(s.counters, k, now))
            && (later < now + p.window ==> Swept(p, t, later) == t)
            && (now + p.window <= later ==> Swept(p, t, later).lastSweep == later)
  {
  }
}
