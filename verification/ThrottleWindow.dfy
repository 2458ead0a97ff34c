/**
 How many attempts a window can admit. The counter of a key lives in generations, each starting once the
 one before it is reset; how far apart that puts them decides how many of them one window can meet.
 */
module ThrottleWindow {
  import opened Throttle

  /** One more call, as the generations of a key's counter see it. */
  function Extended(p: Policy, s: State, gens: seq<seq<int>>, c: Call, key: string): seq<seq<int>> {
    if !c.Attempt? || !Touches(c, key) || Do(p, s, c).1 != Admitted then gens
    else Grown(gens, LiveAt(s.counters, key, c.now).Some?, c.now)
  }

  /** An attempt more in the last generation while that lives, else a generation more. */
  function Grown(gens: seq<seq<int>>, live: bool, now: int): seq<seq<int>> {
    if live && gens != [] then gens[..|gens| - 1] + [gens[|gens| - 1] + [now]] else gens + [[now]]
  }

  /** The generations of a key's counter, each the times of the attempts it admitted. */
  function Generations(p: Policy, s: State, calls: seq<Call>, key: string): seq<seq<int>> {
    if calls == [] then []
    else
      var init := calls[..|calls| - 1];
      Extended(p, After(p, s, init), Generations(p, s, init, key), calls[|calls| - 1], key)
  }

  /** A generation is within its limit, in order, and shorter than a window. */
  ghost predicate Generation(g: seq<int>, limit: int, window: int) {
    && 1 <= |g| <= limit && (forall t :: t in g ==> g[0] <= t <= g[|g| - 1])
    && g[|g| - 1] < g[0] + window
  }

  /** When a generation is over: a lockout after the attempt that filled it, or a window after its first. */
  function ResetOf(p: Policy, g: seq<int>, limit: int): int
    requires g != []
  {
    if limit <= |g| && 0 < p.lockout then g[|g| - 1] + p.lockout else g[0] + p.window
  }

  /** Every generation starts once the one before it is over. */
  ghost predicate Succeeds(p: Policy, gens: seq<seq<int>>, limit: int) {
    gens != [] ==>
      var n := |gens| - 1;
      && Generation(gens[n], limit, p.window) && Succeeds(p, gens[..n], limit)
      && (0 < n ==> gens[n - 1] != [] && ResetOf(p, gens[n - 1], limit) <= gens[n][0])
  }

  /** The counter is the last generation, or that generation is over. */
  ghost predicate Follows(p: Policy, s: State, gens: seq<seq<int>>, key: string, clock: int) {
    && Succeeds(p, gens, LimitOf(p, key))
    && (key in s.counters ==> gens != [])
    && (gens != [] ==>
          var g := gens[|gens| - 1];
          && g[|g| - 1] <= clock
          && if key in s.counters then s.counters[key] == Counter(|g|, ResetOf(p, g, LimitOf(p, key)))
             else ResetOf(p, g, LimitOf(p, key)) <= clock)
  }

  lemma SucceedsAppends(p: Policy, gens: seq<seq<int>>, g: seq<int>, limit: int)
    requires Succeeds(p, gens, limit) && Generation(g, limit, p.window)
    requires gens != [] ==> gens[|gens| - 1] != [] && ResetOf(p, gens[|gens| - 1], limit) <= g[0]
    ensures Succeeds(p, gens + [g], limit)
  {
    assert (gens + [g])[..|gens|] == gens;
  }

  lemma FollowsNewOne(p: Policy, gens: seq<seq<int>>, key: string, now: int)
    requires p.Valid() && Succeeds(p, gens, LimitOf(p, key))
    requires gens != [] ==> ResetOf(p, gens[|gens| - 1], LimitOf(p, key)) <= now
    ensures Succeeds(p, gens + [[now]], LimitOf(p, key))
  {
    SucceedsAppends(p, gens, [now], LimitOf(p, key));
  }

  /** The last generation and those before it. */
  lemma SucceedsInit(p: Policy, gens: seq<seq<int>>, limit: int)
    requires Succeeds(p, gens, limit) && gens != []
    ensures var before, g := gens[..|gens| - 1], gens[|gens| - 1];
            && Succeeds(p, before, limit) && Generation(g, limit, p.window)
            && (before != [] ==> before[|before| - 1] != [] && ResetOf(p, before[|before| - 1], limit) <= g[0])
  {
  }

  lemma FollowsOneMore(p: Policy, gens: seq<seq<int>>, key: string, now: int)
    requires p.Valid() && Succeeds(p, gens, LimitOf(p, key)) && gens != []
    requires var g := gens[|gens| - 1]; |g| < LimitOf(p, key) && g[|g| - 1] <= now < g[0] + p.window
    ensures Succeeds(p, gens[..|gens| - 1] + [gens[|gens| - 1] + [now]], LimitOf(p, key))
  {
    var before, g := gens[..|gens| - 1], gens[|gens| - 1];
    SucceedsInit(p, gens, LimitOf(p, key));
    LongerGeneration(g, LimitOf(p, key), p.window, now);
    GrownSucceeds(p, before, g, now, LimitOf(p, key));
  }

  lemma GrownSucceeds(p: Policy, before: seq<seq<int>>, g: seq<int>, now: int, limit: int)
    requires Succeeds(p, before, limit) && g != [] && Generation(g + [now], limit, p.window)
    requires before != [] ==> before[|before| - 1] != [] && ResetOf(p, before[|before| - 1], limit) <= g[0]
    ensures Succeeds(p, before + [g + [now]], limit)
  {
    SucceedsAppends(p, before, g + [now], limit);
  }

  lemma LongerGeneration(g: seq<int>, limit: int, window: int, now: int)
    requires Generation(g, limit, window) && |g| < limit && g[|g| - 1] <= now < g[0] + window
    ensures Generation(g + [now], limit, window)
  {
    assert g[0] in g && (g + [now])[0] == g[0];
  }

  /** The key's counter after an attempt that takes from it, and after one that does not. */
  ghost predicate Takes(p: Policy, m: Counters, m': Counters, key: string, now: int) {
    var live := LiveAt(m, key, now);
    var from := if live.Some? then live.value else Counter(0, now + p.window);
    && from.count < LimitOf(p, key) && key in m' && m'[key].count == from.count + 1
    && m'[key].reset == if LimitOf(p, key) <= from.count + 1 && 0 < p.lockout then now + p.lockout else from.reset
  }

  predicate Spares(m: Counters, m': Counters, key: string, now: int) {
    && (key in m' ==> key in m && m'[key] == m[key])
    && (key in m && now < m[key].reset ==> key in m')
  }

  lemma AttemptTakes(p: Policy, s: State, c: Call, key: string)
    requires p.Valid() && c.Attempt? && ProperKeys(c.pair, c.client) && key in c.kept
    requires Touches(c, key) && Do(p, s, c).1 == Admitted
    ensures Takes(p, s.counters, Do(p, s, c).0.counters, key, c.now)
  {
    TrimKeepsLive(p, s, key, c.now, c.kept);
    AdmittedTakes(p, Trimmed(p, s, c.now, c.kept).counters, c, key);
  }

  lemma AttemptSpares(p: Policy, s: State, c: Call, key: string)
    requires c.Attempt? && key in c.kept && (!Touches(c, key) || Do(p, s, c).1 != Admitted)
    ensures Spares(s.counters, Do(p, s, c).0.counters, key, c.now)
  {
    TrimKeepsLive(p, s, key, c.now, c.kept);
    UntouchedStays(p, Trimmed(p, s, c.now, c.kept).counters, c, key);
  }

  lemma FollowsStep(p: Policy, s: State, gens: seq<seq<int>>, c: Call, key: string)
    requires p.Valid() && c.Attempt? && ProperKeys(c.pair, c.client) && key in c.kept && Follows(p, s, gens, key, c.now)
    ensures Follows(p, Do(p, s, c).0, Extended(p, s, gens, c, key), key, c.now)
  {
    if Touches(c, key) && Do(p, s, c).1 == Admitted {
      AttemptTakes(p, s, c, key);
      FollowsTaken(p, s, Do(p, s, c).0, gens, key, c.now);
    } else {
      AttemptSpares(p, s, c, key);
      FollowsSpared(p, s, Do(p, s, c).0, gens, key, c.now);
    }
  }

  lemma FollowsTaken(p: Policy, s: State, s': State, gens: seq<seq<int>>, key: string, now: int)
    requires p.Valid() && Follows(p, s, gens, key, now) && Takes(p, s.counters, s'.counters, key, now)
    ensures Follows(p, s', Grown(gens, LiveAt(s.counters, key, now).Some?, now), key, now)
  {
    if LiveAt(s.counters, key, now).Some? {
      FollowsOneMore(p, gens, key, now);
      LastGrown(gens, now);
    } else {
      FollowsNewOne(p, gens, key, now);
    }
  }

  lemma LastGrown(gens: seq<seq<int>>, now: int)
    requires gens != []
    ensures var gens' := Grown(gens, true, now);
            gens' != [] && gens'[|gens'| - 1] == gens[|gens| - 1] + [now]
  {
  }

  lemma FollowsSpared(p: Policy, s: State, s': State, gens: seq<seq<int>>, key: string, now: int)
    requires p.Valid() && Follows(p, s, gens, key, now) && Spares(s.counters, s'.counters, key, now)
    ensures Follows(p, s', gens, key, now)
  {
  }

  /** In every run that never forgives a key, its counter is the last of its generations. */
  lemma {:induction false} FollowsAlways(p: Policy, since: int, calls: seq<Call>, key: string, clock: int)
    requires p.Valid() && Harsh(calls, key)
    requires forall i :: 0 <= i < |calls| && calls[i].Attempt? ==> calls[i].now <= clock
    ensures var start := State(map[], since);
            Follows(p, After(p, start, calls), Generations(p, start, calls, key), key, clock)
  {
    if calls != [] {
      var start, init, last := State(map[], since), calls[..|calls| - 1], calls[|calls| - 1];
      HarshPrefix(calls, key);
      FollowsAlways(p, since, init, key, if last.Attempt? then last.now else clock);
      var s, gens := After(p, start, init), Generations(p, start, init, key);
      if last.Attempt? { FollowsStep(p, s, gens, last, key); } else { OthersStay(p, s, last, key); }
    }
  }

  lemma HarshPrefix(calls: seq<Call>, key: string)
    requires Harsh(calls, key) && calls != []
    ensures var init, last := calls[..|calls| - 1], calls[|calls| - 1];
            && Harsh(init, key) && ProperKeys(last.pair, last.client) && Unforgiven(last, key)
            && (last.Attempt? ==> forall i :: 0 <= i < |init| && init[i].Attempt? ==> init[i].now <= last.now)
  {
  }

  lemma OthersStay(p: Policy, s: State, c: Call, key: string)
    requires !c.Attempt? && !Touches(c, key)
    ensures var m := Do(p, s, c).0.counters;
            (key in m <==> key in s.counters) && (key in m ==> m[key] == s.counters[key])
  {
  }

  /** A run under a clock that does not go back, in which nothing forgives this key. */
  ghost predicate Harsh(calls: seq<Call>, key: string) {
    Proper(calls) && Monotone(calls) && forall i :: 0 <= i < |calls| ==> Unforgiven(calls[i], key)
  }

  // -------------------------------------------------- how often they are met

  /** How many of these times fall in [a, a + window). */
  function Within(times: seq<int>, a: int, window: int): nat {
    if times == [] then 0
    else Within(times[..|times| - 1], a, window) + if a <= times[|times| - 1] < a + window then 1 else 0
  }

  function Tally(gens: seq<seq<int>>, a: int, window: int): nat {
    if gens == [] then 0 else Tally(gens[..|gens| - 1], a, window) + Within(gens[|gens| - 1], a, window)
  }

  /** How many attempts on a key a run admits in [a, a + window). */
  function AdmittedIn(p: Policy, s: State, calls: seq<Call>, key: string, a: int): nat {
    if calls == [] then 0
    else
      var init, last := calls[..|calls| - 1], calls[|calls| - 1];
      AdmittedIn(p, s, init, key, a)
      + if last.Attempt? && Touches(last, key) && Do(p, After(p, s, init), last).1 == Admitted
           && a <= last.now < a + p.window then 1 else 0
  }

  lemma TallyExtended(p: Policy, s: State, gens: seq<seq<int>>, c: Call, key: string, a: int)
    ensures Tally(Extended(p, s, gens, c, key), a, p.window) == Tally(gens, a, p.window)
      + if c.Attempt? && Touches(c, key) && Do(p, s, c).1 == Admitted && a <= c.now < a + p.window then 1 else 0
  {
    var gens' := Extended(p, s, gens, c, key);
    if |gens'| != |gens| {
      assert gens'[..|gens|] == gens && gens'[|gens|] == [c.now] && [c.now][..0] == [];
      assert Within([c.now], a, p.window) == if a <= c.now < a + p.window then 1 else 0;
    } else if gens' != gens {
      var n := |gens| - 1;
      assert gens'[..n] == gens[..n] && gens'[n][..|gens[n]|] == gens[n];
    }
  }

  lemma {:induction false} TallyCounts(p: Policy, s: State, calls: seq<Call>, key: string, a: int)
    ensures AdmittedIn(p, s, calls, key, a) == Tally(Generations(p, s, calls, key), a, p.window)
  {
    if calls != [] {
      var init := calls[..|calls| - 1];
      TallyCounts(p, s, init, key, a);
      TallyExtended(p, After(p, s, init), Generations(p, s, init, key), calls[|calls| - 1], key, a);
    }
  }

  lemma {:induction false} WithinBounds(times: seq<int>, a: int, window: int)
    ensures Within(times, a, window) <= |times|
    ensures (forall t :: t in times ==> t < a || a + window <= t) ==> Within(times, a, window) == 0
  {
    if times != [] {
      var init := times[..|times| - 1];
      WithinBounds(init, a, window);
      assert times[|times| - 1] in times && forall t :: t in init ==> t in times;
    }
  }

  /** The policies whose generations are far enough apart. */
  predicate Steady(lockout: int, window: int, limit: int) {
    lockout == 0 || window - 1 <= lockout || (limit <= 2 && window <= 2 * lockout)
  }

  /** Under such a policy, two generations on is a whole window on. */
  lemma TwoOnIsAWindowOn(p: Policy, g: seq<int>, h: seq<int>, limit: int, start: int)
    requires p.Valid() && Steady(p.lockout, p.window, limit)
    requires Generation(g, limit, p.window) && Generation(h, limit, p.window)
    requires ResetOf(p, g, limit) <= h[0] && ResetOf(p, h, limit) <= start
    ensures g[|g| - 1] + p.window <= start
  {
    assert g[0] in g && h[0] in h;
    if limit <= 2 && |g| < limit { assert |g| == 1; }
  }

  /** The generation before the last, and how the last follows it. */
  lemma BeforeTheLast(p: Policy, gens: seq<seq<int>>, limit: int)
    requires p.Valid() && Succeeds(p, gens, limit) && 1 < |gens|
    ensures var n := |gens| - 1;
            && Generation(gens[n - 1], limit, p.window) && ResetOf(p, gens[n - 1], limit) <= gens[n][0]
            && gens[n - 1][|gens[n - 1]| - 1] <= gens[n][0] <= gens[n][|gens[n]| - 1]
  {
    var n := |gens| - 1;
    assert gens[..n][n - 1] == gens[n - 1] && gens[n][0] in gens[n];
  }

  /** Once the last generation is over before the interval, so are all before it. */
  lemma {:induction false} AllOver(p: Policy, gens: seq<seq<int>>, limit: int, a: int)
    requires p.Valid() && Succeeds(p, gens, limit)
    requires gens != [] ==> var g := gens[|gens| - 1]; g[|g| - 1] < a
    ensures Tally(gens, a, p.window) == 0
  {
    if gens != [] {
      if 1 < |gens| { BeforeTheLast(p, gens, limit); }
      AllOver(p, gens[..|gens| - 1], limit, a);
      WithinBounds(gens[|gens| - 1], a, p.window);
    }
  }

  /** So an interval of one window meets at most two generations. */
  lemma {:induction false} TwoGenerations(p: Policy, gens: seq<seq<int>>, limit: int, a: int)
    requires p.Valid() && 0 < limit && Steady(p.lockout, p.window, limit) && Succeeds(p, gens, limit)
    ensures Tally(gens, a, p.window) <= 2 * limit
  {
    if gens != [] {
      var n := |gens| - 1;
      WithinBounds(gens[n], a, p.window);
      if a + p.window <= gens[n][0] {
        TwoGenerations(p, gens[..n], limit, a);
      } else if 0 < n {
        WithinBounds(gens[n - 1], a, p.window);
        assert gens[..n][..n - 1] == gens[..n - 1];
        BeforeTheLast(p, gens, limit);
        if 1 < n {
          BeforeTheLast(p, gens[..n], limit);
          TwoOnIsAWindowOn(p, gens[n - 2], gens[n - 1], limit, gens[n][0]);
        }
        AllOver(p, gens[..n - 1], limit, a);
      }
    }
  }

  lemma {:induction false} LastTime(calls: seq<Call>) returns (clock: int)
    requires Monotone(calls)
    ensures forall i :: 0 <= i < |calls| && calls[i].Attempt? ==> calls[i].now <= clock
  {
    if calls == [] {
      clock := 0;
    } else {
      var last := calls[|calls| - 1];
      clock := LastTime(calls[..|calls| - 1]);
      if last.Attempt? { clock := last.now; }
    }
  }

  /**
   In any half-open interval one window long, a run that never forgives a key admits at most twice the
   key's budget, under every steady policy.
   */
  lemma TwoBudgetsPerWindow(p: Policy, since: int, calls: seq<Call>, key: string, a: int)
    requires p.Valid() && Steady(p.lockout, p.window, LimitOf(p, key)) && Harsh(calls, key)
    ensures AdmittedIn(p, State(map[], since), calls, key, a) <= 2 * LimitOf(p, key)
  {
    var clock := LastTime(calls);
    FollowsAlways(p, since, calls, key, clock);
    TallyCounts(p, State(map[], since), calls, key, a);
    TwoGenerations(p, Generations(p, State(map[], since), calls, key), LimitOf(p, key), a);
  }
}
