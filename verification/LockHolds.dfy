/**
 Who is granted a lock and who is refused: over every run, a call that runs alone is refused exactly while a grant
 that was not given back is ahead of the clock.
 */
module LockHolds {
  import opened Wrappers
  import opened ArrayStores
  import opened Locks

  // ------------------------------------------------------------ array store

  /** Every lock in the map was granted and not given back. */
  ghost predicate LocksGranted(s: ArrayRun) {
    && (forall k :: k in s.locks ==> GrantedAs(s.grants, s.released, k, s.locks[k].value, s.locks[k].expires))
    && (forall k, t :: (k, t) in s.released ==> t in s.minted)
  }

  ghost predicate GrantedAs(grants: seq<Grant>, released: set<(string, string)>, k: string, t: string, expires: int) {
    (k, t) !in released && exists g :: g in grants && g.key == k && g.token == t && g.expires == expires
  }

  lemma GrantedAsStays(grants: seq<Grant>, more: seq<Grant>, released: set<(string, string)>,
                       after: set<(string, string)>, k: string, t: string, expires: int)
    requires GrantedAs(grants, released, k, t, expires) && (forall g :: g in grants ==> g in more) && (k, t) !in after
    ensures GrantedAs(more, after, k, t, expires)
  {
  }

  lemma ArrayTake(s: ArrayRun, key: string, token: string, ttl: int)
    requires ArrayInv(s) && LocksGranted(s)
    ensures LocksGranted(ArrayStep(s, Take(key, token, ttl)))
  {
    var s' := ArrayStep(s, Take(key, token, ttl));
    forall k | k in s'.locks
      ensures GrantedAs(s'.grants, s'.released, k, s'.locks[k].value, s'.locks[k].expires)
    {
      if s'.grants != s.grants && k == key {
        assert s'.grants[|s.grants|] in s'.grants && (key, token) !in s.released;
      } else {
        GrantedAsStays(s.grants, s'.grants, s.released, s'.released, k, s.locks[k].value, s.locks[k].expires);
      }
    }
  }

  lemma ArrayGive(s: ArrayRun, key: string, token: string)
    requires ArrayInv(s) && LocksGranted(s)
    ensures LocksGranted(ArrayStep(s, Give(key, token)))
  {
    var s' := ArrayStep(s, Give(key, token));
    forall k | k in s'.locks
      ensures GrantedAs(s'.grants, s'.released, k, s'.locks[k].value, s'.locks[k].expires)
    {
      GrantedAsStays(s.grants, s'.grants, s.released, s'.released, k, s.locks[k].value, s.locks[k].expires);
    }
  }

  lemma {:induction false} LocksAlwaysGranted(actions: seq<ArrayAction>)
    ensures ArrayInv(ArrayExec(FRESH, actions)) && LocksGranted(ArrayExec(FRESH, actions))
  {
    if actions != [] {
      var init, last := actions[..|actions| - 1], actions[|actions| - 1];
      LocksAlwaysGranted(init);
      ArrayStepKeeps(ArrayExec(FRESH, init), last);
      match last {
        case Wait(_) =>
        case Take(k, t, ttl) => ArrayTake(ArrayExec(FRESH, init), k, t, ttl);
        case Give(k, t) => ArrayGive(ArrayExec(FRESH, init), k, t);
      }
    }
  }

  /** In every reachable state a handle is refused exactly while the lock is held, and else holds it for its time. */
  lemma ArrayRefusesExactly(actions: seq<ArrayAction>, key: string, token: string, ttl: int)
    requires token !in ArrayExec(FRESH, actions).minted && 0 < ttl
    ensures var s := ArrayExec(FRESH, actions);
            ArrayStep(s, Take(key, token, ttl)).grants
            == if Held(s.grants, s.released, key, s.clock) then s.grants
               else s.grants + [Grant(key, token, s.clock + ttl, s.clock, s.released)]
  {
    LocksAlwaysGranted(actions);
    var s := ArrayExec(FRESH, actions);
    if Held(s.grants, s.released, key, s.clock) {
      var g :| g in s.grants && g.key == key && (key, g.token) !in s.released && s.clock < g.expires;
      assert key in s.locks && s.locks[key] == Entry(g.token, g.expires);
    }
    if key in s.locks { assert GrantedAs(s.grants, s.released, key, s.locks[key].value, s.locks[key].expires); }
  }

  // --------------------------------------------------------- database store

  /** Every row was granted and not given back, and nothing was given back that was not granted. */
  ghost predicate RowsGranted(s: Table) {
    && (forall k :: k in s.rows ==> GrantedAs(s.grants, s.released, k, s.rows[k].owner, s.rows[k].expiration))
    && (forall k, t :: (k, t) in s.released ==> exists g :: g in s.grants && g.key == k && g.token == t)
  }

  lemma GrantGranted(s: Table, c: nat, key: string, token: string, expiration: int)
    requires Inv(s) && RowsGranted(s) && c in s.calls && HasToken(s.calls[c]) && s.calls[c].token == token
    ensures RowsGranted(Granted(s, c, key, token, expiration))
  {
    var s' := Granted(s, c, key, token, expiration);
    var g := s'.grants[|s.grants|];
    assert g in s'.grants && forall h :: h in s.grants ==> h in s'.grants;
    forall k | k in s'.rows
      ensures GrantedAs(s'.grants, s'.released, k, s'.rows[k].owner, s'.rows[k].expiration)
    {
      if k != key {
        GrantedAsStays(s.grants, s'.grants, s.released, s.released, k, s.rows[k].owner, s.rows[k].expiration);
      }
    }
  }

  lemma ReleaseGranted(s: Table, key: string, token: string)
    requires RowsGranted(s)
    ensures RowsGranted(Step(s, Release(key, token)))
  {
    var s' := Step(s, Release(key, token));
    forall k | k in s'.rows
      ensures GrantedAs(s'.grants, s'.released, k, s'.rows[k].owner, s'.rows[k].expiration)
    {
      GrantedAsStays(s.grants, s.grants, s.released, s'.released, k, s.rows[k].owner, s.rows[k].expiration);
    }
  }

  lemma StepGranted(s: Table, a: Action)
    requires Inv(s) && RowsGranted(s)
    ensures RowsGranted(Step(s, a))
  {
    match a {
      case Insert(c, broken) =>
        var p := PhaseOf(s, c);
        if p.Inserting? && !broken && p.key !in s.rows { GrantGranted(s, c, p.key, p.token, p.expiration); }
      case Update(c) =>
        var p := PhaseOf(s, c);
        if p.Updating? && p.key in s.rows && (s.rows[p.key].owner == p.token || s.rows[p.key].expiration <= p.cutoff) {
          GrantGranted(s, c, p.key, p.token, p.expiration);
        }
      case Release(k, t) => ReleaseGranted(s, k, t);
      case _ =>
    }
  }

  lemma {:induction false} RowsAlwaysGranted(actions: seq<Action>)
    ensures Inv(Exec(EMPTY, actions)) && RowsGranted(Exec(EMPTY, actions))
  {
    if actions != [] {
      var init, last := actions[..|actions| - 1], actions[|actions| - 1];
      RowsAlwaysGranted(init);
      StepKeeps(Exec(EMPTY, init), last);
      StepGranted(Exec(EMPTY, init), last);
    }
  }

  /** A row ahead of the clock is a lock that is held. */
  lemma HeldIsARow(s: Table, key: string)
    requires Inv(s) && RowsGranted(s)
    ensures Held(s.grants, s.released, key, Millis(s.clock))
       <==> key in s.rows && Millis(s.clock) < s.rows[key].expiration
  {
    if key in s.rows { assert GrantedAs(s.grants, s.released, key, s.rows[key].owner, s.rows[key].expiration); }
  }

  // ------------------------------------------------------------- calls alone

  /** AcquireLock with nobody's statement between its own. */
  function Alone(s: Table, c: nat, key: string, token: string, ttl: int): Table {
    Step(Step(Step(Step(s, Begin(c, key, token, ttl)), Insert(c, false)), ReadClock(c)), Update(c))
  }

  lemma BegunIs(s: Table, c: nat, key: string, token: string, ttl: int)
    requires PhaseOf(s, c).Idle? && token !in s.minted
    ensures var e := Millis(s.clock + ttl);
            Step(s, Begin(c, key, token, ttl))
            == s.(calls := s.calls[c := Inserting(key, token, e)], minted := s.minted + {token})
  {
  }

  /** No row: the INSERT is granted, and the call has nothing more to say. */
  lemma InsertedAlone(s: Table, c: nat, key: string, token: string, e: int)
    requires PhaseOf(s, c) == Inserting(key, token, e) && key !in s.rows
    ensures var t := Step(s, Insert(c, false));
            && t == Granted(s, c, key, token, e) && Step(Step(t, ReadClock(c)), Update(c)) == t
  {
  }

  /** A row: the UPDATE is granted exactly if the row is not ahead of the clock. */
  lemma UpdatedAlone(s: Table, c: nat, key: string, token: string, e: int)
    requires PhaseOf(s, c) == Inserting(key, token, e) && key in s.rows && s.rows[key].owner != token
    ensures Step(Step(Step(s, Insert(c, false)), ReadClock(c)), Update(c)).grants
         == if s.rows[key].expiration <= Millis(s.clock)
            then s.grants + [Grant(key, token, e, Millis(s.clock), s.released)] else s.grants
  {
    var blocked := Step(s, Insert(c, false));
    assert PhaseOf(blocked, c) == Blocked(key, token, e);
    var read := Step(blocked, ReadClock(c));
    assert PhaseOf(read, c) == Updating(key, token, e, Millis(s.clock));
  }

  /** The owner of a row was granted it, so it is a token minted. */
  lemma OwnersAreMinted(s: Table, key: string)
    requires Inv(s) && RowsGranted(s) && key in s.rows
    ensures s.rows[key].owner in s.minted
  {
    assert GrantedAs(s.grants, s.released, key, s.rows[key].owner, s.rows[key].expiration);
  }

  /** What a call that runs alone adds to the grants: nothing while the lock is held, and else its own. */
  ghost predicate RefusedWhileHeld(s: Table, t: Table, key: string, token: string, ttl: int) {
    t.grants == if Held(s.grants, s.released, key, Millis(s.clock)) then s.grants
                else s.grants + [Grant(key, token, Millis(s.clock + ttl), Millis(s.clock), s.released)]
  }

  lemma AloneFrom(s: Table, c: nat, key: string, token: string, ttl: int)
    requires Inv(s) && RowsGranted(s) && PhaseOf(s, c).Idle? && token !in s.minted
    ensures RefusedWhileHeld(s, Alone(s, c, key, token, ttl), key, token, ttl)
  {
    BegunIs(s, c, key, token, ttl);
    var begun := Step(s, Begin(c, key, token, ttl));
    HeldIsARow(s, key);
    if key in s.rows {
      OwnersAreMinted(s, key);
      UpdatedAlone(begun, c, key, token, Millis(s.clock + ttl));
    } else {
      InsertedAlone(begun, c, key, token, Millis(s.clock + ttl));
    }
  }

  /**
   In every reachable table, a call that runs alone is refused if and only if the lock was granted, not given back,
   and has its expiration ahead; otherwise it is granted, until its own expiration.
   */
  lemma RefusedExactly(actions: seq<Action>, s: Table, c: nat, key: string, token: string, ttl: int)
    requires s == Exec(EMPTY, actions) && PhaseOf(s, c).Idle? && token !in s.minted
    ensures RefusedWhileHeld(s, Alone(s, c, key, token, ttl), key, token, ttl)
  {
    RowsAlwaysGranted(actions);
    AloneFrom(s, c, key, token, ttl);
  }

  /** Given back by its owner, the lock is granted to the next handle by its INSERT. */
  lemma GivenBackIsFree(s: Table, key: string, token: string, c: nat, other: string, ttl: int)
    requires key in s.rows && s.rows[key].owner == token && PhaseOf(s, c).Idle? && other !in s.minted
    ensures var t := Step(s, Release(key, token));
            Step(Step(t, Begin(c, key, other, ttl)), Insert(c, false)).grants
            == s.grants + [Grant(key, other, Millis(s.clock + ttl), Millis(s.clock), t.released)]
  {
    var t := Step(s, Release(key, token));
    BegunIs(t, c, key, other, ttl);
    InsertedAlone(Step(t, Begin(c, key, other, ttl)), c, key, other, Millis(s.clock + ttl));
  }

  /** Given back by any other token, nothing changes hands. */
  lemma OthersGiveNothingBack(actions: seq<Action>, s: Table, key: string, token: string)
    requires s == Exec(EMPTY, actions) && (key in s.rows ==> s.rows[key].owner != token)
    ensures var t := Step(s, Release(key, token));
            && t.rows == s.rows
            && forall k ::
                 Held(t.grants, t.released, k, Millis(t.clock)) <==> Held(s.grants, s.released, k, Millis(s.clock))
  {
    RowsAlwaysGranted(actions);
    var t := Step(s, Release(key, token));
    StepKeeps(s, Release(key, token));
    StepGranted(s, Release(key, token));
    forall k
      ensures Held(t.grants, t.released, k, Millis(t.clock)) <==> Held(s.grants, s.released, k, Millis(s.clock))
    {
      HeldIsARow(s, k);
      HeldIsARow(t, k);
    }
  }

  /** A pruning that runs alone leaves the rows of the locks that are held, and no other. */
  lemma PruneLeavesTheHeld(actions: seq<Action>, s: Table, c: nat)
    requires s == Exec(EMPTY, actions) && PhaseOf(s, c).Idle?
    ensures var t := Step(Step(s, BeginPrune(c)), Prune(c));
            && (forall k :: k in t.rows <==> Held(s.grants, s.released, k, Millis(s.clock)))
            && (forall k :: k in t.rows ==> t.rows[k] == s.rows[k])
  {
    RowsAlwaysGranted(actions);
    var t := Step(Step(s, BeginPrune(c)), Prune(c));
    assert PhaseOf(Step(s, BeginPrune(c)), c) == Pruning(Millis(s.clock));
    forall k ensures k in t.rows <==> Held(s.grants, s.released, k, Millis(s.clock)) { HeldIsARow(s, k); }
  }

  /** An INSERT that fails on a free name takes nothing: there is no row for the UPDATE to find. */
  lemma BrokenInsertRefuses(s: Table, c: nat, key: string, token: string, expiration: int)
    requires PhaseOf(s, c) == Inserting(key, token, expiration) && key !in s.rows
    ensures var t := Step(Step(Step(s, Insert(c, true)), ReadClock(c)), Update(c));
            t.rows == s.rows && t.grants == s.grants && PhaseOf(t, c) == Idle
  {
  }

  /** A token whose row is already there takes the lock again, however far its expiration. */
  lemma OwnerTakesAgain(s: Table, c: nat, key: string, token: string, expiration: int)
    requires PhaseOf(s, c) == Inserting(key, token, expiration) && key in s.rows && s.rows[key].owner == token
    ensures var t := Step(Step(Step(s, Insert(c, false)), ReadClock(c)), Update(c));
            && t.rows == s.rows[key := Row(token, expiration)] && PhaseOf(t, c) == Idle
            && t.grants == s.grants + [Grant(key, token, expiration, Millis(s.clock), s.released)]
  {
  }
}
