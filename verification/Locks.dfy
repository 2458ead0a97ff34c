/**
 Locks proved by a token and ended by a time to live: the handle, the array store's
 atomic form, and the database store's INSERT and conditional UPDATE as separate steps.
 */
module Locks {
  import opened Wrappers
  import opened ArrayStores

  // ---------------------------------------------------------------- handle

  datatype LockError = LockNeedsTTL | LockNeedsName | Locked

  function LockKey(name: string): string {
    "lock:" + name
  }

  /** Locks of two names are two locks. */
  lemma NamesApart(a: string, b: string)
    ensures LockKey(a) == LockKey(b) <==> a == b
  {
    assert LockKey(a)[5..] == a && LockKey(b)[5..] == b;
  }

  /** One handle. `token` stands for the sixteen random bytes minted at Acquire. */
  class Lock {
    const store: ArrayStore
    const name: string
    const ttl: int
    var owner: string
    var held: bool

    constructor (store: ArrayStore, name: string, ttl: int)
      ensures this.store == store && this.name == name && this.ttl == ttl && owner == "" && !held
    {
      this.store, this.name, this.ttl := store, name, ttl;
      owner, held := "", false;
    }

    /** A refused handle keeps what it believed; a granted one holds the token it minted. */
    method Acquire(token: string, now: int) returns (r: Result<(), LockError>)
      modifies this`owner, this`held, store`locks
      ensures r == if ttl <= 0 then Err(LockNeedsTTL) else if name == "" then Err(LockNeedsName)
                   else if Lookup(old(store.locks), LockKey(name), now).Some? then Err(Locked) else Ok(())
      ensures r.Ok? ==> owner == token && held
      ensures r.Ok? ==> Lookup(store.locks, LockKey(name), now) == Some(Entry(token, now + ttl))
      ensures r.Err? ==> owner == old(owner) && held == old(held) && store.locks == old(store.locks)
      ensures forall k :: k != LockKey(name) ==> Lookup(store.locks, k, now) == Lookup(old(store.locks), k, now)
    {
      if ttl <= 0 {
        return Err(LockNeedsTTL);
      }
      if name == "" {
        return Err(LockNeedsName);
      }
      var a := store.AcquireLock(LockKey(name), token, ttl, now);
      if a != Flag(true) {
        return Err(Locked);
      }
      owner, held := token, true;
      r := Ok(());
    }

    /** Gives back what this handle took, and nothing that has since become somebody else's. */
    method Release(now: int)
      modifies this`owner, this`held, store`locks
      ensures owner == "" && (old(owner) != "" ==> !held)
      ensures old(owner) == "" ==> held == old(held) && store.locks == old(store.locks)
      ensures forall k ::
                var was := Lookup(old(store.locks), k, now);
                var mine := old(owner) != "" && k == LockKey(name) && was.Some? && was.value.value == old(owner);
                Lookup(store.locks, k, now) == if mine then None else was
    {
      if owner == "" {
        return;
      }
      var token := owner;
      owner, held := "", false;
      store.ReleaseLock(LockKey(name), token, now);
    }
  }

  // ------------------------------------------------------ what a run records

  /** One successful acquisition: until when it holds, when it was made, what had been given back by then. */
  datatype Grant = Grant(key: string, token: string, expires: int, at: int, released: set<(string, string)>)

  /** A lock is given back only by the token it was granted to; a token that was granted nothing gives nothing back. */
  function GivenBack(released: set<(string, string)>, grants: seq<Grant>, key: string, token: string)
    : set<(string, string)>
  {
    if exists g :: g in grants && g.key == key && g.token == token then released + {(key, token)} else released
  }

  /** A grant that was not given back and whose expiration is ahead. */
  ghost predicate Held(grants: seq<Grant>, released: set<(string, string)>, key: string, now: int) {
    exists g :: g in grants && g.key == key && (key, g.token) !in released && now < g.expires
  }

  /**
   No lock was granted twice: a later grant of the same name comes after the earlier one
   was released by its own token or after the expiration the store wrote for it.
   */
  ghost predicate Exclusive(grants: seq<Grant>) {
    forall i, j :: 0 <= i < j < |grants| && grants[i].key == grants[j].key ==>
      grants[i].expires <= grants[j].at || (grants[i].key, grants[i].token) in grants[j].released
  }

  // ----------------------------------------------------------- array store

  datatype ArrayRun = ArrayRun(locks: Entries, clock: int, minted: set<string>,
                               released: set<(string, string)>, grants: seq<Grant>)

  datatype ArrayAction =
    | Wait(nanos: nat)
    | Take(key: string, token: string, ttl: int)
    | Give(key: string, token: string)

  /** Tokens are random, so a Take is given one nobody holds; any token may be given back. */
  function ArrayStep(s: ArrayRun, a: ArrayAction): ArrayRun {
    match a
    case Wait(d) => s.(clock := s.clock + d)
    case Take(k, t, ttl) =>
      if t in s.minted then s
      else
        var (locks, answer) := AcquiredLock(s.locks, k, t, ttl, s.clock);
        s.(locks := locks, minted := s.minted + {t},
           grants := if answer == Flag(true)
                     then s.grants + [Grant(k, t, s.clock + ttl, s.clock, s.released)] else s.grants)
    case Give(k, t) =>
      s.(locks := ReleasedLock(s.locks, k, t, s.clock), released := GivenBack(s.released, s.grants, k, t))
  }

  function ArrayExec(s: ArrayRun, actions: seq<ArrayAction>): ArrayRun {
    if actions == [] then s
    else ArrayStep(ArrayExec(s, actions[..|actions| - 1]), actions[|actions| - 1])
  }

  const FRESH: ArrayRun := ArrayRun(map[], 0, {}, {}, [])

  /** A grant that is neither released nor expired is what the store still holds. */
  ghost predicate ArrayInv(s: ArrayRun) {
    && Exclusive(s.grants)
    && forall g :: g in s.grants ==>
         && g.token in s.minted
         && ((g.key, g.token) in s.released || g.expires <= s.clock
             || (g.key in s.locks && s.locks[g.key] == Entry(g.token, g.expires)))
  }

  lemma ArrayStepKeeps(s: ArrayRun, a: ArrayAction)
    requires ArrayInv(s)
    ensures ArrayInv(ArrayStep(s, a))
  {
    var s' := ArrayStep(s, a);
    if s'.grants != s.grants {
      var g := s'.grants[|s.grants|];
      assert s'.grants == s.grants + [g];
      forall i | 0 <= i < |s.grants| && s.grants[i].key == g.key
        ensures s.grants[i].expires <= g.at || (g.key, s.grants[i].token) in g.released
      {
        assert s.grants[i] in s.grants;
      }
    }
  }

  /** Exclusion over every run of the array store. */
  lemma {:induction false} ArrayExclusion(actions: seq<ArrayAction>)
    ensures ArrayInv(ArrayExec(FRESH, actions))
    ensures Exclusive(ArrayExec(FRESH, actions).grants)
  {
    if actions != [] {
      ArrayExclusion(actions[..|actions| - 1]);
      ArrayStepKeeps(ArrayExec(FRESH, actions[..|actions| - 1]), actions[|actions| - 1]);
    }
  }

  // -------------------------------------------------------- database store

  const MILLISECOND: int := 1_000_000

  function Millis(t: int): int {
    t / MILLISECOND
  }

  datatype Row = Row(owner: string, expiration: int)

  /** Where one call stands between its statements. */
  datatype Phase =
    | Idle
    | Inserting(key: string, token: string, expiration: int)
    | Blocked(key: string, token: string, expiration: int)
    | Updating(key: string, token: string, expiration: int, cutoff: int)
    | Pruning(cutoff: int)

  datatype Table = Table(rows: map<string, Row>, clock: int, calls: map<nat, Phase>, minted: set<string>,
                         released: set<(string, string)>, grants: seq<Grant>)

  datatype Action =
    | Tick(nanos: nat)
    | Begin(call: nat, key: string, token: string, ttl: int)
    | Insert(call: nat, broken: bool)
    | ReadClock(call: nat)
    | Update(call: nat)
    | BeginPrune(call: nat)
    | Prune(call: nat)
    | Release(key: string, token: string)

  function PhaseOf(s: Table, call: nat): Phase {
    if call in s.calls then s.calls[call] else Idle
  }

  function Granted(s: Table, call: nat, key: string, token: string, expiration: int): Table {
    s.(rows := s.rows[key := Row(token, expiration)], calls := s.calls[call := Idle],
       grants := s.grants + [Grant(key, token, expiration, Millis(s.clock), s.released)])
  }

  /**
   One statement or one clock reading. The expiration is computed before the INSERT and the
   cut-off before the UPDATE or the DELETE, so both may be old when the statement runs.
   An action whose call stands elsewhere does nothing.
   */
  function Step(s: Table, a: Action): Table {
    match a
    case Tick(d) => s.(clock := s.clock + d)
    case Begin(c, k, t, ttl) =>
      if PhaseOf(s, c).Idle? && t !in s.minted
      then s.(calls := s.calls[c := Inserting(k, t, Millis(s.clock + ttl))], minted := s.minted + {t})
      else s
    case Insert(c, broken) => (
      match PhaseOf(s, c)
      case Inserting(k, t, e) =>
        if broken || k in s.rows then s.(calls := s.calls[c := Blocked(k, t, e)]) else Granted(s, c, k, t, e)
      case _ => s
    )
    case ReadClock(c) => (
      match PhaseOf(s, c)
      case Blocked(k, t, e) => s.(calls := s.calls[c := Updating(k, t, e, Millis(s.clock))])
      case _ => s
    )
    case Update(c) => (
      match PhaseOf(s, c)
      case Updating(k, t, e, cutoff) =>
        if k in s.rows && (s.rows[k].owner == t || s.rows[k].expiration <= cutoff)
        then Granted(s, c, k, t, e) else s.(calls := s.calls[c := Idle])
      case _ => s
    )
    case BeginPrune(c) =>
      if PhaseOf(s, c).Idle? then s.(calls := s.calls[c := Pruning(Millis(s.clock))]) else s
    case Prune(c) => (
      match PhaseOf(s, c)
      case Pruning(cutoff) =>
        s.(rows := map k | k in s.rows && cutoff < s.rows[k].expiration :: s.rows[k], calls := s.calls[c := Idle])
      case _ => s
    )
    case Release(k, t) =>
      s.(rows := if k in s.rows && s.rows[k].owner == t then s.rows - {k} else s.rows,
         released := GivenBack(s.released, s.grants, k, t))
  }

  function Exec(s: Table, actions: seq<Action>): Table {
    if actions == [] then s
    else Step(Exec(s, actions[..|actions| - 1]), actions[|actions| - 1])
  }

  const EMPTY: Table := Table(map[], 0, map[], {}, {}, [])

  predicate HasToken(p: Phase) {
    p.Inserting? || p.Blocked? || p.Updating?
  }

  /** A call under way has a token of its own and a cut-off that is not ahead of the clock. */
  ghost predicate CallsFine(s: Table) {
    && (forall c :: c in s.calls && HasToken(s.calls[c]) ==>
          s.calls[c].token in s.minted && forall g :: g in s.grants ==> g.token != s.calls[c].token)
    && (forall c :: c in s.calls && (s.calls[c].Updating? || s.calls[c].Pruning?) ==>
          s.calls[c].cutoff <= Millis(s.clock))
    && (forall c, d :: c in s.calls && d in s.calls && c != d && HasToken(s.calls[c]) && HasToken(s.calls[d]) ==>
          s.calls[c].token != s.calls[d].token)
  }

  ghost predicate GrantsFine(s: Table) {
    forall g :: g in s.grants ==>
      && g.token in s.minted
      && ((g.key, g.token) in s.released || g.expires <= Millis(s.clock)
          || (g.key in s.rows && s.rows[g.key] == Row(g.token, g.expires)))
  }

  ghost predicate Inv(s: Table) {
    CallsFine(s) && GrantsFine(s) && Exclusive(s.grants)
  }

  /** A statement that takes a free or expired row displaces no holder. */
  lemma GrantKeeps(s: Table, call: nat, key: string, token: string, expiration: int)
    requires Inv(s) && call in s.calls && HasToken(s.calls[call]) && s.calls[call].token == token
    requires key in s.rows ==> s.rows[key].expiration <= Millis(s.clock) || s.rows[key].owner == token
    ensures Inv(Granted(s, call, key, token, expiration))
  {
    var s' := Granted(s, call, key, token, expiration);
    var g := Grant(key, token, expiration, Millis(s.clock), s.released);
    assert s'.grants == s.grants + [g];
    forall h | h in s.grants && h.key == key
      ensures (h.key, h.token) in s.released || h.expires <= Millis(s.clock)
    {
      assert h.token != token;
    }
    forall i | 0 <= i < |s.grants| && s.grants[i].key == key
      ensures s.grants[i].expires <= g.at || (key, s.grants[i].token) in g.released
    {
      assert s.grants[i] in s.grants;
    }
  }

  lemma MillisMonotone(t: int, d: nat)
    ensures Millis(t) <= Millis(t + d)
  {
  }

  lemma InsertKeeps(s: Table, c: nat, broken: bool)
    requires Inv(s)
    ensures Inv(Step(s, Insert(c, broken)))
  {
    var p := PhaseOf(s, c);
    if p.Inserting? && !broken && p.key !in s.rows { GrantKeeps(s, c, p.key, p.token, p.expiration); }
  }

  lemma UpdateKeeps(s: Table, c: nat)
    requires Inv(s)
    ensures Inv(Step(s, Update(c)))
  {
    var p := PhaseOf(s, c);
    if p.Updating? && p.key in s.rows && (s.rows[p.key].owner == p.token || s.rows[p.key].expiration <= p.cutoff) {
      GrantKeeps(s, c, p.key, p.token, p.expiration);
    }
  }

  /** Deleting rows: those expired, or the one whose owner gives it back. */
  lemma DeletesKeep(s: Table, a: Action)
    requires Inv(s) && (a.Prune? || a.Release?)
    ensures Inv(Step(s, a))
  {
  }

  lemma ClockReadsKeep(s: Table, a: Action)
    requires Inv(s) && (a.Tick? || a.Begin? || a.ReadClock? || a.BeginPrune?)
    ensures Inv(Step(s, a))
  {
    if a.Tick? { MillisMonotone(s.clock, a.nanos); }
  }

  lemma StepKeeps(s: Table, a: Action)
    requires Inv(s)
    ensures Inv(Step(s, a))
  {
    match a {
      case Insert(c, broken) => InsertKeeps(s, c, broken);
      case Update(c) => UpdateKeeps(s, c);
      case Prune(_) => DeletesKeep(s, a);
      case Release(_, _) => DeletesKeep(s, a);
      case _ => ClockReadsKeep(s, a);
    }
  }

  /** Exclusion over every interleaving of the database store's statements. */
  lemma {:induction false} DatabaseExclusion(actions: seq<Action>)
    ensures Inv(Exec(EMPTY, actions))
    ensures Exclusive(Exec(EMPTY, actions).grants)
  {
    if actions != [] {
      DatabaseExclusion(actions[..|actions| - 1]);
      StepKeeps(Exec(EMPTY, actions[..|actions| - 1]), actions[|actions| - 1]);
    }
  }

  /**
   What a holder may count on: in every reachable state, a grant that its own token has not
   released and whose expiration is ahead of the clock is the row the store holds, however
   many expired holders have released late.
   */
  lemma HolderKeepsItsRow(actions: seq<Action>, g: Grant)
    requires g in Exec(EMPTY, actions).grants
    ensures var s := Exec(EMPTY, actions);
            (g.key, g.token) !in s.released && Millis(s.clock) < g.expires ==>
              g.key in s.rows && s.rows[g.key] == Row(g.token, g.expires)
  {
    DatabaseExclusion(actions);
  }

  // ------------------------------------------------------ too short to hold

  /** A table at this instant with nothing in it. */
  function At(t: int): Table {
    EMPTY.(clock := t)
  }

  /** A handle that took the free lock at t, by one INSERT. */
  function Taken(t: int, key: string, token: string, ttl: int): Table {
    Exec(At(t), [Begin(0, key, token, ttl)] + [Insert(0, false)])
  }

  /** Statements of anybody at one instant, none of which gives this lock back. */
  ghost predicate Meanwhile(actions: seq<Action>, key: string, token: string) {
    forall a :: a in actions ==> !a.Tick? && a != Release(key, token)
  }

  /** Somebody else is granted the lock before its clock has moved and without its being given back. */
  ghost predicate TakenTwice(t: int, key: string, token: string, ttl: int) {
    exists actions, g :: Meanwhile(actions, key, token)
      && g in Exec(Taken(t, key, token, ttl), actions).grants && g.key == key && g.token != token
  }

  lemma OneMoreStep(s: Table, actions: seq<Action>, a: Action)
    ensures Exec(s, actions + [a]) == Step(Exec(s, actions), a)
  {
    assert (actions + [a])[..|actions|] == actions;
  }

  lemma TakenIs(t: int, key: string, token: string, ttl: int)
    ensures var g := Grant(key, token, Millis(t + ttl), Millis(t), {});
            Taken(t, key, token, ttl)
            == Table(map[key := Row(token, g.expires)], t, map[0 := Idle], {token}, {}, [g])
    ensures Inv(Taken(t, key, token, ttl))
  {
    var first := Begin(0, key, token, ttl);
    assert [] + [first] == [first];
    OneMoreStep(At(t), [], first);
    OneMoreStep(At(t), [first], Insert(0, false));
    StepKeeps(At(t), first);
    StepKeeps(Exec(At(t), [first]), Insert(0, false));
  }

  /** While the clock stands, every new grant carries the instant, and the lock stays unreleased. */
  lemma {:induction false} Stands(s: Table, actions: seq<Action>, key: string, token: string)
    requires Inv(s) && Meanwhile(actions, key, token) && (key, token) !in s.released
    requires forall g :: g in s.grants ==> g.at == Millis(s.clock) && (key, token) !in g.released
    ensures var s' := Exec(s, actions);
            && Inv(s') && s'.clock == s.clock && (key, token) !in s'.released && s.grants <= s'.grants
            && forall g :: g in s'.grants ==> g.at == Millis(s.clock) && (key, token) !in g.released
  {
    if actions != [] {
      var init, last := actions[..|actions| - 1], actions[|actions| - 1];
      assert last in actions && forall a :: a in init ==> a in actions;
      Stands(s, init, key, token);
      StepKeeps(Exec(s, init), last);
      StepStands(Exec(s, init), last, key, token);
    }
  }

  lemma StepStands(s: Table, a: Action, key: string, token: string)
    requires !a.Tick? && a != Release(key, token) && (key, token) !in s.released
    requires forall g :: g in s.grants ==> g.at == Millis(s.clock) && (key, token) !in g.released
    ensures var s' := Step(s, a);
            && s'.clock == s.clock && (key, token) !in s'.released && s.grants <= s'.grants
            && forall g :: g in s'.grants ==> g.at == Millis(s.clock) && (key, token) !in g.released
  {
  }

  /** The second handle: its INSERT meets the row, it reads the clock, and its UPDATE finds the row expired. */
  lemma TakesOver(t: int, key: string, token: string, ttl: int, other: string)
    requires Millis(t + ttl) <= Millis(t) && other != token
    ensures TakenTwice(t, key, token, ttl)
  {
    TakenIs(t, key, token, ttl);
    var g := SecondGrant(Taken(t, key, token, ttl), key, other, ttl);
    OthersStatements(key, token, other, ttl);
    assert g in Exec(Taken(t, key, token, ttl), Second(key, other, ttl)).grants;
  }

  /** The statements of a second handle that finds a row. */
  function Second(key: string, token: string, ttl: int): seq<Action> {
    [] + [Begin(1, key, token, ttl)] + [Insert(1, false)] + [ReadClock(1)] + [Update(1)]
  }

  lemma OthersStatements(key: string, token: string, other: string, ttl: int)
    ensures Meanwhile(Second(key, other, ttl), key, token)
  {
  }

  lemma SecondGrant(s: Table, key: string, other: string, ttl: int) returns (g: Grant)
    requires 1 !in s.calls && other !in s.minted && key in s.rows && s.rows[key].expiration <= Millis(s.clock)
    ensures g in Exec(s, Second(key, other, ttl)).grants && g.key == key && g.token == other
  {
    g := Grant(key, other, Millis(s.clock + ttl), Millis(s.clock), s.released);
    FourSteps(s, Begin(1, key, other, ttl), Insert(1, false), ReadClock(1), Update(1));
    TakesOverFrom(s, key, other, ttl);
    LastIsIn(s.grants, g);
  }

  lemma LastIsIn(grants: seq<Grant>, g: Grant)
    ensures g in grants + [g]
  {
    assert (grants + [g])[|grants|] == g;
  }

  lemma FourSteps(s: Table, a: Action, b: Action, c: Action, d: Action)
    ensures Exec(s, [] + [a] + [b] + [c] + [d]) == Step(Step(Step(Step(s, a), b), c), d)
  {
    OneMoreStep(s, [], a);
    OneMoreStep(s, [] + [a], b);
    OneMoreStep(s, [] + [a] + [b], c);
    OneMoreStep(s, [] + [a] + [b] + [c], d);
  }

  lemma TakesOverFrom(s: Table, key: string, other: string, ttl: int)
    requires 1 !in s.calls && other !in s.minted && key in s.rows && s.rows[key].expiration <= Millis(s.clock)
    ensures Step(Step(Step(Step(s, Begin(1, key, other, ttl)), Insert(1, false)), ReadClock(1)), Update(1)).grants
         == s.grants + [Grant(key, other, Millis(s.clock + ttl), Millis(s.clock), s.released)]
  {
    Blocks(s, key, other, ttl);
    Overtakes(s.(calls := s.calls[1 := Blocked(key, other, Millis(s.clock + ttl))], minted := s.minted + {other}),
              key, other, Millis(s.clock + ttl));
  }

  lemma Blocks(s: Table, key: string, other: string, ttl: int)
    requires 1 !in s.calls && key in s.rows && other !in s.minted
    ensures Step(Step(s, Begin(1, key, other, ttl)), Insert(1, false))
         == s.(calls := s.calls[1 := Blocked(key, other, Millis(s.clock + ttl))], minted := s.minted + {other})
  {
    var once := s.calls[1 := Inserting(key, other, Millis(s.clock + ttl))];
    var twice := Blocked(key, other, Millis(s.clock + ttl));
    assert once[1 := twice] == s.calls[1 := twice];
  }

  lemma Overtakes(s: Table, key: string, other: string, e: int)
    requires 1 in s.calls && s.calls[1] == Blocked(key, other, e)
    requires key in s.rows && s.rows[key].expiration <= Millis(s.clock)
    ensures Step(Step(s, ReadClock(1)), Update(1)).grants
         == s.grants + [Grant(key, other, e, Millis(s.clock), s.released)]
  {
  }

  /**
   A lock can be granted twice at one instant, the first grant unreleased, exactly when its
   expiration is not ahead of that instant in whole milliseconds.
   */
  lemma TakenTwiceExactly(t: int, key: string, token: string, ttl: int)
    ensures TakenTwice(t, key, token, ttl) <==> Millis(t + ttl) <= Millis(t)
  {
    TakenIs(t, key, token, ttl);
    if Millis(t + ttl) <= Millis(t) {
      TakesOver(t, key, token, ttl, token + "'");
      assert |token + "'"| == |token| + 1;
    }
    if TakenTwice(t, key, token, ttl) {
      var actions, g :| Meanwhile(actions, key, token)
        && g in Exec(Taken(t, key, token, ttl), actions).grants && g.key == key && g.token != token;
      Stands(Taken(t, key, token, ttl), actions, key, token);
      var grants := Exec(Taken(t, key, token, ttl), actions).grants;
      var j :| 0 <= j < |grants| && grants[j] == g;
      assert grants[0] == Taken(t, key, token, ttl).grants[0];
    }
  }

  /** So a time to live keeps others out at every instant exactly when it is at least a millisecond. */
  lemma OneMillisecondIsTheFloor(key: string, token: string, ttl: int)
    ensures (forall t :: !TakenTwice(t, key, token, ttl)) <==> MILLISECOND <= ttl
  {
    if ttl < MILLISECOND {
      TakenTwiceExactly(0, key, token, ttl);
      assert Millis(0 + ttl) <= Millis(0);
    } else {
      forall t ensures !TakenTwice(t, key, token, ttl) {
        TakenTwiceExactly(t, key, token, ttl);
        MillisMove(t, ttl);
      }
    }
  }

  lemma MillisMove(t: int, ttl: int)
    requires MILLISECOND <= ttl
    ensures Millis(t) < Millis(t + ttl)
  {
    assert t + MILLISECOND <= t + ttl;
  }
}
