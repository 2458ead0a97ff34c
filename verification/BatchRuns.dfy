/**
 What the counters of a batch mean: over every run of pushes, additions, successes, failures and
 retries on the atomic repository, which jobs pending and failed count.
 */
module BatchRuns {
  import opened Batches
  import opened BatchMemory
  import opened Wrappers

  /**
   A batch, how many of the jobs it counts are still to be pushed, and the jobs pushed, succeeded
   and failed at least once.
   */
  datatype Run = Run(batch: Batch, unpushed: nat, pushed: set<string>, succeeded: set<string>, everFailed: set<string>)

  datatype Move =
    | PushJob(job: string)
    | AddRoom(amount: nat)
    | Succeed(job: string)
    | Fail(job: string)
    | FinishAt(at: int)
    | StopAt(at: int)

  /**
   A pushed job has an id no other job has. A job succeeds at most once, and does not fail after it
   succeeded; it may fail any number of times before.
   */
  function Moved(s: Run, m: Move): Run {
    match m
    case PushJob(j) =>
      if s.unpushed == 0 || j == "" || j in s.pushed then s
      else s.(unpushed := s.unpushed - 1, pushed := s.pushed + {j})
    case AddRoom(n) => s.(batch := AddJobs(s.batch, n), unpushed := s.unpushed + n)
    case Succeed(j) =>
      if j !in s.pushed || j in s.succeeded then s
      else s.(batch := Apply(s.batch, Success(j)), succeeded := s.succeeded + {j})
    case Fail(j) =>
      if j !in s.pushed || j in s.succeeded then s
      else s.(batch := Apply(s.batch, Failure(j)), everFailed := s.everFailed + {j})
    case FinishAt(at) => s.(batch := MarkFinished(s.batch, at))
    case StopAt(at) => s.(batch := Cancelled(s.batch, at))
  }

  function After(s: Run, moves: seq<Move>): Run {
    if moves == [] then s else Moved(After(s, moves[..|moves| - 1]), moves[|moves| - 1])
  }

  /** A batch as Store writes it, with none of its jobs pushed. */
  function Dispatched(b: Batch): Run
    requires 0 <= b.pending
  {
    Run(b, b.pending, {}, {}, {})
  }

  function Members(ids: seq<string>): set<string> {
    set y | y in ids
  }

  lemma {:induction false} MembersCount(ids: seq<string>)
    requires Ascending(ids)
    ensures |Members(ids)| == |ids|
  {
    if ids != [] {
      var init, last := ids[..|ids| - 1], ids[|ids| - 1];
      MembersCount(init);
      forall i | 0 <= i < |init| ensures init[i] != last { BeforeIsStrict(init[i], last); }
      assert last !in init;
      assert Members(ids) == Members(init) + {last};
    }
  }

  /** Jobs that have not reported at all. */
  function Silent(s: Run): set<string> {
    s.pushed - s.succeeded - s.everFailed
  }

  ghost predicate Conserved(s: Run) {
    && Tidy(s.batch) && "" !in s.pushed
    && s.succeeded <= s.pushed && s.everFailed <= s.pushed
    && s.batch.pending == s.unpushed + |s.pushed - s.succeeded|
    && Members(s.batch.failedIds) == s.everFailed - s.succeeded
  }

  lemma SucceedKeeps(s: Run, j: string)
    requires Conserved(s) && j in s.pushed && j !in s.succeeded
    ensures Conserved(Moved(s, Succeed(j)))
  {
    ApplyMoves(s.batch, Success(j));
    WithoutFailureRemoves(s.batch.failedIds, j);
    assert Members(WithoutFailure(s.batch.failedIds, j)) == Members(s.batch.failedIds) - {j};
    assert s.pushed - s.succeeded == (s.pushed - (s.succeeded + {j})) + {j};
  }

  lemma FailKeeps(s: Run, j: string)
    requires Conserved(s) && j in s.pushed && j !in s.succeeded
    ensures Conserved(Moved(s, Fail(j)))
  {
    ApplyMoves(s.batch, Failure(j));
    WithFailureAdds(s.batch.failedIds, j);
    assert Members(WithFailure(s.batch.failedIds, j)) == Members(s.batch.failedIds) + {j};
  }

  lemma MoveKeeps(s: Run, m: Move)
    requires Conserved(s)
    ensures Conserved(Moved(s, m))
  {
    match m {
      case PushJob(j) =>
        if j !in s.pushed { assert (s.pushed + {j}) - s.succeeded == (s.pushed - s.succeeded) + {j}; }
      case Succeed(j) => if j in s.pushed && j !in s.succeeded { SucceedKeeps(s, j); }
      case Fail(j) =>
        if j in s.pushed && j !in s.succeeded { FailKeeps(s, j); }
      case _ =>
    }
  }

  /** The failed jobs among the pushed that have not succeeded, and the silent ones, are the rest. */
  lemma SilentRest(s: Run)
    requires Conserved(s)
    ensures s.batch.failed == |s.everFailed - s.succeeded|
    ensures s.batch.pending - s.batch.failed == s.unpushed + |Silent(s)|
  {
    MembersCount(s.batch.failedIds);
    assert s.pushed - s.succeeded == Silent(s) + (s.everFailed - s.succeeded);
  }

  /**
   Conservation over every run: pending counts the jobs not yet pushed and the pushed ones that have
   not succeeded; the failed list is the jobs that failed and have not succeeded since, each once;
   and pending less failed counts the jobs that never reported, jobs added on the way included.
   */
  lemma {:induction false} CountersConserved(b: Batch, moves: seq<Move>)
    requires 0 <= b.pending && b.failed == 0 && b.failedIds == []
    ensures var s := After(Dispatched(b), moves);
            && Conserved(s)
            && s.batch.pending == s.unpushed + |s.pushed - s.succeeded|
            && Members(s.batch.failedIds) == s.everFailed - s.succeeded
            && s.batch.failed == |s.everFailed - s.succeeded|
            && s.batch.pending - s.batch.failed == s.unpushed + |Silent(s)|
  {
    if moves != [] {
      CountersConserved(b, moves[..|moves| - 1]);
      MoveKeeps(After(Dispatched(b), moves[..|moves| - 1]), moves[|moves| - 1]);
    }
    SilentRest(After(Dispatched(b), moves));
  }

  /** When the two callbacks of a whole batch are due: all succeeded, and all reported. */
  lemma ZeroMeansDone(s: Run)
    requires Conserved(s)
    ensures s.batch.pending == 0 <==> s.unpushed == 0 && s.pushed == s.succeeded
    ensures AllReported(CountsOf(s.batch)) <==> s.unpushed == 0 && s.pushed == s.succeeded + s.everFailed
  {
    SilentRest(s);
    assert |s.pushed - s.succeeded| == 0 <==> s.pushed - s.succeeded == {};
    assert |Silent(s)| == 0 <==> Silent(s) == {};
  }

  // -------------------------------------------------------------- the totals

  lemma TotalNext(s: Run, m: Move)
    ensures var t := Moved(s, m);
            t.batch.total - t.unpushed - |t.pushed| == s.batch.total - s.unpushed - |s.pushed|
  {
    if m.PushJob? { assert s.pushed + {m.job} == s.pushed + ({m.job} - s.pushed); }
  }

  /**
   Over every run of a batch just stored, its total is the jobs pushed and those still to be pushed,
   and the total less what is pending, which is what ProcessedJobs answers, is the jobs that succeeded.
   */
  lemma {:induction false} ProcessedAreSucceeded(id: string, tenant: string, jobs: nat, o: Options, moves: seq<Move>)
    ensures var s := After(Dispatched(NewBatch(id, tenant, jobs, o)), moves);
            && s.batch.total == s.unpushed + |s.pushed|
            && s.batch.total - s.batch.pending == |s.succeeded| && s.succeeded <= s.pushed
  {
    var b := NewBatch(id, tenant, jobs, o);
    if moves != [] {
      ProcessedAreSucceeded(id, tenant, jobs, o, moves[..|moves| - 1]);
      TotalNext(After(Dispatched(b), moves[..|moves| - 1]), moves[|moves| - 1]);
    }
    CountersConserved(b, moves);
    var s := After(Dispatched(b), moves);
    assert s.pushed == s.succeeded + (s.pushed - s.succeeded);
  }

  // -------------------------------------------------------------- the stamps

  /** The i-th move is the first that stops the batch. */
  predicate FirstStop(moves: seq<Move>, i: nat) {
    i < |moves| && moves[i].StopAt? && forall j :: 0 <= j < i ==> !moves[j].StopAt?
  }

  /** The i-th move closes the batch, and no job is added after it. */
  predicate Closes(moves: seq<Move>, i: nat) {
    && i < |moves| && (moves[i].FinishAt? || FirstStop(moves, i))
    && forall j :: i < j < |moves| && moves[j].AddRoom? ==> moves[j].amount == 0
  }

  /** Of the moves that close it, the one whose time is kept: the stop if it is one of them, and else the first. */
  ghost predicate Decides(moves: seq<Move>, i: nat) {
    i < |moves| && (moves[i].StopAt? || forall j: nat :: Closes(moves, j) ==> i <= j && !moves[j].StopAt?)
  }

  /** Cancelled when it was first stopped, for good; finished as long as it was closed and not added to since. */
  ghost predicate Stamps(b: Batch, moves: seq<Move>) {
    && (b.cancelledAt.Some? <==> exists i: nat :: FirstStop(moves, i))
    && (forall i: nat :: FirstStop(moves, i) ==> b.cancelledAt == Some(moves[i].at))
    && (b.finishedAt.Some? <==> exists i: nat :: Closes(moves, i))
    && (forall i: nat :: Closes(moves, i) && Decides(moves, i) ==> b.finishedAt == Some(moves[i].at))
  }

  lemma StopNext(moves: seq<Move>, m: Move, i: nat)
    ensures FirstStop(moves + [m], i)
       <==> FirstStop(moves, i) || (i == |moves| && m.StopAt? && forall j: nat :: !FirstStop(moves, j))
  {
    if i == |moves| && m.StopAt? { SomeStop(moves); }
    assert i < |moves| ==> (moves + [m])[i] == moves[i];
    assert forall j :: 0 <= j < i && j < |moves| ==> (moves + [m])[j] == moves[j];
  }

  lemma {:induction false} SomeStop(moves: seq<Move>)
    ensures (exists i: nat :: FirstStop(moves, i)) <==> exists i :: 0 <= i < |moves| && moves[i].StopAt?
  {
    if moves != [] && exists i :: 0 <= i < |moves| && moves[i].StopAt? {
      var init := moves[..|moves| - 1];
      SomeStop(init);
      if i :| 0 <= i < |init| && init[i].StopAt? {
        var k :| FirstStop(init, k);
        assert FirstStop(moves, k);
      } else {
        assert FirstStop(moves, |init|);
      }
    }
  }

  lemma ClosesNext(moves: seq<Move>, m: Move, i: nat)
    ensures Closes(moves + [m], i)
       <==> || (Closes(moves, i) && !(m.AddRoom? && 0 < m.amount))
            || (i == |moves| && (m.FinishAt? || (m.StopAt? && forall j: nat :: !FirstStop(moves, j))))
  {
    StopNext(moves, m, i);
    var all := moves + [m];
    assert all[|moves|] == m && forall j :: 0 <= j < |moves| ==> all[j] == moves[j];
  }

  lemma CancelNext(s: Run, moves: seq<Move>, m: Move)
    requires Stamps(s.batch, moves)
    ensures var b, all := Moved(s, m).batch, moves + [m];
            && (b.cancelledAt.Some? <==> exists i: nat :: FirstStop(all, i))
            && (forall i: nat :: FirstStop(all, i) ==> b.cancelledAt == Some(all[i].at))
  {
    var b, all := Moved(s, m).batch, moves + [m];
    if s.batch.cancelledAt.Some? {
      var k: nat :| FirstStop(moves, k);
      StopNext(moves, m, k);
    } else {
      StopNext(moves, m, |moves|);
    }
    forall i: nat | FirstStop(all, i) ensures b.cancelledAt == Some(all[i].at) {
      StopNext(moves, m, i);
      assert i < |moves| ==> all[i] == moves[i];
    }
  }

  lemma FinishTimeNext(s: Run, moves: seq<Move>, m: Move, i: nat)
    requires Stamps(s.batch, moves) && Closes(moves + [m], i) && Decides(moves + [m], i)
    ensures Moved(s, m).batch.finishedAt == Some((moves + [m])[i].at)
  {
    var all := moves + [m];
    ClosesNext(moves, m, i);
    ClosesNext(moves, m, |moves|);
    if i < |moves| {
      assert all[i] == moves[i];
      if !moves[i].StopAt? {
        forall j: nat | Closes(moves, j) ensures i <= j && !moves[j].StopAt? {
          ClosesNext(moves, m, j);
          assert Closes(all, j) && all[j] == moves[j];
        }
      }
    } else if m.FinishAt? && s.batch.finishedAt.Some? {
      var k: nat :| Closes(moves, k);
      ClosesNext(moves, m, k);
    }
  }

  lemma FinishNext(s: Run, moves: seq<Move>, m: Move)
    requires Stamps(s.batch, moves)
    ensures Moved(s, m).batch.finishedAt.Some? <==> exists i: nat :: Closes(moves + [m], i)
    ensures forall i: nat :: Closes(moves + [m], i) && Decides(moves + [m], i) ==>
              Moved(s, m).batch.finishedAt == Some((moves + [m])[i].at)
  {
    if s.batch.finishedAt.Some? {
      var k: nat :| Closes(moves, k);
      ClosesNext(moves, m, k);
    }
    ClosesNext(moves, m, |moves|);
    forall i: nat | Closes(moves + [m], i) ensures Moved(s, m).batch.finishedAt.Some? { ClosesNext(moves, m, i); }
    forall i: nat | Closes(moves + [m], i) && Decides(moves + [m], i)
      ensures Moved(s, m).batch.finishedAt == Some((moves + [m])[i].at)
    {
      FinishTimeNext(s, moves, m, i);
    }
  }

  lemma StampsNext(s: Run, moves: seq<Move>, m: Move)
    requires Stamps(s.batch, moves)
    ensures Stamps(Moved(s, m).batch, moves + [m])
  {
    CancelNext(s, moves, m);
    FinishNext(s, moves, m);
  }

  lemma Unstamped(b: Batch)
    requires b.cancelledAt.None? && b.finishedAt.None?
    ensures Stamps(b, [])
  {
  }

  lemma {:induction false} StampsAlways(s: Run, moves: seq<Move>)
    requires s.batch.cancelledAt.None? && s.batch.finishedAt.None?
    ensures Stamps(After(s, moves).batch, moves)
  {
    if moves == [] {
      Unstamped(s.batch);
    } else {
      var init, last := moves[..|moves| - 1], moves[|moves| - 1];
      assert moves == init + [last];
      StampsAlways(s, init);
      StampsNext(After(s, init), init, last);
    }
  }

  /**
   Over every run of a batch just stored: it is cancelled exactly if it was ever stopped, at the
   first stop's time, and it is finished exactly if it was finished, or stopped for the first
   time, with no job added since, at the stop's time or else the first finish's.
   */
  lemma StampsOfARun(id: string, tenant: string, jobs: nat, o: Options, moves: seq<Move>)
    ensures Stamps(After(Dispatched(NewBatch(id, tenant, jobs, o)), moves).batch, moves)
  {
    StampsAlways(Dispatched(NewBatch(id, tenant, jobs, o)), moves);
  }
}
