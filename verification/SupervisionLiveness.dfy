/** The supervisor's loop always ends: on every infinite trace in which the clock is unbounded and neither the
    supervisor, a claimed worker nor the pool is held up for ever, pending empties and the loop stops. */
module SupervisionLiveness {
  import opened Supervision

  type Trace = nat -> State

  ghost predicate Step(tr: Trace, n: nat) {
    tr(n) == tr(n + 1) || Next(tr(n), tr(n + 1))
  }

  ghost predicate IsTrace(tr: Trace) {
    Init(tr(0)) && forall n: nat :: Step(tr, n)
  }

  ghost predicate Polls(tr: Trace, n: nat) {
    SupervisorNext(tr(n), tr(n + 1))
  }

  ghost predicate ClockAt(tr: Trace, n: nat, time: int) {
    tr(n).now >= time
  }

  ghost predicate StillClaimed(tr: Trace, n: nat, j: Job) {
    j < |tr(n).jobs| && tr(n).jobs[j].phase.Claimed?
  }

  ghost predicate SlotTaken(tr: Trace, n: nat) {
    !SlotFree(tr(n)) || exists j :: WorkerNext(tr(n), tr(n + 1), Claim(j))
  }

  ghost predicate ClockReaches(tr: Trace, time: int) {
    exists n: nat :: ClockAt(tr, n, time)
  }

  ghost predicate PollsAgain(tr: Trace, n: nat) {
    exists m: nat :: m >= n && Polls(tr, m)
  }

  ghost predicate GetsStarted(tr: Trace, n: nat, j: Job) {
    exists m: nat :: m >= n && !StillClaimed(tr, m, j)
  }

  ghost predicate SlotGetsTaken(tr: Trace, n: nat) {
    exists m: nat :: m >= n && SlotTaken(tr, m)
  }

  /** Weak fairness, and a clock that does not stand still. Nothing is assumed of the connectors' own code. */
  ghost predicate Fair(tr: Trace) {
    && (forall time: int :: ClockReaches(tr, time))
    && (forall n: nat :: !tr(n).pc.Stopped? ==> PollsAgain(tr, n))
    && (forall n: nat, j: Job :: GetsStarted(tr, n, j))
    && (forall n: nat :: SlotGetsTaken(tr, n))
  }

  lemma {:induction false} TraceInv(tr: Trace, n: nat)
    requires IsTrace(tr)
    ensures Inv(tr(n)) && |tr(n).jobs| == |tr(0).jobs|
  {
    hide Inv, Init, Next;
    if n == 0 {
      InitInv(tr(0));
    } else {
      TraceInv(tr, n - 1);
      assert Step(tr, n - 1);
      if tr(n - 1) != tr(n) {
        NextInv(tr(n - 1), tr(n));
      }
    }
  }

  // ---------------------------------------------------------------- work left

  function PhaseRank(p: Phase): nat {
    match p
    case Queued => 4
    case Claimed => 3
    case Working(_) => 2
    case Completed(_, _, _) => 1
    case Done(_, _, _) => 0
    case Cancelled => 0
  }

  function PhaseSum(jobs: seq<JobState>): nat {
    if jobs == [] then 0 else PhaseSum(jobs[..|jobs| - 1]) + PhaseRank(jobs[|jobs| - 1].phase)
  }

  lemma {:induction false} PhaseSumPut(jobs: seq<JobState>, j: Job, js: JobState)
    requires j < |jobs|
    ensures PhaseSum(jobs[j := js]) + PhaseRank(jobs[j].phase) == PhaseSum(jobs) + PhaseRank(js.phase)
    decreases |jobs|
  {
    var n := |jobs| - 1;
    if j == n {
      assert jobs[j := js][..n] == jobs[..n];
    } else {
      PhaseSumPut(jobs[..n], j, js);
      assert jobs[j := js][..n] == jobs[..n][j := js];
    }
  }

  ghost function WorkLeft(s: State): nat {
    PhaseSum(s.jobs) + |s.desk.pending|
  }

  ghost predicate SamePhases(s: State, t: State) {
    && |s.jobs| == |t.jobs|
    && s.workers == t.workers
    && s.desk == t.desk
    && forall j :: 0 <= j < |s.jobs| ==> s.jobs[j].phase == t.jobs[j].phase && s.jobs[j].isolated == t.jobs[j].isolated
  }

  lemma WorkerWork(s: State, t: State, step: WorkerStep)
    requires WorkerNext(s, t, step)
    ensures WorkLeft(t) <= WorkLeft(s)
    ensures WorkLeft(t) == WorkLeft(s) ==> SamePhases(s, t)
    ensures t.pc == s.pc && t.now >= s.now && |t.jobs| == |s.jobs| && t.workers == s.workers
  {
    if !step.Tick? {
      PhaseSumPut(s.jobs, step.job, t.jobs[step.job]);
    }
  }

  ghost predicate SamePhase(js: JobState, kt: JobState) {
    js.phase == kt.phase && js.isolated == kt.isolated
  }

  lemma JobsWork(s: State, t: State)
    requires PcWellFormed(s) && SupervisorNext(s, t)
    ensures PhaseSum(t.jobs) <= PhaseSum(s.jobs) && |t.jobs| == |s.jobs|
    ensures PhaseSum(t.jobs) == PhaseSum(s.jobs) ==>
              forall j :: 0 <= j < |s.jobs| ==> SamePhase(s.jobs[j], t.jobs[j])
  {
    hide FinishedPending, Running, Overdue, FinishedLate, AllJobs, Settle, Expire, AbandonQueued;
    match s.pc
    case Resolving(_, left, _) =>
      if left != {} { var j :| ResolveOne(s, t, j); }
    case ExpiringAll(left) =>
      if left != {} { var j: Job :| FlagOne(s, t, j); PhaseSumPut(s.jobs, j, t.jobs[j]); }
    case AbandoningAll(left) =>
      if left != {} {
        var j: Job :| CancelOne(s, t, j);
        if s.jobs[j].phase.Queued? { PhaseSumPut(s.jobs, j, t.jobs[j]); }
      }
    case AbandoningOne(j, _) =>
      PhaseSumPut(s.jobs, j, t.jobs[j]);
    case _ =>
  }

  lemma DeskWork(s: State, t: State)
    requires PcWellFormed(s) && SupervisorNext(s, t)
    ensures t.desk.pending <= s.desk.pending
    ensures t.desk.pending == s.desk.pending ==> t.desk == s.desk
  {
    hide Running, Overdue, FinishedLate, AllJobs;
    match s.pc
    case Resolving(_, left, _) =>
      if left != {} { var j :| ResolveOne(s, t, j); }
    case _ =>
  }

  lemma SupervisorWork(s: State, t: State)
    requires Inv(s) && SupervisorNext(s, t)
    ensures WorkLeft(t) <= WorkLeft(s)
    ensures WorkLeft(t) == WorkLeft(s) ==> SamePhases(s, t)
    ensures t.now == s.now && |t.jobs| == |s.jobs| && t.workers == s.workers
  {
    SupervisorFrame(s, t);
    JobsWork(s, t);
    DeskWork(s, t);
    SubsetSize(t.desk.pending, s.desk.pending);
    hide SupervisorNext, Inv, PhaseSum;
    if PhaseSum(t.jobs) == PhaseSum(s.jobs) {
      forall j | 0 <= j < |s.jobs|
        ensures s.jobs[j].phase == t.jobs[j].phase && s.jobs[j].isolated == t.jobs[j].isolated
      {
        assert SamePhase(s.jobs[j], t.jobs[j]);
      }
    }
  }

  lemma EitherStep(s: State, t: State)
    requires Inv(s) && (s == t || Next(s, t))
    ensures WorkLeft(t) <= WorkLeft(s)
    ensures WorkLeft(t) == WorkLeft(s) ==> SamePhases(s, t)
    ensures s.now <= t.now
    ensures !SupervisorNext(s, t) ==> t.pc == s.pc
  {
    if SupervisorNext(s, t) {
      SupervisorWork(s, t);
    } else if step :| WorkerNext(s, t, step) {
      WorkerWork(s, t, step);
    }
  }

  lemma StepWork(tr: Trace, n: nat)
    requires IsTrace(tr)
    ensures WorkLeft(tr(n + 1)) <= WorkLeft(tr(n))
    ensures WorkLeft(tr(n + 1)) == WorkLeft(tr(n)) ==> SamePhases(tr(n), tr(n + 1))
    ensures tr(n).now <= tr(n + 1).now
    ensures !Polls(tr, n) ==> tr(n + 1).pc == tr(n).pc
  {
    TraceInv(tr, n);
    assert Step(tr, n);
    EitherStep(tr(n), tr(n + 1));
  }

  lemma {:induction false} WorkMonotone(tr: Trace, n: nat, m: nat)
    requires IsTrace(tr) && n <= m
    ensures WorkLeft(tr(m)) <= WorkLeft(tr(n)) && tr(n).now <= tr(m).now
  {
    hide Init, Next, WorkLeft;
    if n < m {
      WorkMonotone(tr, n, m - 1);
      StepWork(tr, m - 1);
    }
  }

  // While no work gets done, the jobs and the books stand still.
  lemma {:induction false} Still(tr: Trace, n: nat, m: nat)
    requires IsTrace(tr) && n <= m && WorkLeft(tr(m)) == WorkLeft(tr(n))
    ensures SamePhases(tr(n), tr(m)) && tr(n).now <= tr(m).now
  {
    hide Init, Next, WorkLeft;
    if n < m {
      StepWork(tr, m - 1);
      WorkMonotone(tr, n, m - 1);
      Still(tr, n, m - 1);
    }
  }

  // ---------------------------------------------------------------- one poll is finite

  ghost function PollRank(s: State): nat {
    var k := 2 * |s.jobs| + 2;
    match s.pc
    case Top => 0
    case Waiting(_) => 6 * k
    case Resolving(_, left, _) => 5 * k + |left|
    case Inspecting(left, _) => 4 * k + |left|
    case ExpiringAll(left) => 3 * k + 2 * |left|
    case ExpiringOne(_, left) => 3 * k + 2 * |left| + 1
    case Scanning(left, _) => 2 * k + |left|
    case AbandoningAll(left) => k + 2 * |left|
    case AbandoningOne(_, left) => k + 2 * |left| + 1
    case Stopped => 0
  }

  lemma {:induction false} JobCount(s: State, n: nat, part: set<Job>)
    requires n <= |s.jobs| && forall j :: j in part ==> j < n
    ensures |part| <= n
  {
    if n > 0 {
      JobCount(s, n - 1, part - {n - 1});
    }
  }

  // Every list the loop still walks is a list of jobs.
  lemma ListsAreShort(s: State)
    requires Inv(s)
    ensures |AllJobs(s)| <= |s.jobs| && |s.desk.pending| <= |s.jobs|
    ensures !s.pc.Top? && !s.pc.Waiting? && !s.pc.Stopped? ==> |s.pc.left| <= |s.jobs|
    ensures s.pc.Resolving? || s.pc.Inspecting? ==> |s.pc.expired| <= |s.jobs|
  {
    var n := |s.jobs|;
    JobCount(s, n, AllJobs(s));
    JobCount(s, n, s.desk.pending);
    if s.pc.Resolving? || s.pc.Inspecting? {
      JobCount(s, n, s.pc.expired);
      JobCount(s, n, s.pc.left);
    } else if !s.pc.Top? && !s.pc.Waiting? && !s.pc.Stopped? {
      JobCount(s, n, s.pc.left);
    }
  }

  lemma TurnRank(s: State, t: State)
    requires SupervisorNext(s, t) && !s.pc.Top? && !s.pc.Stopped?
    requires s.pc.Waiting? || s.pc.ExpiringOne? || s.pc.AbandoningOne? || s.pc.left == {}
    requires |t.jobs| == |s.jobs|
    requires |AllJobs(s)| <= |s.jobs| && |s.desk.pending| <= |s.jobs|
    requires !t.pc.Top? && !t.pc.Waiting? && !t.pc.Stopped? ==> |t.pc.left| <= |s.jobs|
    ensures PollRank(t) < PollRank(s)
  {
  }

  lemma PollRankDecreases(s: State, t: State)
    requires Inv(s) && Inv(t) && SupervisorNext(s, t) && !s.pc.Top? && !s.pc.Stopped?
    ensures PollRank(t) < PollRank(s)
  {
    SupervisorWork(s, t);
    ListsAreShort(s);
    ListsAreShort(t);
    if s.pc.Waiting? || s.pc.ExpiringOne? || s.pc.AbandoningOne? || s.pc.left == {} {
      hide Inv, SupervisorNext;
      TurnRank(s, t);
    } else {
      PickRank(s, t);
    }
  }

  lemma ResolveOneRank(s: State, t: State, j: Job)
    requires s.pc.Resolving? && ResolveOne(s, t, j) && |t.jobs| == |s.jobs|
    ensures PollRank(t) < PollRank(s)
  {
    Less(s.pc.left, j);
  }

  lemma InspectOneRank(s: State, t: State, j: Job)
    requires s.pc.Inspecting? && InspectOne(s, t, j) && |t.jobs| == |s.jobs|
    ensures PollRank(t) < PollRank(s)
  {
    Less(s.pc.left, j);
  }

  lemma FlagOneRank(s: State, t: State, j: Job)
    requires s.pc.ExpiringAll? && FlagOne(s, t, j) && |t.jobs| == |s.jobs|
    ensures PollRank(t) < PollRank(s)
  {
    Less(s.pc.left, j);
  }

  lemma ScanOneRank(s: State, t: State, j: Job)
    requires s.pc.Scanning? && ScanOne(s, t, j) && |t.jobs| == |s.jobs|
    ensures PollRank(t) < PollRank(s)
  {
    Less(s.pc.left, j);
  }

  lemma CancelOneRank(s: State, t: State, j: Job)
    requires s.pc.AbandoningAll? && CancelOne(s, t, j) && |t.jobs| == |s.jobs|
    ensures PollRank(t) < PollRank(s)
  {
    Less(s.pc.left, j);
  }

  lemma PickRank(s: State, t: State)
    requires SupervisorNext(s, t) && |t.jobs| == |s.jobs|
    requires s.pc.Resolving? || s.pc.Inspecting? || s.pc.ExpiringAll? || s.pc.Scanning? || s.pc.AbandoningAll?
    requires s.pc.left != {}
    ensures PollRank(t) < PollRank(s)
  {
    hide PollRank;
    match s.pc {
      case Resolving(_, _, _) => var j :| ResolveOne(s, t, j); ResolveOneRank(s, t, j);
      case Inspecting(_, _) => var j :| InspectOne(s, t, j); InspectOneRank(s, t, j);
      case ExpiringAll(_) => var j :| FlagOne(s, t, j); FlagOneRank(s, t, j);
      case Scanning(_, _) => var j :| ScanOne(s, t, j); ScanOneRank(s, t, j);
      case AbandoningAll(_) => var j :| CancelOne(s, t, j); CancelOneRank(s, t, j);
    }
  }

  lemma Less(left: set<Job>, j: Job)
    requires j in left
    ensures |left - {j}| == |left| - 1
  {
  }

  // The next poll step at or after n; the loop stands where it stood at n.
  lemma NextPoll(tr: Trace, n: nat) returns (m: nat)
    requires IsTrace(tr) && Fair(tr) && !tr(n).pc.Stopped?
    ensures m >= n && Polls(tr, m) && tr(m).pc == tr(n).pc
  {
    hide Inv, Init, SupervisorNext, Next;
    assert PollsAgain(tr, n);
    var far: nat :| far >= n && Polls(tr, far);
    m := n;
    while !Polls(tr, m)
      invariant n <= m <= far && tr(m).pc == tr(n).pc
      decreases far - m
    {
      StepWork(tr, m);
      m := m + 1;
    }
  }

  lemma {:induction false} ReachTop(tr: Trace, n: nat) returns (m: nat)
    requires IsTrace(tr) && Fair(tr)
    ensures m >= n && (tr(m).pc.Top? || tr(m).pc.Stopped?)
    decreases PollRank(tr(n))
  {
    hide Inv, Init, SupervisorNext, Next, Fair;
    if tr(n).pc.Top? || tr(n).pc.Stopped? {
      m := n;
    } else {
      var p := NextPoll(tr, n);
      TraceInv(tr, n);
      TraceInv(tr, p);
      TraceInv(tr, p + 1);
      PollRankDecreases(tr(p), tr(p + 1));
      assert PollRank(tr(p)) == PollRank(tr(n));
      m := ReachTop(tr, p + 1);
    }
  }

  // ---------------------------------------------------------------- what a poll cannot leave pending

  /** The current poll will take j off the pending set. */
  ghost predicate Caught(s: State, j: Job) {
    && j in s.desk.pending && j < |s.jobs| && HasDeadline(s.jobs[j])
    && var late := Overdue(s.jobs[j], s.now);
    match s.pc
    case Waiting(base) => j in base || late
    case Resolving(done, left, expired) => j in left || j in expired || (j !in done && late)
    case Inspecting(left, expired) => j in expired || (j in left && late)
    case ExpiringAll(left) => j in left
    case ExpiringOne(k, left) => j == k || j in left
    case _ => false
  }

  /** The current poll will give up the queue: every slot is held by a call that has timed out. */
  ghost predicate QueueLost(s: State) {
    && s.desk.pending != {}
    && (forall j :: j in s.desk.pending ==> j < |s.jobs| && s.jobs[j].phase.Queued?)
    && OverdueWorkersFill(s)
    && QueueLostPc(s)
  }

  lemma SameOccupied(s: State, t: State)
    requires SamePhases(s, t)
    ensures Occupied(t) == Occupied(s)
  {
  }

  lemma CaughtStays(s: State, t: State, j: Job)
    requires Inv(s) && SamePhases(s, t) && s.now <= t.now && Caught(s, j)
    requires t.pc == s.pc || SupervisorNext(s, t)
    ensures Caught(t, j)
  {
    if t.pc != s.pc {
      match s.pc
      case Waiting(base) =>
        assert j !in t.pc.done ==> j !in base;
      case Resolving(_, left, _) =>
        if left != {} { var k :| ResolveOne(s, t, k); }
      case Inspecting(left, _) =>
        if left != {} { var k :| InspectOne(s, t, k); }
      case ExpiringAll(left) =>
        if left != {} { var k :| FlagOne(s, t, k); }
      case _ =>
    }
  }

  lemma CaughtIsMidPoll(s: State, j: Job)
    requires Caught(s, j)
    ensures !s.pc.Top? && !s.pc.Stopped?
  {
  }

  ghost predicate QueueLostPc(s: State) {
    match s.pc
    case Waiting(_) => true
    case Resolving(_, _, _) => true
    case Inspecting(_, _) => true
    case ExpiringAll(_) => true
    case ExpiringOne(_, _) => true
    case Scanning(left, running) => running <= Occupied(s) <= running + left
    case AbandoningAll(left) => left == s.desk.pending
    case _ => false
  }

  lemma QueueLostStays(s: State, t: State)
    requires SamePhases(s, t) && QueueLost(s)
    requires t.pc == s.pc || SupervisorNext(s, t)
    ensures QueueLost(t)
  {
    SameOccupied(s, t);
    QueueLostPcStays(s, t);
    hide SupervisorNext;
  }

  lemma QueueLostPcStays(s: State, t: State)
    requires SamePhases(s, t) && Occupied(t) == Occupied(s)
    requires s.desk.pending != {} && OverdueWorkersFill(s) && QueueLostPc(s)
    requires forall j :: j in s.desk.pending ==> j < |s.jobs| && s.jobs[j].phase.Queued?
    requires t.pc == s.pc || SupervisorNext(s, t)
    ensures QueueLostPc(t)
  {
    if t.pc != s.pc {
      match s.pc
      case Resolving(_, left, _) =>
        if left != {} { var k :| ResolveOne(s, t, k); }
      case Inspecting(left, _) =>
        if left != {} { var k :| InspectOne(s, t, k); }
      case ExpiringAll(left) =>
        if left != {} {
          var k :| FlagOne(s, t, k);
        } else {
          assert forall j :: j in Occupied(s) ==> IsJob(s, j);
          assert Occupied(s) <= AllJobs(s);
        }
      case Scanning(left, running) =>
        if left != {} {
          var k :| ScanOne(s, t, k);
        } else {
          assert running == Occupied(s);
        }
      case _ =>
    }
  }

  lemma CancelsTheQueue(s: State, t: State)
    requires QueueLost(s) && s.pc.AbandoningAll? && SupervisorNext(s, t)
    ensures !SamePhases(s, t)
  {
    var k: Job :| CancelOne(s, t, k);
    assert s.jobs[k].phase != t.jobs[k].phase;
  }

  /** A caught job leaves the pending set, or a worker gets something done first. */
  lemma {:induction false} CaughtFalls(tr: Trace, n: nat, j: Job) returns (m: nat)
    requires IsTrace(tr) && Fair(tr) && Caught(tr(n), j)
    ensures m > n && WorkLeft(tr(m)) < WorkLeft(tr(n))
    decreases PollRank(tr(n))
  {
    hide Inv, Init, SupervisorNext, Next, Fair, Caught, WorkLeft;
    CaughtIsMidPoll(tr(n), j);
    var p := NextPoll(tr, n);
    m := p + 1;
    WorkMonotone(tr, n, p);
    WorkMonotone(tr, p, m);
    if WorkLeft(tr(m)) == WorkLeft(tr(n)) {
      Still(tr, n, p);
      Still(tr, p, m);
      TraceInv(tr, n);
      TraceInv(tr, p);
      TraceInv(tr, m);
      CaughtStays(tr(n), tr(p), j);
      CaughtStays(tr(p), tr(m), j);
      PollRankDecreases(tr(p), tr(m));
      m := CaughtFalls(tr, m, j);
    }
  }

  /** A lost queue is cancelled, or a worker gets something done first. */
  lemma {:induction false} QueueFalls(tr: Trace, n: nat) returns (m: nat)
    requires IsTrace(tr) && Fair(tr) && QueueLost(tr(n))
    ensures m > n && WorkLeft(tr(m)) < WorkLeft(tr(n))
    decreases PollRank(tr(n))
  {
    hide Inv, Init, SupervisorNext, Next, Fair, WorkLeft, Occupied, OverdueWorkersFill;
    var p := NextPoll(tr, n);
    m := p + 1;
    WorkMonotone(tr, n, p);
    WorkMonotone(tr, p, m);
    if WorkLeft(tr(m)) == WorkLeft(tr(n)) {
      Still(tr, n, p);
      Still(tr, p, m);
      TraceInv(tr, n);
      TraceInv(tr, p);
      TraceInv(tr, m);
      QueueLostStays(tr(n), tr(p));
      if tr(p).pc.AbandoningAll? {
        CancelsTheQueue(tr(p), tr(m));
      }
      QueueLostStays(tr(p), tr(m));
      PollRankDecreases(tr(p), tr(m));
      m := QueueFalls(tr, m);
    }
  }

  // ---------------------------------------------------------------- the loop ends

  // With work pending, a poll starts at or after `from`, unless something gets done before it does.
  lemma StartPoll(tr: Trace, n: nat, from: nat) returns (m: nat)
    requires IsTrace(tr) && Fair(tr) && tr(n).desk.pending != {} && n <= from
    ensures m >= from
    ensures WorkLeft(tr(m)) == WorkLeft(tr(n)) ==>
              SamePhases(tr(n), tr(m)) && tr(m).pc == Waiting(FinishedPending(tr(m)))
    ensures WorkLeft(tr(m)) <= WorkLeft(tr(n))
  {
    hide Init, Next, Fair, Inv, FinishedPending, WorkLeft;
    var top := ReachTop(tr, from);
    m := top;
    WorkMonotone(tr, n, top);
    if WorkLeft(tr(top)) == WorkLeft(tr(n)) {
      Still(tr, n, top);
      TraceInv(tr, top);
      TopHasNotStopped(tr(top));
      var p := NextPoll(tr, top);
      m := p + 1;
      WorkMonotone(tr, top, p);
      WorkMonotone(tr, p, m);
      if WorkLeft(tr(m)) == WorkLeft(tr(n)) {
        Still(tr, n, p);
        Still(tr, p, m);
        Still(tr, n, m);
        SameFinished(tr(p), tr(m));
      }
    }
  }

  lemma TopHasNotStopped(s: State)
    requires Inv(s) && s.desk.pending != {}
    ensures !s.pc.Stopped?
  {
  }

  lemma SameFinished(s: State, t: State)
    requires SamePhases(s, t)
    ensures FinishedPending(s) == FinishedPending(t)
  {
  }

  lemma HeldJobFalls(tr: Trace, n: nat, j: Job) returns (m: nat)
    requires IsTrace(tr) && Fair(tr)
    requires j in tr(n).desk.pending && j < |tr(n).jobs| && HasDeadline(tr(n).jobs[j])
    ensures WorkLeft(tr(m)) < WorkLeft(tr(n))
  {
    hide Inv, Init, SupervisorNext, Next, WorkLeft;
    var deadline := SupervisionDeadline(tr(n).jobs[j]);
    assert ClockReaches(tr, deadline);
    var late: nat :| ClockAt(tr, late, deadline);
    var from := if late > n then late else n;
    WorkMonotone(tr, late, from);
    m := StartPoll(tr, n, from);
    if WorkLeft(tr(m)) == WorkLeft(tr(n)) {
      WorkMonotone(tr, from, m);
      assert Caught(tr(m), j);
      m := CaughtFalls(tr, m, j);
    }
  }

  lemma ClaimedJobFalls(tr: Trace, n: nat, j: Job) returns (m: nat)
    requires IsTrace(tr) && Fair(tr) && j < |tr(n).jobs| && tr(n).jobs[j].phase.Claimed?
    ensures WorkLeft(tr(m)) < WorkLeft(tr(n))
  {
    hide Inv, Init, SupervisorNext, Next, WorkLeft;
    assert GetsStarted(tr, n, j);
    m :| m >= n && !StillClaimed(tr, m, j);
    WorkMonotone(tr, n, m);
    if WorkLeft(tr(m)) == WorkLeft(tr(n)) {
      Still(tr, n, m);
      assert false;
    }
  }

  lemma FreeSlotFalls(tr: Trace, n: nat) returns (m: nat)
    requires IsTrace(tr) && Fair(tr) && SlotFree(tr(n))
    ensures WorkLeft(tr(m)) < WorkLeft(tr(n))
  {
    hide Inv, Init, SupervisorNext, Next, Occupied, WorkLeft;
    assert SlotGetsTaken(tr, n);
    var p: nat :| p >= n && SlotTaken(tr, p);
    m := p + 1;
    WorkMonotone(tr, n, p);
    WorkMonotone(tr, p, m);
    if WorkLeft(tr(m)) == WorkLeft(tr(n)) {
      Still(tr, n, p);
      Still(tr, p, m);
      SameOccupied(tr(n), tr(p));
      SameSlotFree(tr(n), tr(p));
      NotTaken(tr, p);
      assert false;
    }
  }

  lemma SameSlotFree(s: State, t: State)
    requires SamePhases(s, t) && SlotFree(s) && Occupied(t) == Occupied(s)
    ensures SlotFree(t)
  {
    var q :| 0 <= q < |s.jobs| && s.jobs[q].phase.Queued?;
    assert t.jobs[q].phase.Queued?;
  }

  lemma ClaimChangesPhase(s: State, t: State, j: Job)
    ensures SamePhases(s, t) ==> !WorkerNext(s, t, Claim(j))
  {
    if j < |s.jobs| == |t.jobs| && s.jobs[j].phase != t.jobs[j].phase {
      assert !SamePhases(s, t);
    }
  }

  lemma NotTaken(tr: Trace, p: nat)
    requires SamePhases(tr(p), tr(p + 1)) && SlotFree(tr(p))
    ensures !SlotTaken(tr, p)
  {
    forall j: Job ensures !WorkerNext(tr(p), tr(p + 1), Claim(j)) {
      ClaimChangesPhase(tr(p), tr(p + 1), j);
    }
  }

  // A pending job whose future is cancelled is in hand, and no job is in hand when a poll begins.
  lemma CancelledJobFalls(tr: Trace, n: nat, j: Job) returns (m: nat)
    requires IsTrace(tr) && Fair(tr)
    requires j in tr(n).desk.pending && j < |tr(n).jobs| && tr(n).jobs[j].phase.Cancelled?
    ensures WorkLeft(tr(m)) < WorkLeft(tr(n))
  {
    hide Init, SupervisorNext, Next, Fair, WorkLeft;
    m := StartPoll(tr, n, n);
    if WorkLeft(tr(m)) == WorkLeft(tr(n)) {
      TraceInv(tr, m);
      NoneInHand(tr(m), j);
      assert false;
    }
  }

  lemma NoneInHand(s: State, j: Job)
    requires Inv(s) && s.pc.Waiting? && j in s.desk.pending && j < |s.jobs|
    ensures !s.jobs[j].phase.Cancelled?
  {
    assert JobBooked(s, j);
  }

  /** As long as a job is pending, work gets done. */
  lemma PendingFalls(tr: Trace, n: nat) returns (m: nat)
    requires IsTrace(tr) && Fair(tr) && tr(n).desk.pending != {}
    ensures m > n && WorkLeft(tr(m)) < WorkLeft(tr(n))
  {
    hide Init, SupervisorNext, Next, Fair, Inv, OverdueWorkersFill, WorkLeft;
    var s := tr(n);
    TraceInv(tr, n);
    PendingJobsHaveAnExit(s);
    if j: Job :| j in s.desk.pending && j < |s.jobs| && !s.jobs[j].phase.Queued? {
      match s.jobs[j].phase
      case Claimed => m := ClaimedJobFalls(tr, n, j);
      case Cancelled => m := CancelledJobFalls(tr, n, j);
      case _ => m := HeldJobFalls(tr, n, j);
    } else if SlotFree(s) {
      m := FreeSlotFalls(tr, n);
    } else {
      m := StartPoll(tr, n, n);
      if WorkLeft(tr(m)) == WorkLeft(s) {
        SameOccupied(s, tr(m));
        SameFill(s, tr(m));
        PendingAreJobs(s);
        m := QueueFalls(tr, m);
      }
    }
    if m <= n {
      WorkMonotone(tr, m, n);
    }
  }

  lemma SameFill(s: State, t: State)
    requires SamePhases(s, t) && OverdueWorkersFill(s) && Occupied(s) == Occupied(t)
    ensures OverdueWorkersFill(t)
  {
  }

  lemma PendingAreJobs(s: State)
    requires Inv(s)
    ensures forall j | j in s.desk.pending :: j < |s.jobs|
  {
  }

  lemma {:induction false} PendingEmpties(tr: Trace, n: nat) returns (m: nat)
    requires IsTrace(tr) && Fair(tr)
    ensures m >= n && tr(m).desk.pending == {}
    decreases WorkLeft(tr(n))
  {
    m := n;
    if tr(n).desk.pending != {} {
      var k := PendingFalls(tr, n);
      m := PendingEmpties(tr, k);
    }
  }

  /** Supervision terminates on every fair trace, with every job accounted for. */
  lemma SupervisionEnds(tr: Trace) returns (n: nat)
    requires IsTrace(tr) && Fair(tr)
    ensures tr(n).pc.Stopped? && tr(n).desk.completed.Keys == AllJobs(tr(n))
  {
    hide Init, Next, Fair, Inv;
    var e := PendingEmpties(tr, 0);
    var top := ReachTop(tr, e);
    PendingStaysEmpty(tr, e, top);
    if tr(top).pc.Stopped? {
      n := top;
    } else {
      var p := NextPoll(tr, top);
      PendingStaysEmpty(tr, e, p);
      n := p + 1;
    }
    TraceInv(tr, n);
    PendingStaysEmpty(tr, e, n);
    AllBooked(tr(n));
  }

  lemma AllBooked(s: State)
    requires Inv(s) && s.desk.pending == {}
    ensures s.desk.completed.Keys == AllJobs(s)
  {
    forall j | j in AllJobs(s) ensures j in s.desk.completed {
      assert JobBooked(s, j);
    }
  }

  lemma {:induction false} PendingStaysEmpty(tr: Trace, n: nat, m: nat)
    requires IsTrace(tr) && n <= m && tr(n).desk.pending == {}
    ensures tr(m).desk.pending == {}
  {
    if n < m {
      PendingStaysEmpty(tr, n, m - 1);
      TraceInv(tr, m - 1);
      assert Step(tr, m - 1);
      PendingShrinks(tr(m - 1), tr(m));
    }
  }

  lemma PendingShrinks(s: State, t: State)
    requires Inv(s) && (s == t || Next(s, t))
    ensures t.desk.pending <= s.desk.pending
  {
    hide Inv, JobBooked, SupervisorNext;
    if SupervisorNext(s, t) {
      InvPc(s);
      DeskWork(s, t);
    }
  }

  lemma InvPc(s: State)
    requires Inv(s)
    ensures PcWellFormed(s)
  {
  }
}
