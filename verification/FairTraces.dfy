/** The fairness that termination is proved under can be met: one job runs, is settled, and the loop stops. */
module FairTraces {
  import opened Ledgers
  import opened Supervision
  import opened SupervisionLiveness
  import opened TimelyResults

  function Finished(r: JobResult): JobState {
    IDLE.(phase := Done(10, 0, r))
  }

  function Settled(r: JobResult): Desk {
    Settle(OPEN, 0, r)
  }

  // The states of the run, which only the clock changes once the loop has stopped.
  function At(r: JobResult, n: nat): State {
    if n == 0 then OneJob(IDLE, 0, Top, OPEN)
    else if n == 1 then OneJob(IDLE.(phase := Claimed), 0, Top, OPEN)
    else if n == 2 then OneJob(WORKING, 0, Top, OPEN)
    else if n == 3 then OneJob(IDLE.(phase := Completed(10, 0, r)), 0, Top, OPEN)
    else if n == 4 then OneJob(Finished(r), 0, Top, OPEN)
    else if n == 5 then OneJob(Finished(r), 0, Waiting({0}), OPEN)
    else if n == 6 then OneJob(Finished(r), 0, Resolving({0}, {0}, {}), OPEN)
    else if n == 7 then OneJob(Finished(r), 0, Resolving({0}, {}, {}), Settled(r))
    else if n == 8 then OneJob(Finished(r), 0, Inspecting({}, {}), Settled(r))
    else if n == 9 then OneJob(Finished(r), 0, ExpiringAll({}), Settled(r))
    else if n == 10 then OneJob(Finished(r), 0, Top, Settled(r))
    else OneJob(Finished(r), n - 11, Stopped, Settled(r))
  }

  lemma WorkerRuns(r: JobResult, n: nat)
    requires n < 4
    ensures Next(At(r, n), At(r, n + 1))
  {
    assert Occupied(At(r, 0)) == {};
    hide Occupied, SupervisorNext;
    if n == 0 { assert WorkerNext(At(r, 0), At(r, 1), Claim(0)); }
    if n == 1 { assert WorkerNext(At(r, 1), At(r, 2), Start(0)); }
    if n == 2 { assert WorkerNext(At(r, 2), At(r, 3), Finish(0, r)); }
    if n == 3 { assert WorkerNext(At(r, 3), At(r, 4), Resolve(0)); }
  }

  lemma LoopSettles(r: JobResult, n: nat)
    requires 4 <= n <= 10
    ensures SupervisorNext(At(r, n), At(r, n + 1))
  {
    hide WorkerNext, Occupied, AllJobs;
    if n == 4 { assert FinishedPending(At(r, 4)) == {0}; }
    if n == 5 { assert FinishedPending(At(r, 5)) == {0}; }
    if n == 6 {
      assert {0} - {0} == {};
      assert ResolveOne(At(r, 6), At(r, 7), 0);
    }
    if n == 7 { assert Settled(r).pending == {} && {} - {0} == {}; }
    if n == 10 { assert Settled(r).pending == {}; }
  }

  lemma Steps(r: JobResult, n: nat)
    ensures Next(At(r, n), At(r, n + 1))
  {
    if n < 4 {
      WorkerRuns(r, n);
    } else if n <= 10 {
      LoopSettles(r, n);
    } else {
      assert WorkerNext(At(r, n), At(r, n + 1), Tick(n - 10));
    }
  }

  function Run(r: JobResult): Trace {
    (n: nat) => At(r, n)
  }

  lemma RunIsTrace(r: JobResult)
    ensures IsTrace(Run(r))
  {
    assert Init(Run(r)(0)) by { assert AllJobs(At(r, 0)) == {0} by { assert IsJob(At(r, 0), 0); } }
    hide Init, Next, At;
    forall n: nat ensures Step(Run(r), n) { Steps(r, n); }
  }

  lemma LateStates(r: JobResult, n: nat)
    requires n >= 11
    ensures At(r, n).now == n - 11 && At(r, n).pc.Stopped?
    ensures !StillClaimed(Run(r), n, 0) && !SlotFree(At(r, n))
  {
  }

  lemma ClockMoves(r: JobResult, time: int)
    ensures ClockReaches(Run(r), time)
  {
    hide At, SlotFree, StillClaimed;
    var n: nat := if time > 0 then 11 + time else 11;
    LateStates(r, n);
    assert ClockAt(Run(r), n, time);
  }

  lemma LoopPolls(r: JobResult, n: nat)
    requires !At(r, n).pc.Stopped?
    ensures PollsAgain(Run(r), n)
  {
    assert n <= 10;
    hide At, SupervisorNext;
    LoopSettles(r, 10);
    assert Polls(Run(r), 10);
  }

  lemma JobStarts(r: JobResult, n: nat, j: Job)
    ensures GetsStarted(Run(r), n, j)
  {
    LateStates(r, n + 11);
    assert |At(r, n + 11).jobs| == 1;
    hide At, SlotFree;
    assert !StillClaimed(Run(r), n + 11, j);
  }

  lemma SlotsFill(r: JobResult, n: nat)
    ensures SlotGetsTaken(Run(r), n)
  {
    hide At, SlotFree, WorkerNext, StillClaimed;
    LateStates(r, n + 11);
    assert SlotTaken(Run(r), n + 11);
  }

  /** Some fair trace runs a job to its result. */
  lemma AFairTraceExists(r: JobResult) returns (tr: Trace)
    ensures IsTrace(tr) && Fair(tr)
    ensures tr(11).pc.Stopped? && tr(11).desk.completed == map[0 := r]
  {
    tr := Run(r);
    RunIsTrace(r);
    hide IsTrace, ClockReaches, PollsAgain, GetsStarted, SlotGetsTaken;
    assert tr(11).pc.Stopped? && tr(11).desk.completed == map[0 := r];
    hide At;
    forall time: int ensures ClockReaches(tr, time) { ClockMoves(r, time); }
    forall n: nat | !tr(n).pc.Stopped? ensures PollsAgain(tr, n) { LoopPolls(r, n); }
    forall n: nat, j: Job ensures GetsStarted(tr, n, j) { JobStarts(r, n, j); }
    forall n: nat ensures SlotGetsTaken(tr, n) { SlotsFill(r, n); }
  }
}
