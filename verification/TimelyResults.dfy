/** Which results survive. A result that was finished in time can still be thrown away: the worker resolves its future
    after wait() has returned, and the clock passes the deadline before the loop looks at it. Here is exactly when. */
module TimelyResults {
  import opened Ledgers
  import opened Supervision

  // ---------------------------------------------------------------- events of a run

  // Step i is a wait that returns the future of j.
  ghost predicate Returns(run: seq<State>, i: nat, j: Job) {
    && i + 1 < |run| && run[i].pc.Waiting? && run[i + 1].pc.Resolving? && j in run[i + 1].pc.done
  }

  // Step i finds j past its deadline, in a poll whose wait did not return it.
  ghost predicate FindsOverdue(run: seq<State>, i: nat, j: Job) {
    && i + 1 < |run| && FoundBetween(run[i], run[i + 1], j)
  }

  ghost predicate FoundBetween(s: State, t: State, j: Job) {
    && s.pc.Inspecting? && t.pc.Inspecting? && j < |s.jobs|
    && j in s.pc.left && j !in t.pc.left && Overdue(s.jobs[j], s.now)
  }

  // Step i begins a wait when the future of j has resolved and j is pending.
  ghost predicate FinishedBefore(run: seq<State>, i: nat, j: Job) {
    && i + 1 < |run| && run[i].pc.Top? && run[i + 1].pc.Waiting?
    && j in run[i].desk.pending && j < |run[i].jobs| && run[i].jobs[j].phase.Done?
  }

  ghost predicate EverReturned(run: seq<State>, j: Job) {
    exists i: nat :: Returns(run, i, j)
  }

  ghost predicate EverFoundOverdue(run: seq<State>, j: Job) {
    exists i: nat :: FindsOverdue(run, i, j)
  }

  // ---------------------------------------------------------------- one step

  ghost predicate OwnResult(s: State, j: Job) {
    j in s.desk.completed && j !in s.desk.timedOut
  }

  ghost predicate BeingSettled(s: State, j: Job) {
    s.pc.Resolving? && j in s.pc.left
  }

  ghost predicate WrittenOff(s: State, j: Job) {
    j in ToExpire(s) || j in s.desk.timedOut
  }

  // How the fate of j may move in one step.
  ghost predicate FateMoves(s: State, t: State, j: Job)
    requires j < |s.jobs| && j < |t.jobs|
  {
    var js, jt := s.jobs[j], t.jobs[j];
    && (js.phase.Done? || js.phase.Cancelled? ==> jt.phase == js.phase && jt.isolated == js.isolated)
    // Looking back.
    && (OwnResult(t, j) ==> OwnResult(s, j) || BeingSettled(s, j))
    && (BeingSettled(t, j) ==> BeingSettled(s, j) || (s.pc.Waiting? && t.pc.Resolving? && j in t.pc.done))
    && (WrittenOff(t, j) && !jt.phase.Cancelled? ==> WrittenOff(s, j) || FinishedLate(jt) || FoundBetween(s, t, j))
    // Looking ahead.
    && (OwnResult(s, j) ==> OwnResult(t, j))
    && (BeingSettled(s, j) && !FinishedLate(js) ==> BeingSettled(t, j) || OwnResult(t, j))
    && (WrittenOff(s, j) ==> WrittenOff(t, j))
    && (FoundBetween(s, t, j) ==> WrittenOff(t, j))
    && (s.pc.Waiting? && j in s.pc.base && !(t.pc.Waiting? && j in t.pc.base) ==> t.pc.Resolving? && j in t.pc.done)
    && (s.pc.Waiting? && t.pc.Resolving? && j in t.pc.done ==> BeingSettled(t, j) && js.phase.Done?)
  }

  lemma WorkerMoves(s: State, t: State, step: WorkerStep, j: Job)
    requires WorkerNext(s, t, step) && j < |s.jobs| && |t.jobs| == |s.jobs|
    ensures FateMoves(s, t, j)
  {
    hide Occupied;
  }

  ghost predicate Known(s: State, j: Job) {
    PcWellFormed(s) && j < |s.jobs| && JobBooked(s, j)
  }

  lemma ResolveMoves(s: State, t: State, k: Job, j: Job)
    requires Known(s, j) && s.pc.Resolving? && ResolveOne(s, t, k)
    ensures FateMoves(s, t, j)
  {
  }

  lemma InspectMoves(s: State, t: State, k: Job, j: Job)
    requires Known(s, j) && s.pc.Inspecting? && InspectOne(s, t, k)
    ensures FateMoves(s, t, j)
  {
  }

  lemma FlagMoves(s: State, t: State, k: Job, j: Job)
    requires Known(s, j) && s.pc.ExpiringAll? && FlagOne(s, t, k)
    ensures FateMoves(s, t, j)
  {
  }

  lemma CancelMoves(s: State, t: State, k: Job, j: Job)
    requires Known(s, j) && s.pc.AbandoningAll? && CancelOne(s, t, k)
    ensures FateMoves(s, t, j)
  {
  }

  lemma ScanMoves(s: State, t: State, k: Job, j: Job)
    requires Known(s, j) && s.pc.Scanning? && ScanOne(s, t, k)
    ensures FateMoves(s, t, j)
  {
  }

  lemma ReadingTurns(s: State, t: State, j: Job)
    requires Known(s, j) && SupervisorNext(s, t)
    requires s.pc.Top? || s.pc.Waiting? || ((s.pc.Resolving? || s.pc.Inspecting?) && s.pc.left == {})
    ensures |t.jobs| == |s.jobs| && FateMoves(s, t, j)
  {
    hide AllJobs, Occupied;
  }

  lemma WritingTurns(s: State, t: State, j: Job)
    requires Known(s, j) && SupervisorNext(s, t)
    requires s.pc.ExpiringOne? || s.pc.AbandoningOne?
    ensures |t.jobs| == |s.jobs| && FateMoves(s, t, j)
  {
    hide AllJobs, Occupied, FinishedPending;
  }

  lemma ClosingTurns(s: State, t: State, j: Job)
    requires Known(s, j) && SupervisorNext(s, t)
    requires (s.pc.ExpiringAll? || s.pc.Scanning? || s.pc.AbandoningAll?) && s.pc.left == {}
    ensures |t.jobs| == |s.jobs| && FateMoves(s, t, j)
  {
    hide AllJobs, Occupied, FinishedPending;
  }

  lemma SupervisorMoves(s: State, t: State, j: Job)
    requires Known(s, j) && SupervisorNext(s, t) && |t.jobs| == |s.jobs|
    ensures FateMoves(s, t, j)
  {
    hide Known, FateMoves;
    match s.pc
    case Resolving(_, left, _) =>
      if left == {} { ReadingTurns(s, t, j); } else { var k :| ResolveOne(s, t, k); ResolveMoves(s, t, k, j); }
    case Inspecting(left, _) =>
      if left == {} { ReadingTurns(s, t, j); } else { var k :| InspectOne(s, t, k); InspectMoves(s, t, k, j); }
    case ExpiringAll(left) =>
      if left == {} { ClosingTurns(s, t, j); } else { var k :| FlagOne(s, t, k); FlagMoves(s, t, k, j); }
    case Scanning(left, _) =>
      if left == {} { ClosingTurns(s, t, j); } else { var k :| ScanOne(s, t, k); ScanMoves(s, t, k, j); }
    case AbandoningAll(left) =>
      if left == {} { ClosingTurns(s, t, j); } else { var k :| CancelOne(s, t, k); CancelMoves(s, t, k, j); }
    case ExpiringOne(_, _) => WritingTurns(s, t, j);
    case AbandoningOne(_, _) => WritingTurns(s, t, j);
    case _ => ReadingTurns(s, t, j);
  }

  lemma StepMoves(s: State, t: State, j: Job)
    requires Inv(s) && Next(s, t) && j < |s.jobs|
    ensures Inv(t) && |t.jobs| == |s.jobs| && FateMoves(s, t, j)
  {
    NextInv(s, t);
    assert JobBooked(s, j);
    hide Inv, FateMoves, SupervisorNext, WorkerNext, JobBooked, PcWellFormed;
    if step :| WorkerNext(s, t, step) {
      WorkerMoves(s, t, step, j);
    } else {
      SupervisorMoves(s, t, j);
    }
  }

  // ---------------------------------------------------------------- whole runs

  lemma EveryStateInv(run: seq<State>, k: nat)
    requires IsRun(run) && k < |run|
    ensures Inv(run[k]) && |run[k].jobs| == |run[0].jobs|
  {
    var part := run[..k + 1];
    assert forall i :: 0 <= i < k ==> Next(run[i], run[i + 1]);
    hide Next, Inv, Init;
    assert IsRun(part) by {
      forall i | 0 <= i < |part| - 1 ensures Next(part[i], part[i + 1]) { assert Next(run[i], run[i + 1]); }
    }
    RunInv(part);
  }

  lemma StepOf(run: seq<State>, k: nat, j: Job)
    requires IsRun(run) && k + 1 < |run| && j < |run[0].jobs|
    ensures j < |run[k].jobs| && j < |run[k + 1].jobs| && FateMoves(run[k], run[k + 1], j)
  {
    EveryStateInv(run, k);
    assert Next(run[k], run[k + 1]);
    StepMoves(run[k], run[k + 1], j);
  }

  /** Where the fate of a job comes from. */
  lemma {:induction false} ComesFrom(run: seq<State>, n: nat, j: Job)
    requires IsRun(run) && n < |run| && j < |run[0].jobs|
    ensures j < |run[n].jobs|
    ensures OwnResult(run[n], j) || BeingSettled(run[n], j) ==> EverReturned(run, j)
    ensures WrittenOff(run[n], j) && !run[n].jobs[j].phase.Cancelled? ==> FinishedLate(run[n].jobs[j]) || EverFoundOverdue(run, j)
    decreases n
  {
    if n > 0 {
      hide IsRun, OwnResult, BeingSettled, WrittenOff, FoundBetween;
      ComesFrom(run, n - 1, j);
      StepOf(run, n - 1, j);
      var s, t := run[n - 1], run[n];
      if s.pc.Waiting? && t.pc.Resolving? && j in t.pc.done { assert Returns(run, n - 1, j); }
      if FoundBetween(s, t, j) { assert FindsOverdue(run, n - 1, j); }
    }
  }

  // What FateMoves says of the future, over any number of steps.
  ghost predicate Ahead(s: State, t: State, j: Job) {
    && j < |s.jobs| && j < |t.jobs|
    && (s.jobs[j].phase.Done? ==> t.jobs[j].phase == s.jobs[j].phase && t.jobs[j].isolated == s.jobs[j].isolated)
    && (OwnResult(s, j) ==> OwnResult(t, j))
    && (WrittenOff(s, j) ==> WrittenOff(t, j))
    && (BeingSettled(s, j) && s.jobs[j].phase.Done? && !FinishedLate(s.jobs[j]) ==> BeingSettled(t, j) || OwnResult(t, j))
  }

  lemma AheadFurther(s: State, t: State, u: State, j: Job)
    requires Ahead(s, t, j) && j < |u.jobs| && FateMoves(t, u, j)
    ensures Ahead(s, u, j)
  {
    hide OwnResult, BeingSettled, WrittenOff, FoundBetween;
  }

  /** What becomes of it. */
  lemma {:induction false} LeadsTo(run: seq<State>, i: nat, n: nat, j: Job)
    requires IsRun(run) && i <= n < |run| && j < |run[0].jobs|
    ensures Ahead(run[i], run[n], j)
    decreases n
  {
    hide IsRun, Inv, FateMoves;
    EveryStateInv(run, i);
    assert i == n ==> Ahead(run[i], run[n], j);
    hide Ahead;
    if i < n {
      LeadsTo(run, i, n - 1, j);
      StepOf(run, n - 1, j);
      AheadFurther(run[i], run[n - 1], run[n], j);
    }
  }

  // A wait that has j in its base returns it, or is still on.
  lemma {:induction false} WaitGoesOn(run: seq<State>, i: nat, n: nat, j: Job)
    requires IsRun(run) && i <= n < |run| && j < |run[0].jobs| && run[i].pc.Waiting? && j in run[i].pc.base
    ensures (run[n].pc.Waiting? && j in run[n].pc.base) || EverReturned(run, j)
    decreases n
  {
    hide IsRun, OwnResult, BeingSettled, WrittenOff, FoundBetween;
    if i < n {
      WaitGoesOn(run, i, n - 1, j);
      StepOf(run, n - 1, j);
      var s, t := run[n - 1], run[n];
      if s.pc.Waiting? && t.pc.Resolving? && j in t.pc.done { assert Returns(run, n - 1, j); }
    }
  }

  lemma ReturnedIsKept(run: seq<State>, j: Job)
    requires IsRun(run) && run[|run| - 1].pc.Stopped? && j < |run[0].jobs| && EverReturned(run, j)
    ensures var s := run[|run| - 1];
            j < |s.jobs| && s.jobs[j].phase.Done? && (!FinishedLate(s.jobs[j]) ==> OwnResult(s, j))
  {
    var i: nat :| Returns(run, i, j);
    StepOf(run, i, j);
    LeadsTo(run, i + 1, |run| - 1, j);
    hide IsRun;
  }

  lemma FoundIsWrittenOff(run: seq<State>, j: Job)
    requires IsRun(run) && run[|run| - 1].pc.Stopped? && j < |run[0].jobs| && EverFoundOverdue(run, j)
    ensures j in run[|run| - 1].desk.timedOut
  {
    var i: nat :| FindsOverdue(run, i, j);
    StepOf(run, i, j);
    LeadsTo(run, i + 1, |run| - 1, j);
    hide IsRun;
  }

  /** A job ends with its own result exactly when it finished in time and some wait returned it. */
  lemma KeptWhenReturned(run: seq<State>, j: Job)
    requires IsRun(run) && run[|run| - 1].pc.Stopped? && j < |run[0].jobs|
    ensures var s := run[|run| - 1];
            && j in s.desk.completed && j < |s.jobs|
            && (j !in s.desk.timedOut <==>
                s.jobs[j].phase.Done? && !FinishedLate(s.jobs[j]) && EverReturned(run, j))
            && (j !in s.desk.timedOut ==> s.desk.completed[j] == s.jobs[j].phase.result)
  {
    WhenSupervisionEnds(run);
    ComesFrom(run, |run| - 1, j);
    if EverReturned(run, j) { ReturnedIsKept(run, j); }
    hide IsRun, EverReturned, EverFoundOverdue;
  }

  /** A result that was ready in time is discarded exactly when a poll whose wait had not returned it found it past its
      deadline; it is never returned then. One that had resolved before some poll began is always kept. */
  lemma DiscardedWhenFoundOverdue(run: seq<State>, j: Job)
    requires IsRun(run) && run[|run| - 1].pc.Stopped? && j < |run[0].jobs| && j < |run[|run| - 1].jobs|
    requires run[|run| - 1].jobs[j].phase.Done? && !FinishedLate(run[|run| - 1].jobs[j])
    ensures j in run[|run| - 1].desk.timedOut <==> EverFoundOverdue(run, j)
    ensures EverFoundOverdue(run, j) <==> !EverReturned(run, j)
    ensures (exists i: nat :: FinishedBefore(run, i, j)) ==> EverReturned(run, j)
  {
    KeptWhenReturned(run, j);
    ComesFrom(run, |run| - 1, j);
    if EverFoundOverdue(run, j) { FoundIsWrittenOff(run, j); }
    if i: nat :| FinishedBefore(run, i, j) { PollReturnsFinished(run, i, j); }
    hide IsRun, EverReturned, EverFoundOverdue;
  }

  lemma PollReturnsFinished(run: seq<State>, i: nat, j: Job)
    requires IsRun(run) && run[|run| - 1].pc.Stopped? && j < |run[0].jobs| && FinishedBefore(run, i, j)
    ensures EverReturned(run, j)
  {
    var s, t := run[i], run[i + 1];
    assert Next(s, t);
    assert j in FinishedPending(s);
    hide AllJobs, Occupied, WorkerNext;
    assert SupervisorNext(s, t) by {
      if step :| WorkerNext(s, t, step) { WorkerKeepsPc(s, t, step); }
    }
    hide IsRun, EverReturned, SupervisorNext, Next;
    WaitGoesOn(run, i + 1, |run| - 1, j);
  }

  lemma WorkerKeepsPc(s: State, t: State, step: WorkerStep)
    requires WorkerNext(s, t, step)
    ensures t.pc == s.pc
  {
    hide Occupied;
  }

  // ---------------------------------------------------------------- such a run exists

  function OneJob(js: JobState, now: int, pc: Pc, desk: Desk): State {
    State([js], 1, 10, now, pc, desk, [], map[])
  }

  const IDLE := JobState(Queued, false, false, false, false)
  const WORKING := IDLE.(phase := Working(10))
  const OPEN := Desk({0}, map[], {}, {})

  lemma TimelyResultMayBeDiscarded(r: JobResult) returns (run: seq<State>)
    ensures IsRun(run)
    ensures var s := run[|run| - 1];
            && |s.jobs| == 1 && s.jobs[0].phase == Done(10, 0, r) && !FinishedLate(s.jobs[0])
            && 0 in s.desk.timedOut && s.desk.completed == map[0 := TIMEOUT_RESULT]
  {
    var early := PollBegins();
    var late := FinishesUnseen(r);
    hide Init, Next;
    run := early + late[1..];
    forall i | 0 <= i < |run| - 1 ensures Next(run[i], run[i + 1]) {
      if i < 5 {
        assert Next(early[i], early[i + 1]);
      } else {
        assert Next(late[i - 5], late[i - 5 + 1]);
      }
    }
  }

  lemma PollBegins() returns (run: seq<State>)
    ensures |run| == 6 && Init(run[0]) && run[5] == OneJob(WORKING, 0, Inspecting({0}, {}), OPEN)
    ensures forall i :: 0 <= i < 5 ==> Next(run[i], run[i + 1])
  {
    var s0 := OneJob(IDLE, 0, Top, OPEN);
    var s1 := OneJob(IDLE.(phase := Claimed), 0, Top, OPEN);
    var s2 := OneJob(WORKING, 0, Top, OPEN);
    var s3 := OneJob(WORKING, 0, Waiting({}), OPEN);
    var s4 := OneJob(WORKING, 0, Resolving({}, {}, {}), OPEN);
    var s5 := OneJob(WORKING, 0, Inspecting({0}, {}), OPEN);
    assert AllJobs(s0) == {0} by { assert IsJob(s0, 0); }
    assert Occupied(s0) == {};
    assert WorkerNext(s0, s1, Claim(0));
    assert WorkerNext(s1, s2, Start(0));
    assert FinishedPending(s2) == {} && FinishedPending(s3) == {};
    assert SupervisorNext(s2, s3);
    assert SupervisorNext(s3, s4);
    assert {0} - {} == {0};
    assert SupervisorNext(s4, s5);
    run := [s0, s1, s2, s3, s4, s5];
  }

  lemma FinishesUnseen(r: JobResult) returns (run: seq<State>)
    ensures |run| == 8 && run[0] == OneJob(WORKING, 0, Inspecting({0}, {}), OPEN)
    ensures forall i :: 0 <= i < 7 ==> Next(run[i], run[i + 1])
    ensures run[7] == OneJob(IDLE.(phase := Done(10, 0, r), cancelled := true), 10, ExpiringAll({}), Expire(OPEN, 0, false))
  {
    var done := IDLE.(phase := Done(10, 0, r));
    var here := Inspecting({0}, {});
    var s5 := OneJob(WORKING, 0, here, OPEN);
    var s6 := OneJob(IDLE.(phase := Completed(10, 0, r)), 0, here, OPEN);
    var s7 := OneJob(done, 0, here, OPEN);
    var s8 := OneJob(done, 10, here, OPEN);
    var s9 := OneJob(done, 10, Inspecting({}, {0}), OPEN);
    var s10 := OneJob(done, 10, ExpiringAll({0}), OPEN);
    var s11 := OneJob(done.(cancelled := true), 10, ExpiringOne(0, {}), OPEN);
    var s12 := OneJob(done.(cancelled := true), 10, ExpiringAll({}), Expire(OPEN, 0, false));
    assert WorkerNext(s5, s6, Finish(0, r));
    assert WorkerNext(s6, s7, Resolve(0));
    assert WorkerNext(s7, s8, Tick(10));
    assert {0} - {0} == {} && {} + {0} == {0};
    assert InspectOne(s8, s9, 0);
    assert SupervisorNext(s9, s10);
    assert {0} - {0} == {};
    assert FlagOne(s10, s11, 0);
    assert s11.desk == OPEN && Running(s11.jobs[0]) == false;
    assert SupervisorNext(s11, s12);
    run := [s5, s6, s7, s8, s9, s10, s11, s12];
  }
}
