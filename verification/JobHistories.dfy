/** Where the times in a job's state come from: its deadline from the moment its call started, its completion time from the
    moment it finished, and the permission to report from a moment at which its cancel flag was clear. */
module JobHistories {
  import opened Ledgers
  import opened Supervision
  import opened TimelyResults

  // ---------------------------------------------------------------- events of a run

  // Step k takes the claimed call of j into its work.
  ghost predicate Starts(run: seq<State>, k: nat, j: Job) {
    && k + 1 < |run| && j < |run[k].jobs| && j < |run[k + 1].jobs|
    && run[k].jobs[j].phase.Claimed? && run[k + 1].jobs[j].phase.Working?
  }

  // Step k ends the work of j.
  ghost predicate Finishes(run: seq<State>, k: nat, j: Job) {
    && k + 1 < |run| && j < |run[k].jobs| && j < |run[k + 1].jobs|
    && run[k].jobs[j].phase.Working? && run[k + 1].jobs[j].phase.Completed?
  }

  // At step k the worker of j finds its cancel flag clear inside the ledger lock.
  ghost predicate Clears(run: seq<State>, k: nat, j: Job) {
    && k + 1 < |run| && j < |run[k].jobs| && j < |run[k + 1].jobs|
    && !run[k].jobs[j].cancelled && run[k].jobs[j].phase.Working? && run[k + 1].jobs[j].cleared
  }

  // When the supervision of the call that step k starts runs out: the cleanup of an isolated plugin gets two more seconds.
  ghost function TimeIsUp(run: seq<State>, k: nat, j: Job): int
    requires Starts(run, k, j)
  {
    run[k].now + run[k].timeout + (if run[k].jobs[j].isolated then 2 else 0)
  }

  // ---------------------------------------------------------------- one step

  ghost predicate PhaseMoves(s: State, t: State, js: JobState, jt: JobState) {
    && t.timeout == s.timeout && t.now >= s.now && jt.isolated == js.isolated
    && (|| jt.phase == js.phase
        || (js.phase.Queued? && (jt.phase.Claimed? || jt.phase.Cancelled?))
        || (js.phase.Claimed? && jt.phase == Working(s.now + s.timeout))
        || (js.phase.Working? && jt.phase.Completed? && jt.phase.deadline == js.phase.deadline && jt.phase.at == s.now)
        || (js.phase.Completed? && jt.phase == Done(js.phase.deadline, js.phase.at, js.phase.result)))
    && (jt.cleared ==> js.cleared || (js.phase.Working? && !js.cancelled))
    && (js.cancelled ==> jt.cancelled)
  }

  lemma WorkerPhase(s: State, t: State, step: WorkerStep, j: Job)
    requires WorkerNext(s, t, step) && j < |s.jobs| && |t.jobs| == |s.jobs|
    ensures PhaseMoves(s, t, s.jobs[j], t.jobs[j])
  {
    hide Occupied;
  }

  lemma SupervisorPhase(s: State, t: State, j: Job)
    requires SupervisorNext(s, t) && j < |s.jobs| && |t.jobs| == |s.jobs|
    ensures PhaseMoves(s, t, s.jobs[j], t.jobs[j])
  {
    hide AllJobs, Occupied, FinishedPending;
  }

  lemma StepPhase(run: seq<State>, k: nat, j: Job)
    requires IsRun(run) && k + 1 < |run| && j < |run[0].jobs|
    ensures j < |run[k].jobs| && j < |run[k + 1].jobs| && PhaseMoves(run[k], run[k + 1], run[k].jobs[j], run[k + 1].jobs[j])
  {
    StepOf(run, k, j);
    EveryStateInv(run, k);
    EveryStateInv(run, k + 1);
    var s, t := run[k], run[k + 1];
    assert Next(s, t);
    hide IsRun, Inv, FateMoves, PhaseMoves, SupervisorNext, WorkerNext;
    if step :| WorkerNext(s, t, step) {
      WorkerPhase(s, t, step, j);
    } else {
      SupervisorPhase(s, t, j);
    }
  }

  // ---------------------------------------------------------------- whole runs

  ghost predicate Dated(run: seq<State>, n: nat, j: Job)
    requires n < |run|
  {
    && j < |run[n].jobs|
    && run[n].timeout == run[0].timeout
    && var js := run[n].jobs[j];
       && (HasDeadline(js) ==> exists k: nat :: k < n && Starts(run, k, j) && SupervisionDeadline(js) == TimeIsUp(run, k, j))
       && (js.phase.Completed? || js.phase.Done? ==> exists m: nat :: m < n && Finishes(run, m, j) && js.phase.at == run[m].now)
       && (js.cleared ==> exists c: nat :: c < n && Clears(run, c, j))
  }

  lemma FirstIsDated(run: seq<State>, j: Job)
    requires IsRun(run) && j < |run[0].jobs|
    ensures Dated(run, 0, j)
  {
    assert Init(run[0]);
    hide Next;
  }

  lemma DatedNext(run: seq<State>, n: nat, j: Job)
    requires n + 1 < |run| && Dated(run, n, j) && j < |run[n + 1].jobs|
    requires PhaseMoves(run[n], run[n + 1], run[n].jobs[j], run[n + 1].jobs[j])
    ensures Dated(run, n + 1, j)
  {
    var js, jt := run[n].jobs[j], run[n + 1].jobs[j];
    if js.phase.Claimed? && jt.phase.Working? { assert Starts(run, n, j); }
    if js.phase.Working? && jt.phase.Completed? { assert Finishes(run, n, j); }
    if jt.cleared && !js.cleared { assert Clears(run, n, j); }
  }

  lemma {:induction false} History(run: seq<State>, n: nat, j: Job)
    requires IsRun(run) && n < |run| && j < |run[0].jobs|
    ensures Dated(run, n, j)
    decreases n
  {
    hide IsRun, PhaseMoves, Dated;
    if n == 0 {
      FirstIsDated(run, j);
    } else {
      History(run, n - 1, j);
      StepPhase(run, n - 1, j);
      DatedNext(run, n - 1, j);
    }
  }

  function Age(p: Phase): nat {
    match p
    case Queued => 0
    case Claimed => 1
    case Working(_) => 2
    case Completed(_, _, _) => 3
    case Done(_, _, _) => 4
    case Cancelled => 5
  }

  lemma {:induction false} GrowsOlder(run: seq<State>, i: nat, n: nat, j: Job)
    requires IsRun(run) && i <= n < |run| && j < |run[0].jobs|
    ensures j < |run[i].jobs| && j < |run[n].jobs|
    ensures Age(run[i].jobs[j].phase) <= Age(run[n].jobs[j].phase)
    decreases n
  {
    hide IsRun, Inv;
    EveryStateInv(run, i);
    EveryStateInv(run, n);
    if i < n {
      GrowsOlder(run, i, n - 1, j);
      StepPhase(run, n - 1, j);
    }
  }

  /** A call starts once. */
  lemma StartsOnce(run: seq<State>, k: nat, l: nat, j: Job)
    requires IsRun(run) && j < |run[0].jobs| && Starts(run, k, j) && Starts(run, l, j)
    ensures k == l
  {
    hide IsRun;
    if k < l { GrowsOlder(run, k + 1, l, j); }
    if l < k { GrowsOlder(run, l + 1, k, j); }
  }

  lemma FinishesOnce(run: seq<State>, k: nat, l: nat, j: Job)
    requires IsRun(run) && j < |run[0].jobs| && Finishes(run, k, j) && Finishes(run, l, j)
    ensures k == l
  {
    hide IsRun;
    if k < l { GrowsOlder(run, k + 1, l, j); }
    if l < k { GrowsOlder(run, l + 1, k, j); }
  }

  ghost predicate FinishesInTime(run: seq<State>, k: nat, j: Job)
    requires Starts(run, k, j)
  {
    exists m: nat :: Finishes(run, m, j) && run[m].now < TimeIsUp(run, k, j)
  }

  lemma StartedIsDue(run: seq<State>, k: nat, j: Job)
    requires IsRun(run) && j < |run[0].jobs| && Starts(run, k, j)
    ensures j < |run[|run| - 1].jobs| && HasDeadline(run[|run| - 1].jobs[j])
    ensures SupervisionDeadline(run[|run| - 1].jobs[j]) == TimeIsUp(run, k, j)
  {
    hide IsRun;
    var n := |run| - 1;
    History(run, n, j);
    StartedIsNotCancelled(run, k, n, j);
    var l: nat :| l < n && Starts(run, l, j) && SupervisionDeadline(run[n].jobs[j]) == TimeIsUp(run, l, j);
    StartsOnce(run, k, l, j);
  }

  lemma FinishedIsDated(run: seq<State>, k: nat, j: Job)
    requires IsRun(run) && j < |run[0].jobs| && Starts(run, k, j)
    ensures j < |run[|run| - 1].jobs|
    ensures var p := run[|run| - 1].jobs[j].phase;
            FinishesInTime(run, k, j) <==> (p.Completed? || p.Done?) && p.at < TimeIsUp(run, k, j)
  {
    hide IsRun, TimeIsUp;
    var n := |run| - 1;
    History(run, n, j);
    var p := run[n].jobs[j].phase;
    forall q: nat | Finishes(run, q, j) ensures (p.Completed? || p.Done?) && p.at == run[q].now {
      FinishesOnceAndForAll(run, q, j);
    }
  }

  lemma FinishesOnceAndForAll(run: seq<State>, q: nat, j: Job)
    requires IsRun(run) && j < |run[0].jobs| && Finishes(run, q, j)
    ensures j < |run[|run| - 1].jobs|
    ensures var p := run[|run| - 1].jobs[j].phase; (p.Completed? || p.Done?) && p.at == run[q].now
  {
    hide IsRun, TimeIsUp;
    var n := |run| - 1;
    History(run, q, j);
    var k: nat :| k < q && Starts(run, k, j);
    History(run, n, j);
    GrowsOlder(run, q + 1, n, j);
    StartedIsNotCancelled(run, k, n, j);
    var m: nat :| m < n && Finishes(run, m, j) && run[n].jobs[j].phase.at == run[m].now;
    FinishesOnce(run, q, m, j);
  }

  lemma BookedAtEnd(run: seq<State>, j: Job)
    requires IsRun(run) && run[|run| - 1].pc.Stopped? && j < |run[0].jobs|
    ensures var s := run[|run| - 1];
            && j < |s.jobs| && j in s.desk.completed
            && (j in s.desk.timedOut ==>
                  || (s.desk.completed[j] == TIMEOUT_RESULT && Overdue(s.jobs[j], s.now))
                  || (s.desk.completed[j] == NOT_STARTED_RESULT && s.jobs[j].phase.Cancelled?))
            && (j !in s.desk.timedOut ==> s.jobs[j].phase.Done?)
  {
    WhenSupervisionEnds(run);
    RunInv(run);
    assert JobBooked(run[|run| - 1], j);
  }

  /** A call that has started keeps its result exactly when it finishes before its time, counted from its own start, is up
      and a wait returns it; it is written off only once that time is up. A call that never starts is given up. */
  lemma CallsGetTheirTime(run: seq<State>, k: nat, j: Job)
    requires IsRun(run) && run[|run| - 1].pc.Stopped? && j < |run[0].jobs| && Starts(run, k, j)
    ensures var s := run[|run| - 1];
            && j in s.desk.completed
            && (j !in s.desk.timedOut <==> FinishesInTime(run, k, j) && EverReturned(run, j))
            && (j in s.desk.timedOut ==>
                  && s.desk.completed[j] == JobResult([], true, true, TimedOutCall)
                  && s.now >= TimeIsUp(run, k, j))
  {
    hide IsRun, EverReturned, FinishesInTime, Starts, TimeIsUp;
    KeptWhenReturned(run, j);
    BookedAtEnd(run, j);
    StartedIsDue(run, k, j);
    FinishedIsDated(run, k, j);
    if EverReturned(run, j) { ReturnedIsKept(run, j); }
  }

  // Only a queued job is cancelled.
  lemma {:induction false} StartedIsNotCancelled(run: seq<State>, k: nat, n: nat, j: Job)
    requires IsRun(run) && j < |run[0].jobs| && Starts(run, k, j) && k < n < |run|
    ensures j < |run[n].jobs| && 2 <= Age(run[n].jobs[j].phase) <= 4
    decreases n
  {
    hide IsRun;
    if k + 1 < n {
      StartedIsNotCancelled(run, k, n - 1, j);
      StepPhase(run, n - 1, j);
    }
  }

  lemma {:induction false} NotStarted(run: seq<State>, n: nat, j: Job)
    requires IsRun(run) && n < |run| && j < |run[0].jobs| && forall k: nat :: !Starts(run, k, j)
    ensures j < |run[n].jobs| && !HasDeadline(run[n].jobs[j])
  {
    History(run, n, j);
    hide IsRun;
  }

  lemma UnstartedIsGivenUp(run: seq<State>, j: Job)
    requires IsRun(run) && run[|run| - 1].pc.Stopped? && j < |run[0].jobs| && forall k: nat :: !Starts(run, k, j)
    ensures var s := run[|run| - 1];
            && j in s.desk.timedOut && j in s.desk.completed
            && s.desk.completed[j] == JobResult([], true, true, NoCapacity)
  {
    assert run != [];
    hide IsRun;
    BookedAtEnd(run, j);
    NotStarted(run, |run| - 1, j);
  }

  /** When a poll finds a call past its deadline, the time counted from the start of that call is up. */
  lemma FoundAfterItsTime(run: seq<State>, i: nat, j: Job)
    requires IsRun(run) && j < |run[0].jobs| && FindsOverdue(run, i, j)
    ensures exists k: nat :: k < i && Starts(run, k, j) && run[i].now >= TimeIsUp(run, k, j)
  {
    History(run, i, j);
    hide IsRun;
  }

  // ---------------------------------------------------------------- reports

  // Step i appends a report of j.
  ghost predicate Reports(run: seq<State>, i: nat, j: Job) {
    && i + 1 < |run|
    && (exists e :: run[i + 1].exports == run[i].exports + [e] && e.ordinal == j)
  }

  lemma ReportNeedsClearance(run: seq<State>, i: nat, j: Job)
    requires IsRun(run) && Reports(run, i, j)
    ensures j < |run[0].jobs| && j < |run[i].jobs| && j < |run[i + 1].jobs|
    ensures run[i].jobs[j].cleared && !run[i + 1].jobs[j].cleared
  {
    EveryStateInv(run, i);
    EveryStateInv(run, i + 1);
    var s, t := run[i], run[i + 1];
    assert Next(s, t);
    var e :| t.exports == s.exports + [e] && e.ordinal == j;
    assert t.exports[|s.exports|] == e && |t.exports| == |s.exports| + 1;
    hide IsRun, Inv, AllJobs, Occupied, FinishedPending, SupervisorNext;
    if SupervisorNext(s, t) { SupervisorReportsNothing(s, t); } else {
      var step :| WorkerNext(s, t, step);
      if step.RecordExport? { assert (s.exports + [step.entry])[|s.exports|] == step.entry; }
    }
  }

  lemma SupervisorReportsNothing(s: State, t: State)
    requires SupervisorNext(s, t)
    ensures t.exports == s.exports
  {
    hide AllJobs, FinishedPending;
  }

  /** A report is appended only after its worker found the cancel flag clear. */
  lemma ReportsWereCleared(run: seq<State>, i: nat, j: Job)
    requires IsRun(run) && Reports(run, i, j)
    ensures exists c: nat :: c < i && Clears(run, c, j)
  {
    ReportNeedsClearance(run, i, j);
    History(run, i, j);
    hide IsRun;
  }

  lemma {:induction false} StaysSilent(run: seq<State>, i: nat, n: nat, j: Job)
    requires IsRun(run) && i <= n < |run| && j < |run[0].jobs| && j < |run[i].jobs|
    requires run[i].jobs[j].cancelled && !run[i].jobs[j].cleared
    ensures j < |run[n].jobs| && run[n].jobs[j].cancelled && !run[n].jobs[j].cleared
    decreases n
  {
    hide IsRun;
    if i < n {
      StaysSilent(run, i, n - 1, j);
      StepPhase(run, n - 1, j);
    }
  }

  /** Once its cancel flag is set, a job appends at most one more report, the one it had been cleared for. */
  lemma OneLateReport(run: seq<State>, c: nat, i: nat, l: nat, j: Job)
    requires IsRun(run) && c <= i < l && Reports(run, i, j) && Reports(run, l, j)
    requires c < |run| && j < |run[c].jobs|
    ensures !run[c].jobs[j].cancelled
  {
    ReportNeedsClearance(run, i, j);
    ReportNeedsClearance(run, l, j);
    StaysCancelled(run, c, i + 1, j);
    hide IsRun, Reports;
    if run[c].jobs[j].cancelled { StaysSilent(run, i + 1, l, j); }
  }

  lemma {:induction false} StaysCancelled(run: seq<State>, i: nat, n: nat, j: Job)
    requires IsRun(run) && i <= n < |run| && j < |run[0].jobs| && j < |run[i].jobs|
    ensures j < |run[n].jobs| && (run[i].jobs[j].cancelled ==> run[n].jobs[j].cancelled)
    decreases n
  {
    hide IsRun;
    if i < n {
      StaysCancelled(run, i, n - 1, j);
      StepPhase(run, n - 1, j);
    }
  }
}
