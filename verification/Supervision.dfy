/** The connector supervisor of shadowscan/engine.py.

    Worker threads, the clock and the supervisor's polling loop are one transition system in which every read the loop
    makes of shared state is a step of its own, so that any worker step may fall between two of them. The loop's own
    fields form a Desk; SupervisionDesk.dfy has the object that updates them in place. */
module Supervision {
  import opened Ledgers

  type Job = nat                       // position of the job in the run's job list
  type Finding = string

  datatype Reason = NoReason | TimedOutCall | NoCapacity | Other(text: string)
  datatype JobResult = JobResult(findings: seq<Finding>, incomplete: bool, skipped: bool, reason: Reason)

  const TIMEOUT_RESULT := JobResult([], true, true, TimedOutCall)
  const NOT_STARTED_RESULT := JobResult([], true, true, NoCapacity)

  // The supervision thread of a process-isolated plugin may finish its cleanup this long after the deadline.
  const ISOLATED_GRACE := 2

  // ---------------------------------------------------------------- jobs and their worker threads

  datatype Phase =
    | Queued
    | Claimed                                             // picked up by a worker, deadline not set yet
    | Working(deadline: int)
    | Completed(deadline: int, at: int, result: JobResult)  // completed_at written, future not resolved yet
    | Done(deadline: int, at: int, result: JobResult)
    | Cancelled

  datatype JobState = JobState(
    phase: Phase,
    isolated: bool,
    cancelled: bool,    // the cooperative cancel flag
    publishing: bool,   // the worker holds the publication lock
    cleared: bool)      // the worker saw a clear flag inside the ledger lock and may append

  predicate HasDeadline(js: JobState) {
    js.phase.Working? || js.phase.Completed? || js.phase.Done?
  }

  function SupervisionDeadline(js: JobState): int
    requires HasDeadline(js)
  {
    js.phase.deadline + if js.isolated then ISOLATED_GRACE else 0
  }

  // future.running()
  predicate Running(js: JobState) {
    js.phase.Claimed? || js.phase.Working? || js.phase.Completed?
  }

  // A resolved future whose worker wrote completed_at at or after its supervision deadline.
  predicate FinishedLate(js: JobState) {
    js.phase.Done? && js.phase.at >= SupervisionDeadline(js)
  }

  predicate Overdue(js: JobState, now: int) {
    HasDeadline(js) && now >= SupervisionDeadline(js)
  }

  // ---------------------------------------------------------------- the supervisor's own fields

  datatype Desk = Desk(pending: set<Job>, completed: map<Job, JobResult>, timedOut: set<Job>, abandoned: set<Job>)

  function Settle(d: Desk, j: Job, result: JobResult): Desk {
    d.(pending := d.pending - {j}, completed := d.completed[j := result])
  }

  function Expire(d: Desk, j: Job, running: bool): Desk {
    d.(pending := d.pending - {j}, completed := d.completed[j := TIMEOUT_RESULT],
       timedOut := d.timedOut + {j}, abandoned := if running then d.abandoned + {j} else d.abandoned)
  }

  function AbandonQueued(d: Desk, j: Job): Desk {
    d.(pending := d.pending - {j}, completed := d.completed[j := NOT_STARTED_RESULT], timedOut := d.timedOut + {j})
  }

  datatype Pc =
    | Top
    | Waiting(base: set<Job>)                                          // inside wait(); base had finished on entry
    | Resolving(done: set<Job>, left: set<Job>, expired: set<Job>)
    | Inspecting(left: set<Job>, expired: set<Job>)
    | ExpiringAll(left: set<Job>)
    | ExpiringOne(job: Job, left: set<Job>)                             // cancel flag set, books not written yet
    | Scanning(left: set<Job>, running: set<Job>)
    | AbandoningAll(left: set<Job>)
    | AbandoningOne(job: Job, left: set<Job>)                           // future cancelled, lock not taken yet
    | Stopped

  datatype State = State(
    jobs: seq<JobState>, workers: nat, timeout: nat, now: int,
    pc: Pc, desk: Desk,
    exports: seq<ExportEntry>, scopes: map<Job, ScopeSlot<string>>)

  ghost predicate IsJob(s: State, j: Job) {
    j < |s.jobs|
  }

  ghost function AllJobs(s: State): set<Job> {
    set j: Job | j < |s.jobs| && IsJob(s, j)
  }

  ghost function Occupied(s: State): set<Job> {
    set j | 0 <= j < |s.jobs| && Running(s.jobs[j])
  }

  ghost function FinishedPending(s: State): set<Job> {
    set j | j in s.desk.pending && j < |s.jobs| && s.jobs[j].phase.Done?
  }

  ghost predicate Init(s: State) {
    && s.workers >= 1
    && (forall j :: 0 <= j < |s.jobs| ==> s.jobs[j] == JobState(Queued, s.jobs[j].isolated, false, false, false))
    && s.pc == Top
    && s.desk == Desk(AllJobs(s), map[], {}, {})
    && s.exports == [] && s.scopes == map[]
  }

  // ---------------------------------------------------------------- worker and clock steps

  datatype WorkerStep =
    | Tick(now: int)
    | Claim(job: Job)
    | Start(job: Job)
    | LockPublication(job: Job)
    | UnlockPublication(job: Job)
    | CheckLedger(job: Job)
    | RecordExport(job: Job, entry: ExportEntry)
    | RecordScopeOf(job: Job, record: string)
    | Finish(job: Job, result: JobResult)
    | Resolve(job: Job)

  ghost predicate WorkerNext(s: State, t: State, step: WorkerStep) {
    if step.Tick? then
      step.now >= s.now && t == s.(now := step.now)
    else
      && step.job < |s.jobs|
      && var j, js := step.job, s.jobs[step.job];
      match step
      case Tick(_) => false
      case Claim(_) =>
        js.phase.Queued? && |Occupied(s)| < s.workers && t == Put(s, j, js.(phase := Claimed))
      case Start(_) =>
        js.phase.Claimed? && t == Put(s, j, js.(phase := Working(s.now + s.timeout)))
      case LockPublication(_) =>
        js.phase.Working? && !js.publishing && t == Put(s, j, js.(publishing := true))
      case UnlockPublication(_) =>
        js.phase.Working? && js.publishing && t == Put(s, j, js.(publishing := false))
      case CheckLedger(_) =>
        js.phase.Working? && t == Put(s, j, js.(cleared := !js.cancelled))
      case RecordExport(_, entry) =>
        && js.phase.Working? && js.cleared && entry.ordinal == j
        && t == Put(s, j, js.(cleared := false)).(exports := s.exports + [entry])
      case RecordScopeOf(_, record) =>
        && js.phase.Working? && js.cleared
        && t == Put(s, j, js.(cleared := false)).(scopes := RecordScope(s.scopes, j, record))
      case Finish(_, result) =>
        && js.phase.Working? && !js.publishing
        && t == Put(s, j, js.(phase := Completed(js.phase.deadline, s.now, result)))
      case Resolve(_) =>
        && js.phase.Completed?
        && t == Put(s, j, js.(phase := Done(js.phase.deadline, js.phase.at, js.phase.result)))
  }

  ghost function Put(s: State, j: Job, js: JobState): State
    requires j < |s.jobs|
  {
    s.(jobs := s.jobs[j := js])
  }

  // ---------------------------------------------------------------- supervisor steps

  // One step of the polling loop. Loops over sets may take their elements in any order.
  ghost predicate SupervisorNext(s: State, t: State) {
    var d := s.desk;
    match s.pc
    case Top =>
      t == if d.pending == {} then s.(pc := Stopped) else s.(pc := Waiting(FinishedPending(s)))
    case Waiting(base) =>
      // wait() reports at least what had finished when it was called, and nothing unfinished.
      t.pc.Resolving? && base <= t.pc.done <= FinishedPending(s)
      && t == s.(pc := Resolving(t.pc.done, t.pc.done, {}))
    case Resolving(done, left, expired) =>
      if left == {} then t == s.(pc := Inspecting(d.pending - done, expired))
      else
        exists j :: ResolveOne(s, t, j)
    case Inspecting(left, expired) =>
      if left == {} then t == s.(pc := ExpiringAll(expired))
      else
        exists j :: InspectOne(s, t, j)
    case ExpiringAll(left) =>
      if left == {} then
        t == s.(pc := if d.pending != {} && d.timedOut != {} then Scanning(AllJobs(s), {}) else Top)
      else
        exists j :: FlagOne(s, t, j)
    case ExpiringOne(j, left) =>
      j < |s.jobs| && t == s.(pc := ExpiringAll(left), desk := Expire(d, j, Running(s.jobs[j])))
    case Scanning(left, running) =>
      if left == {} then
        t == s.(pc := if |running| >= s.workers && running <= d.timedOut then AbandoningAll(d.pending) else Top)
      else
        exists j :: ScanOne(s, t, j)
    case AbandoningAll(left) =>
      if left == {} then t == s.(pc := Top)
      else
        exists j :: CancelOne(s, t, j)
    case AbandoningOne(j, left) =>
      // Taking the publication lock blocks while a worker holds it.
      && j < |s.jobs| && !s.jobs[j].publishing
      && t == Put(s, j, s.jobs[j].(cancelled := true)).(pc := AbandoningAll(left), desk := AbandonQueued(d, j))
    case Stopped => false
  }

  ghost predicate ResolveOne(s: State, t: State, j: Job)
    requires s.pc.Resolving?
  {
    && j in s.pc.left && j < |s.jobs| && s.jobs[j].phase.Done?
    && var left := s.pc.left - {j};
    if FinishedLate(s.jobs[j]) then t == s.(pc := Resolving(s.pc.done, left, s.pc.expired + {j}))
    else t == s.(pc := Resolving(s.pc.done, left, s.pc.expired), desk := Settle(s.desk, j, s.jobs[j].phase.result))
  }

  ghost predicate InspectOne(s: State, t: State, j: Job)
    requires s.pc.Inspecting?
  {
    && j in s.pc.left && j < |s.jobs|
    && t == s.(pc := Inspecting(s.pc.left - {j},
                                if Overdue(s.jobs[j], s.now) then s.pc.expired + {j} else s.pc.expired))
  }

  ghost predicate FlagOne(s: State, t: State, j: Job)
    requires s.pc.ExpiringAll?
  {
    // Whether or not the publication lock is free, the flag is set at once.
    && j in s.pc.left && j < |s.jobs|
    && t == Put(s, j, s.jobs[j].(cancelled := true)).(pc := ExpiringOne(j, s.pc.left - {j}))
  }

  ghost predicate ScanOne(s: State, t: State, j: Job)
    requires s.pc.Scanning?
  {
    && j in s.pc.left && j < |s.jobs|
    && t == s.(pc := Scanning(s.pc.left - {j},
                              if Running(s.jobs[j]) then s.pc.running + {j} else s.pc.running))
  }

  ghost predicate CancelOne(s: State, t: State, j: Job)
    requires s.pc.AbandoningAll?
  {
    && j in s.pc.left && j < |s.jobs|
    && var left := s.pc.left - {j};
    // future.cancel() loses the race against a worker that has claimed the job.
    if s.jobs[j].phase.Queued? then
      t == Put(s, j, s.jobs[j].(phase := Cancelled)).(pc := AbandoningOne(j, left))
    else
      t == s.(pc := AbandoningAll(left))
  }

  ghost predicate Next(s: State, t: State) {
    || (exists step :: WorkerNext(s, t, step))
    || SupervisorNext(s, t)
  }

  // ---------------------------------------------------------------- the invariant of every run

  // The job the loop is in the middle of writing off, if any.
  ghost function InHand(s: State): set<Job> {
    match s.pc
    case ExpiringOne(j, _) => {j}
    case AbandoningOne(j, _) => {j}
    case _ => {}
  }

  // Jobs the current poll has decided to expire.
  ghost function ToExpire(s: State): set<Job> {
    match s.pc
    case Resolving(_, _, expired) => expired
    case Inspecting(_, expired) => expired
    case ExpiringAll(left) => left
    case ExpiringOne(j, left) => left + {j}
    case _ => {}
  }

  /** What is true of one job and its entry in the books, whatever is in hand. */
  ghost predicate Booked(j: Job, js: JobState, d: Desk, now: int, inHand: set<Job>, toExpire: set<Job>) {
    && (j in d.pending <==> j !in d.completed)
    && (j in d.timedOut ==> j in d.completed && js.cancelled)
    && (j in d.abandoned ==> j in d.timedOut)
    && (js.cancelled ==> j in d.timedOut || j in inHand)
    && (j in d.timedOut ==>
          || (d.completed[j] == TIMEOUT_RESULT && Overdue(js, now))
          || (d.completed[j] == NOT_STARTED_RESULT && js.phase.Cancelled?))
    && (j in d.completed && j !in d.timedOut ==>
          js.phase.Done? && !FinishedLate(js) && d.completed[j] == js.phase.result)
    && (j in d.completed && Running(js) ==> j in d.abandoned)
    && (js.phase.Cancelled? ==> j in d.timedOut || j in inHand)
    && (js.publishing ==> js.phase.Working?)
    && (js.phase.Done? || js.phase.Completed? ==> js.phase.at <= now)
    && (j in toExpire ==> Overdue(js, now))
  }

  ghost predicate JobBooked(s: State, j: Job)
    requires j < |s.jobs|
  {
    Booked(j, s.jobs[j], s.desk, s.now, InHand(s), ToExpire(s))
  }

  ghost predicate PcWellFormed(s: State) {
    var d := s.desk;
    && ToExpire(s) + InHand(s) <= d.pending
    && match s.pc
       case Waiting(base) => base <= FinishedPending(s)
       case Resolving(done, left, expired) =>
         left <= done && left <= FinishedPending(s) && left !! expired && expired <= done
         && (forall j :: j in done && j in d.pending ==> j in left + expired)
       case Inspecting(left, expired) => left <= d.pending && left !! expired
       case ExpiringOne(j, left) => j !in left && j < |s.jobs| && s.jobs[j].cancelled
       case Scanning(left, running) => left + running <= AllJobs(s) && d.pending != {} && d.timedOut != {}
       case AbandoningAll(left) => left <= d.pending
       case AbandoningOne(j, left) => left <= d.pending && j !in left && j < |s.jobs| && s.jobs[j].phase.Cancelled?
       case Stopped => d.pending == {}
       case _ => true
  }

  ghost predicate Inv(s: State) {
    && s.workers >= 1
    && s.desk.pending + s.desk.completed.Keys + s.desk.timedOut + s.desk.abandoned <= AllJobs(s)
    && |Occupied(s)| <= s.workers
    && (forall j :: 0 <= j < |s.jobs| ==> JobBooked(s, j))
    && (forall e :: e in s.exports ==> e.ordinal < |s.jobs|)
    && PcWellFormed(s)
  }

  lemma InitInv(s: State)
    requires Init(s)
    ensures Inv(s)
  {
    assert Occupied(s) == {};
  }

  lemma OccupiedAfter(s: State, t: State, j: Job)
    requires j < |s.jobs| == |t.jobs|
    requires forall k :: 0 <= k < |s.jobs| && k != j ==> t.jobs[k] == s.jobs[k]
    ensures Occupied(t) == if Running(t.jobs[j]) then Occupied(s) + {j} else Occupied(s) - {j}
  {
  }

  lemma WorkerBooked(s: State, t: State, step: WorkerStep, k: Job)
    requires WorkerNext(s, t, step) && k < |s.jobs| && JobBooked(s, k)
    ensures |t.jobs| == |s.jobs| && JobBooked(t, k)
  {
    hide Occupied;
    if step.Tick? || k != step.job {
      assert t.jobs[k] == s.jobs[k];
    }
  }

  lemma WorkerNextInv(s: State, t: State, step: WorkerStep)
    requires Inv(s) && WorkerNext(s, t, step)
    ensures Inv(t)
  {
    forall k | 0 <= k < |t.jobs| ensures JobBooked(t, k) {
      assert JobBooked(s, k);
      WorkerBooked(s, t, step, k);
    }
    WorkerPc(s, t, step);
    WorkerCapacity(s, t, step);
  }

  lemma WorkerCapacity(s: State, t: State, step: WorkerStep)
    requires |Occupied(s)| <= s.workers && WorkerNext(s, t, step)
    ensures |Occupied(t)| <= t.workers
  {
    if step.Tick? {
      assert Occupied(t) == Occupied(s);
    } else {
      OccupiedAfter(s, t, step.job);
    }
  }

  lemma WorkerPc(s: State, t: State, step: WorkerStep)
    requires PcWellFormed(s) && WorkerNext(s, t, step)
    ensures PcWellFormed(t)
  {
    assert AllJobs(t) == AllJobs(s);
    assert FinishedPending(s) <= FinishedPending(t);
  }

  lemma ResolveOneKeeps(s: State, t: State, j: Job)
    requires s.pc.Resolving? && PcWellFormed(s) && ResolveOne(s, t, j)
    ensures PcWellFormed(t)
    ensures |t.jobs| == |s.jobs|
    ensures forall k | 0 <= k < |s.jobs| && JobBooked(s, k) :: JobBooked(t, k)
  {
    assert AllJobs(t) == AllJobs(s);
  }

  lemma InspectOneKeeps(s: State, t: State, j: Job)
    requires s.pc.Inspecting? && PcWellFormed(s) && InspectOne(s, t, j)
    ensures PcWellFormed(t)
    ensures |t.jobs| == |s.jobs|
    ensures forall k | 0 <= k < |s.jobs| && JobBooked(s, k) :: JobBooked(t, k)
  {
    assert AllJobs(t) == AllJobs(s);
  }

  lemma FlagOneKeeps(s: State, t: State, j: Job)
    requires s.pc.ExpiringAll? && PcWellFormed(s) && FlagOne(s, t, j)
    ensures PcWellFormed(t)
    ensures |t.jobs| == |s.jobs|
    ensures forall k | 0 <= k < |s.jobs| && JobBooked(s, k) :: JobBooked(t, k)
  {
    assert AllJobs(t) == AllJobs(s);
  }

  lemma ScanOneKeeps(s: State, t: State, j: Job)
    requires s.pc.Scanning? && PcWellFormed(s) && ScanOne(s, t, j)
    ensures PcWellFormed(t)
    ensures |t.jobs| == |s.jobs|
    ensures forall k | 0 <= k < |s.jobs| && JobBooked(s, k) :: JobBooked(t, k)
  {
    assert AllJobs(t) == AllJobs(s);
  }

  lemma CancelOneKeeps(s: State, t: State, j: Job)
    requires s.pc.AbandoningAll? && PcWellFormed(s) && CancelOne(s, t, j)
    ensures PcWellFormed(t)
    ensures |t.jobs| == |s.jobs|
    ensures forall k | 0 <= k < |s.jobs| && JobBooked(s, k) :: JobBooked(t, k)
  {
    assert AllJobs(t) == AllJobs(s);
  }

  // The steps that take nothing off a list.
  lemma TurnKeeps(s: State, t: State)
    requires PcWellFormed(s) && SupervisorNext(s, t)
    requires s.pc.Top? || s.pc.Waiting? || s.pc.ExpiringOne? || s.pc.AbandoningOne? || s.pc.left == {}
    ensures PcWellFormed(t)
    ensures |t.jobs| == |s.jobs|
    ensures forall k | 0 <= k < |s.jobs| && JobBooked(s, k) :: JobBooked(t, k)
  {
    assert AllJobs(t) == AllJobs(s);
  }

  lemma SupervisorKeeps(s: State, t: State)
    requires PcWellFormed(s) && SupervisorNext(s, t)
    ensures PcWellFormed(t)
    ensures |t.jobs| == |s.jobs|
    ensures forall k | 0 <= k < |s.jobs| && JobBooked(s, k) :: JobBooked(t, k)
  {
    match s.pc
    case Resolving(_, left, _) =>
      if left == {} { TurnKeeps(s, t); } else { var j :| ResolveOne(s, t, j); ResolveOneKeeps(s, t, j); }
    case Inspecting(left, _) =>
      if left == {} { TurnKeeps(s, t); } else { var j :| InspectOne(s, t, j); InspectOneKeeps(s, t, j); }
    case ExpiringAll(left) =>
      if left == {} { TurnKeeps(s, t); } else { var j :| FlagOne(s, t, j); FlagOneKeeps(s, t, j); }
    case Scanning(left, _) =>
      if left == {} { TurnKeeps(s, t); } else { var j :| ScanOne(s, t, j); ScanOneKeeps(s, t, j); }
    case AbandoningAll(left) =>
      if left == {} { TurnKeeps(s, t); } else { var j :| CancelOne(s, t, j); CancelOneKeeps(s, t, j); }
    case _ =>
      TurnKeeps(s, t);
  }

  lemma NextInv(s: State, t: State)
    requires Inv(s) && Next(s, t)
    ensures Inv(t)
    ensures |t.jobs| == |s.jobs|
    // A result, once booked, is never written again.
    ensures forall j | j in s.desk.completed :: j in t.desk.completed && t.desk.completed[j] == s.desk.completed[j]
  {
    if step :| WorkerNext(s, t, step) {
      WorkerNextInv(s, t, step);
    } else {
      SupervisorKeeps(s, t);
      forall k | 0 <= k < |t.jobs| ensures JobBooked(t, k) {
        assert JobBooked(s, k);
      }
      SupervisorFrame(s, t);
    }
  }

  lemma SupervisorFrame(s: State, t: State)
    requires Inv(s) && SupervisorNext(s, t)
    ensures t.workers == s.workers && t.exports == s.exports && t.scopes == s.scopes && t.now == s.now
    ensures |Occupied(t)| <= |Occupied(s)|
    ensures t.desk.pending + t.desk.completed.Keys + t.desk.timedOut + t.desk.abandoned <= AllJobs(t)
    ensures forall j | j in s.desk.completed :: j in t.desk.completed && t.desk.completed[j] == s.desk.completed[j]
  {
    assert forall j | j in s.desk.completed :: j !in s.desk.pending by {
      forall j | j in s.desk.completed ensures j !in s.desk.pending {
        assert JobBooked(s, j);
      }
    }
    assert AllJobs(t) == AllJobs(s);
    assert Occupied(t) <= Occupied(s);
    SubsetSize(Occupied(t), Occupied(s));
  }

  lemma {:induction false} SubsetSize<T>(a: set<T>, b: set<T>)
    requires a <= b
    ensures |a| <= |b|
    ensures |a| == |b| ==> a == b
  {
    var rest := b - a;
    assert b == a + rest;
    assert |b| == |a| + |rest|;
  }

  // ---------------------------------------------------------------- safety over whole runs

  ghost predicate IsRun(run: seq<State>) {
    && run != []
    && Init(run[0])
    && forall i :: 0 <= i < |run| - 1 ==> Next(run[i], run[i + 1])
  }

  lemma {:induction false} RunInv(run: seq<State>)
    requires IsRun(run)
    ensures Inv(run[|run| - 1]) && |run[|run| - 1].jobs| == |run[0].jobs|
  {
    if |run| == 1 {
      InitInv(run[0]);
    } else {
      var n := |run| - 1;
      RunInv(run[..n]);
      assert Next(run[n - 1], run[n - 1 + 1]);
      NextInv(run[n - 1], run[n]);
    }
  }

  /** Totality and exactly-once: in every state of every run after the loop has ended, late workers included. */
  lemma WhenSupervisionEnds(run: seq<State>)
    requires IsRun(run) && run[|run| - 1].pc.Stopped?
    ensures var s := run[|run| - 1];
            && s.desk.completed.Keys == AllJobs(s) && |s.jobs| == |run[0].jobs|
            && (forall j :: 0 <= j < |s.jobs| ==>
                  var r := s.desk.completed[j];
                  && (j in s.desk.timedOut <==> s.jobs[j].cancelled)
                  && (j in s.desk.timedOut ==>
                        r.findings == [] && r.skipped && r.incomplete
                        && (s.jobs[j].phase.Cancelled? || Overdue(s.jobs[j], s.now)))
                  && (j !in s.desk.timedOut ==>
                        s.jobs[j].phase.Done? && r == s.jobs[j].phase.result
                        && s.jobs[j].phase.at < SupervisionDeadline(s.jobs[j]))
                  && !s.jobs[j].phase.Queued?
                  && (Running(s.jobs[j]) ==> j in s.desk.abandoned))
  {
    RunInv(run);
    var s := run[|run| - 1];
    forall j | 0 <= j < |s.jobs|
      ensures JobBooked(s, j) && j in s.desk.completed
    {
    }
  }

  function JobList(n: nat): (r: seq<Ordinal>)
    ensures |r| == n && forall i :: 0 <= i < n ==> r[i] == i
  {
    seq(n, i => i)
  }

  /** What the engine reads from the ledgers after supervision: nothing of a timed-out worker, everything of the others. */
  lemma LedgersWhenSupervisionEnds(run: seq<State>, j: Job)
    requires IsRun(run) && run[|run| - 1].pc.Stopped? && j < |run[0].jobs|
    ensures var s := run[|run| - 1];
            && Of(FinalEntries(s.exports, JobList(|s.jobs|), s.desk.timedOut), j) ==
               (if j in s.desk.timedOut then [FailedEntry(j)] else Of(s.exports, j))
            && |s.jobs| == |run[0].jobs|
            && (j in LiveRecords(s.scopes, s.desk.timedOut) ==> s.jobs[j].phase.Done? && !FinishedLate(s.jobs[j]))
  {
    RunInv(run);
    var s := run[|run| - 1];
    hide IsRun, AllJobs, FinishedPending, Occupied;
    FinalEntriesPerJob(s.exports, JobList(|s.jobs|), s.desk.timedOut, j) by {
      assert JobList(|s.jobs|)[j] == j;
    }
    assert JobBooked(s, j);
  }

  /** A worker's report is refused only once its job is being written off. */
  lemma OnlyWrittenOffJobsAreSilenced(s: State, j: Job)
    requires Inv(s) && j < |s.jobs|
    ensures s.jobs[j].cancelled ==> j in s.desk.timedOut || j in InHand(s)
    ensures j in InHand(s) ==> s.jobs[j].phase.Cancelled? || Overdue(s.jobs[j], s.now)
  {
    assert JobBooked(s, j);
  }

  // ---------------------------------------------------------------- absence of deadlock

  /** The loop is never stuck, in particular not on the publication lock it takes for a cancelled job. */
  lemma SupervisorNeverBlocks(s: State)
    requires Inv(s) && !s.pc.Stopped?
    ensures exists t :: SupervisorNext(s, t)
  {
    var d := s.desk;
    match s.pc
    case Top =>
      assert SupervisorNext(s, if d.pending == {} then s.(pc := Stopped) else s.(pc := Waiting(FinishedPending(s))));
    case Waiting(base) =>
      assert SupervisorNext(s, s.(pc := Resolving(base, base, {})));
    case Resolving(done, left, expired) =>
      if left == {} {
        assert SupervisorNext(s, s.(pc := Inspecting(d.pending - done, expired)));
      } else {
        var j :| j in left;
        var rest := left - {j};
        var t := if FinishedLate(s.jobs[j]) then s.(pc := Resolving(done, rest, expired + {j}))
                 else s.(pc := Resolving(done, rest, expired), desk := Settle(d, j, s.jobs[j].phase.result));
        assert ResolveOne(s, t, j);
        assert SupervisorNext(s, t);
      }
    case Inspecting(left, expired) =>
      if left == {} {
        assert SupervisorNext(s, s.(pc := ExpiringAll(expired)));
      } else {
        var j :| j in left;
        var t := s.(pc := Inspecting(left - {j}, if Overdue(s.jobs[j], s.now) then expired + {j} else expired));
        assert InspectOne(s, t, j);
        assert SupervisorNext(s, t);
      }
    case ExpiringAll(left) =>
      if left == {} {
        assert SupervisorNext(s, s.(pc := if d.pending != {} && d.timedOut != {} then Scanning(AllJobs(s), {}) else Top));
      } else {
        var j :| j in left;
        var t := Put(s, j, s.jobs[j].(cancelled := true)).(pc := ExpiringOne(j, left - {j}));
        assert FlagOne(s, t, j);
        assert SupervisorNext(s, t);
      }
    case ExpiringOne(j, left) =>
      assert SupervisorNext(s, s.(pc := ExpiringAll(left), desk := Expire(d, j, Running(s.jobs[j]))));
    case Scanning(left, running) =>
      if left == {} {
        assert SupervisorNext(s, s.(pc := if |running| >= s.workers && running <= d.timedOut
                                           then AbandoningAll(d.pending) else Top));
      } else {
        var j :| j in left;
        var t := s.(pc := Scanning(left - {j}, if Running(s.jobs[j]) then running + {j} else running));
        assert ScanOne(s, t, j);
        assert SupervisorNext(s, t);
      }
    case AbandoningAll(left) =>
      if left == {} {
        assert SupervisorNext(s, s.(pc := Top));
      } else {
        var j :| j in left;
        var t := if s.jobs[j].phase.Queued?
                 then Put(s, j, s.jobs[j].(phase := Cancelled)).(pc := AbandoningOne(j, left - {j}))
                 else s.(pc := AbandoningAll(left - {j}));
        assert CancelOne(s, t, j);
        assert SupervisorNext(s, t);
      }
    case AbandoningOne(j, left) =>
      assert JobBooked(s, j);
      assert SupervisorNext(s, Put(s, j, s.jobs[j].(cancelled := true)).(pc := AbandoningAll(left),
                                                                         desk := AbandonQueued(d, j)));
  }

  ghost predicate SlotFree(s: State) {
    && |Occupied(s)| < s.workers
    && exists j :: 0 <= j < |s.jobs| && s.jobs[j].phase.Queued?
  }

  ghost predicate OverdueWorkersFill(s: State) {
    |Occupied(s)| == s.workers && Occupied(s) <= s.desk.timedOut && s.desk.timedOut != {}
  }

  /** While a job is pending, something ends its wait: a worker that holds it, a free slot, or the next capacity check. */
  lemma PendingJobsHaveAnExit(s: State)
    requires Inv(s) && s.desk.pending != {}
    ensures || (exists j :: j in s.desk.pending && j < |s.jobs| && !s.jobs[j].phase.Queued?)
            || SlotFree(s)
            || (OverdueWorkersFill(s) && forall j :: j in s.desk.pending ==> s.jobs[j].phase.Queued?)
  {
    if forall j :: j in s.desk.pending ==> s.jobs[j].phase.Queued? {
      var q :| q in s.desk.pending;
      forall j | j in Occupied(s) ensures j in s.desk.timedOut {
        assert JobBooked(s, j);
      }
      assert |Occupied(s)| == s.workers ==> Occupied(s) != {};
    }
  }
}
