/** One turn of the interleaved loop does to the supervisor's fields what SupervisionDesk.AfterPoll says, for readings that
    were really taken on the way: worker steps between two reads show in what is read, and in nothing else. */
module PollRefinement {
  import opened Supervision
  import opened SupervisionDesk

  // ---------------------------------------------------------------- a turn of the loop, and its readings

  ghost predicate OnePoll(run: seq<State>) {
    && |run| >= 2 && Inv(run[0])
    && run[0].pc.Top? && run[1].pc.Waiting? && run[|run| - 1].pc.Top?
    && (forall i :: 0 < i < |run| - 1 ==> !run[i].pc.Top?)
    && (forall i :: 0 <= i < |run| - 1 ==> Next(run[i], run[i + 1]))
  }

  // js is what job j was at some time of the run.
  ghost predicate Seen(run: seq<State>, j: Job, js: JobState) {
    exists i :: 0 <= i < |run| && j < |run[i].jobs| && run[i].jobs[j] == js
  }

  ghost predicate SeenAt(run: seq<State>, j: Job, js: JobState, now: int) {
    exists i :: 0 <= i < |run| && j < |run[i].jobs| && run[i].jobs[j] == js && run[i].now == now
  }

  ghost predicate Taken(run: seq<State>, r: Readings) {
    && |r.atResolve| == |r.atInspect| == |r.clock| == |r.atExpire| == |r.atScan| == |r.atCancel|
    && forall j :: 0 <= j < |r.atResolve| ==>
         && Seen(run, j, r.atResolve[j]) && SeenAt(run, j, r.atInspect[j], r.clock[j]) && Seen(run, j, r.atExpire[j])
         && Seen(run, j, r.atScan[j]) && Seen(run, j, r.atCancel[j])
  }

  // ---------------------------------------------------------------- where the loop is in its turn

  ghost function Expired(d: Desk, r: Readings): set<Job>
    requires Readable(d, r)
  {
    Late(d, r) + Overrun(d, r)
  }

  ghost function Written(d: Desk, r: Readings): Desk
    requires Readable(d, r)
  {
    AfterWritingOff(AfterSettling(d, r), Expired(d, r), r.atExpire)
  }

  ghost function Dropped(from: set<Job>, states: seq<JobState>): set<Job>
    requires forall j :: j in from ==> j < |states|
  {
    set j | j in from && states[j].phase.Queued?
  }

  ghost function GivenUp(d: Desk, dropped: set<Job>): Desk {
    d.(pending := d.pending - dropped, completed := d.completed + (map j | j in dropped :: NOT_STARTED_RESULT),
       timedOut := d.timedOut + dropped)
  }

  ghost predicate AtResolving(d: Desk, r: Readings, desk: Desk, done: set<Job>, left: set<Job>, expired: set<Job>)
    requires Readable(d, r)
  {
    && done == r.done && left <= done && expired == Late(d, r) - left
    && desk == Settled(d, done - left - expired, r.atResolve)
  }

  ghost predicate AtInspecting(d: Desk, r: Readings, desk: Desk, left: set<Job>, expired: set<Job>)
    requires Readable(d, r)
  {
    left <= d.pending - r.done && expired == Late(d, r) + (Overrun(d, r) - left) && desk == AfterSettling(d, r)
  }

  ghost predicate AtExpiring(d: Desk, r: Readings, desk: Desk, left: set<Job>, inHand: set<Job>)
    requires Readable(d, r)
  {
    && left + inHand <= Expired(d, r) && left !! inHand
    && desk == AfterWritingOff(AfterSettling(d, r), Expired(d, r) - left - inHand, r.atExpire)
  }

  ghost predicate AtScanning(d: Desk, r: Readings, desk: Desk, left: set<Job>, running: set<Job>)
    requires Readable(d, r)
  {
    && desk == Written(d, r) && desk.pending != {} && desk.timedOut != {}
    && running == (set j: Job | j < |r.atScan| && Running(r.atScan[j])) - left
  }

  ghost predicate AtAbandoning(d: Desk, r: Readings, workers: nat, desk: Desk, left: set<Job>, inHand: set<Job>)
    requires Readable(d, r)
  {
    && GivesUp(d, r, workers) && left + inHand <= Written(d, r).pending && left !! inHand
    && (forall j :: j in inHand ==> r.atCancel[j].phase.Queued?)
    && desk == GivenUp(Written(d, r), Dropped(Written(d, r).pending - left - inHand, r.atCancel))
  }

  // The loop has come this far from the fields d, having read r so far.
  ghost predicate Reached(d: Desk, r: Readings, s: State) {
    && |r.atResolve| == |s.jobs| && Readable(d, r)
    && match s.pc
       case Top => s.desk == AfterPoll(d, r, s.workers)
       case Waiting(_) => s.desk == d
       case Resolving(done, left, expired) => AtResolving(d, r, s.desk, done, left, expired)
       case Inspecting(left, expired) => AtInspecting(d, r, s.desk, left, expired)
       case ExpiringAll(left) => AtExpiring(d, r, s.desk, left, {})
       case ExpiringOne(j, left) => AtExpiring(d, r, s.desk, left, {j})
       case Scanning(left, running) => AtScanning(d, r, s.desk, left, running)
       case AbandoningAll(left) => AtAbandoning(d, r, s.workers, s.desk, left, {})
       case AbandoningOne(j, left) => AtAbandoning(d, r, s.workers, s.desk, left, {j})
       case Stopped => false
  }

  ghost predicate GivesUp(d: Desk, r: Readings, workers: nat)
    requires Readable(d, r)
  {
    var e := Written(d, r);
    e.pending != {} && e.timedOut != {} && Exhausted(r.atScan, e.timedOut, workers)
  }

  // ---------------------------------------------------------------- one step

  // The readings r, with what this step has read of job j put in.
  ghost predicate ReadsOf(r: Readings, q: Readings, s: State) {
    && |q.atResolve| == |r.atResolve| == |r.atInspect| == |q.atInspect| == |r.clock| == |q.clock| == |r.atExpire| == |q.atExpire|
    && |q.atResolve| == |r.atScan| == |q.atScan| == |r.atCancel| == |q.atCancel| == |s.jobs|
    && forall j :: 0 <= j < |s.jobs| ==>
         && (q.atResolve[j] == r.atResolve[j] || q.atResolve[j] == s.jobs[j])
         && ((q.atInspect[j] == r.atInspect[j] && q.clock[j] == r.clock[j]) || (q.atInspect[j] == s.jobs[j] && q.clock[j] == s.now))
         && (q.atExpire[j] == r.atExpire[j] || q.atExpire[j] == s.jobs[j])
         && (q.atScan[j] == r.atScan[j] || q.atScan[j] == s.jobs[j])
         && (q.atCancel[j] == r.atCancel[j] || q.atCancel[j] == s.jobs[j])
  }

  lemma WorkerReads(d: Desk, r: Readings, s: State, t: State, step: WorkerStep)
    requires Reached(d, r, s) && !s.pc.Top? && WorkerNext(s, t, step)
    ensures Reached(d, r, t) && t.workers == s.workers
  {
    hide AtResolving, AtInspecting, AtExpiring, AtScanning, AtAbandoning;
    assert t.pc == s.pc && t.desk == s.desk && t.workers == s.workers && |t.jobs| == |s.jobs| by { hide Occupied, Reached; }
    assert AllJobs(t) == AllJobs(s);
    hide WorkerNext, AllJobs;
  }

  lemma SettledIgnores(d: Desk, kept: set<Job>, a: seq<JobState>, b: seq<JobState>)
    requires forall j :: j in kept ==> j < |a| && j < |b| && a[j] == b[j] && a[j].phase.Done?
    ensures Settled(d, kept, a) == Settled(d, kept, b)
  {
    var e, f := Settled(d, kept, a), Settled(d, kept, b);
    assert e.completed == f.completed;
  }

  lemma SettleOf(d: Desk, kept: set<Job>, j: Job, a: seq<JobState>, b: seq<JobState>)
    requires |a| == |b| && j < |b| && b[j].phase.Done? && j !in kept
    requires forall k :: k in kept ==> k < |a| && a[k].phase.Done? && a[k] == b[k]
    ensures Settled(d, kept, b) == Settled(d, kept, a)
    ensures Settled(d, kept + {j}, b) == Settle(Settled(d, kept, a), j, b[j].phase.result)
  {
    SettledIgnores(d, kept, a, b);
    SettleOneMore(d, kept, j, b);
  }

  lemma ResolveReads(d: Desk, r: Readings, s: State, t: State, j: Job) returns (q: Readings)
    requires Reached(d, r, s) && s.pc.Resolving? && ResolveOne(s, t, j)
    ensures Reached(d, q, t) && ReadsOf(r, q, s)
  {
    hide AtInspecting, AtExpiring, AtScanning, AtAbandoning;
    q := r.(atResolve := r.atResolve[j := s.jobs[j]]);
    hide Overrun, Settled, Settle, Overdue, AfterPoll, AfterSettling, GivesUp, AllJobs;
    var kept := s.pc.done - s.pc.left - s.pc.expired;
    SettleOf(d, kept, j, r.atResolve, q.atResolve);
    assert t.pc.expired == Late(d, q) - t.pc.left;
    assert t.pc.done - t.pc.left - t.pc.expired == if FinishedLate(s.jobs[j]) then kept else kept + {j};
  }

  lemma InspectReads(d: Desk, r: Readings, s: State, t: State, j: Job) returns (q: Readings)
    requires Reached(d, r, s) && s.pc.Inspecting? && InspectOne(s, t, j)
    ensures Reached(d, q, t) && ReadsOf(r, q, s)
  {
    hide AtResolving, AtExpiring, AtScanning, AtAbandoning;
    q := r.(atInspect := r.atInspect[j := s.jobs[j]], clock := r.clock[j := s.now]);
    assert Late(d, q) == Late(d, r);
    assert Overrun(d, q) - t.pc.left == (Overrun(d, r) - s.pc.left) + (if Overdue(s.jobs[j], s.now) then {j} else {});
    assert AfterSettling(d, q) == AfterSettling(d, r);
  }

  lemma WriteOffIgnores(d: Desk, expired: set<Job>, a: seq<JobState>, b: seq<JobState>)
    requires forall j :: j in expired ==> j < |a| && j < |b| && a[j] == b[j]
    ensures AfterWritingOff(d, expired, a) == AfterWritingOff(d, expired, b)
  {
    var e, f := AfterWritingOff(d, expired, a), AfterWritingOff(d, expired, b);
    assert e.abandoned == f.abandoned;
  }

  lemma FlagReads(d: Desk, r: Readings, s: State, t: State, j: Job)
    requires Reached(d, r, s) && s.pc.ExpiringAll? && FlagOne(s, t, j)
    ensures Reached(d, r, t)
  {
    hide AtResolving, AtInspecting, AtScanning, AtAbandoning;
    hide Late, Overrun, AfterSettling, AfterWritingOff;
    assert Expired(d, r) - s.pc.left - {} == Expired(d, r) - t.pc.left - {j};
  }

  lemma ExpireReads(d: Desk, r: Readings, s: State, t: State) returns (q: Readings)
    requires Reached(d, r, s) && s.pc.ExpiringOne? && SupervisorNext(s, t)
    ensures Reached(d, q, t) && ReadsOf(r, q, s)
  {
    hide AtResolving, AtInspecting, AtScanning, AtAbandoning;
    var j, left := s.pc.job, s.pc.left;
    q := r.(atExpire := r.atExpire[j := s.jobs[j]]);
    var settled, taken := AfterSettling(d, r), Expired(d, r) - left - {j};
    assert AfterSettling(d, q) == settled && Expired(d, q) == Expired(d, r);
    WriteOffIgnores(settled, taken, r.atExpire, q.atExpire);
    WriteOffOneMore(settled, taken, j, q.atExpire);
    assert Expired(d, q) - left - {} == taken + {j};
  }

  lemma ScanReads(d: Desk, r: Readings, s: State, t: State, j: Job) returns (q: Readings)
    requires Reached(d, r, s) && s.pc.Scanning? && ScanOne(s, t, j)
    ensures Reached(d, q, t) && ReadsOf(r, q, s)
  {
    hide AtResolving, AtInspecting, AtExpiring, AtAbandoning;
    q := r.(atScan := r.atScan[j := s.jobs[j]]);
    assert Written(d, q) == Written(d, r);
    assert AllJobs(t) == AllJobs(s);
  }

  lemma DropOneMore(e: Desk, dropped: set<Job>, j: Job)
    ensures GivenUp(e, dropped + {j}) == AbandonQueued(GivenUp(e, dropped), j)
  {
    var x, y := GivenUp(e, dropped + {j}), AbandonQueued(GivenUp(e, dropped), j);
    assert x.completed == y.completed;
    assert x.pending == y.pending;
  }

  lemma CancelOfWritten(d: Desk, r: Readings, q: Readings, workers: nat, desk: Desk, left: set<Job>, j: Job)
    requires Readable(d, r) && AtAbandoning(d, r, workers, desk, left, {}) && j in left && j < |q.atCancel|
    requires q == r.(atCancel := r.atCancel[j := q.atCancel[j]])
    ensures Readable(d, q)
    ensures AtAbandoning(d, q, workers, desk, left - {j}, if q.atCancel[j].phase.Queued? then {j} else {})
  {
    var e := Written(d, r);
    WrittenIsReadable(d, r);
    assert Readable(d, q) && Written(d, q) == e && (GivesUp(d, q, workers) <==> GivesUp(d, r, workers));
    hide Written, Readable, GivesUp, GivenUp;
    var rest := left - {j};
    assert e.pending - rest - {j} == e.pending - left - {};
    SameDropped(e.pending - left - {}, r.atCancel, q.atCancel);
    if !q.atCancel[j].phase.Queued? {
      assert Dropped(e.pending - rest - {}, q.atCancel) == Dropped(e.pending - left - {}, q.atCancel);
    }
  }

  lemma SameDropped(from: set<Job>, a: seq<JobState>, b: seq<JobState>)
    requires forall j :: j in from ==> j < |a| && j < |b| && a[j] == b[j]
    ensures Dropped(from, a) == Dropped(from, b)
  {
  }

  lemma CancelReading(r: Readings, s: State, j: Job) returns (q: Readings)
    requires |r.atResolve| == |r.atInspect| == |r.clock| == |r.atExpire| == |r.atScan| == |r.atCancel| == |s.jobs| && j < |s.jobs|
    ensures q == r.(atCancel := r.atCancel[j := s.jobs[j]]) && ReadsOf(r, q, s)
  {
    q := r.(atCancel := r.atCancel[j := s.jobs[j]]);
  }

  lemma CancelReads(d: Desk, r: Readings, s: State, t: State, j: Job) returns (q: Readings)
    requires Reached(d, r, s) && s.pc.AbandoningAll? && CancelOne(s, t, j)
    ensures Reached(d, q, t) && ReadsOf(r, q, s)
  {
    hide AtResolving, AtInspecting, AtExpiring, AtScanning, AtAbandoning, AfterPoll, ReadsOf;
    q := CancelReading(r, s, j);
    hide Readable;
    CancelOfWritten(d, r, q, s.workers, s.desk, s.pc.left, j);
  }

  lemma DropStep(s: State, t: State)
    requires s.pc.AbandoningOne? && SupervisorNext(s, t)
    ensures t.pc == AbandoningAll(s.pc.left) && t.desk == AbandonQueued(s.desk, s.pc.job)
    ensures |t.jobs| == |s.jobs| && t.workers == s.workers
  {
  }

  lemma DropOf(e: Desk, left: set<Job>, j: Job, states: seq<JobState>)
    requires (forall k :: k in e.pending ==> k < |states|) && j in e.pending && j !in left && states[j].phase.Queued?
    ensures GivenUp(e, Dropped(e.pending - left - {}, states)) ==
            AbandonQueued(GivenUp(e, Dropped(e.pending - left - {j}, states)), j)
  {
    DropOneMore(e, Dropped(e.pending - left - {j}, states), j);
    assert Dropped(e.pending - left - {}, states) == Dropped(e.pending - left - {j}, states) + {j};
  }

  lemma DropOfWritten(d: Desk, r: Readings, workers: nat, desk: Desk, left: set<Job>, j: Job)
    requires Readable(d, r) && AtAbandoning(d, r, workers, desk, left, {j})
    ensures AtAbandoning(d, r, workers, AbandonQueued(desk, j), left, {})
  {
    WrittenIsReadable(d, r);
    hide Written, Readable, AbandonQueued, GivenUp, Dropped, GivesUp;
    assert j in {j};
    DropOf(Written(d, r), left, j, r.atCancel);
  }

  lemma DropReads(d: Desk, r: Readings, s: State, t: State)
    requires Reached(d, r, s) && s.pc.AbandoningOne? && SupervisorNext(s, t)
    ensures Reached(d, r, t)
  {
    hide AtResolving, AtInspecting, AtExpiring, AtScanning, AtAbandoning, SupervisorNext, AbandonQueued, Readable, AfterPoll;
    DropStep(s, t);
    DropOfWritten(d, r, s.workers, s.desk, s.pc.left, s.pc.job);
  }

  lemma WrittenIsReadable(d: Desk, r: Readings)
    requires Readable(d, r)
    ensures forall j :: j in Written(d, r).pending ==> j < |r.atCancel|
  {
  }

  lemma WaitReads(d: Desk, r: Readings, s: State, t: State) returns (q: Readings)
    requires Reached(d, r, s) && s.pc.Waiting? && SupervisorNext(s, t)
    ensures Reached(d, q, t) && ReadsOf(r, q, s)
  {
    hide AtInspecting, AtExpiring, AtScanning, AtAbandoning;
    q := r.(done := t.pc.done, atResolve := s.jobs);
    assert t.pc.done <= d.pending;
    SettleNone(d, q.atResolve);
    assert t.pc.done - t.pc.left - t.pc.expired == {};
  }

  lemma ResolvingEnds(d: Desk, r: Readings, s: State, t: State)
    requires Reached(d, r, s) && s.pc.Resolving? && s.pc.left == {} && SupervisorNext(s, t)
    ensures Reached(d, r, t)
  {
    hide AtExpiring, AtScanning, AtAbandoning;
    assert s.pc.expired == Late(d, r);
    assert s.pc.done - s.pc.left - s.pc.expired == r.done - Late(d, r);
    assert t.pc.left == d.pending - r.done;
    assert Overrun(d, r) - t.pc.left == {};
  }

  lemma NothingWrittenOff(d: Desk, states: seq<JobState>)
    ensures AfterWritingOff(d, {}, states) == d
  {
  }

  lemma InspectingEnds(d: Desk, r: Readings, s: State, t: State)
    requires Reached(d, r, s) && s.pc.Inspecting? && s.pc.left == {} && SupervisorNext(s, t)
    ensures Reached(d, r, t)
  {
    hide AtResolving, AtScanning, AtAbandoning;
    assert t.pc.left == Expired(d, r);
    assert Expired(d, r) - t.pc.left - {} == {};
    NothingWrittenOff(AfterSettling(d, r), r.atExpire);
  }

  lemma ExpiringEnds(d: Desk, r: Readings, s: State, t: State)
    requires Reached(d, r, s) && s.pc.ExpiringAll? && s.pc.left == {} && SupervisorNext(s, t)
    ensures Reached(d, r, t)
  {
    hide AtResolving, AtInspecting, AtAbandoning;
    assert Expired(d, r) - s.pc.left - {} == Expired(d, r);
    assert s.desk == Written(d, r);
    forall j: Job | j < |s.jobs| ensures j in AllJobs(s) { assert IsJob(s, j); }
    hide Written, Readable, Late, Overrun;
    if t.pc.Scanning? {
      assert AllJobs(t) == AllJobs(s);
      assert (set j: Job | j < |r.atScan| && Running(r.atScan[j])) - t.pc.left == {};
    }
  }

  lemma ScanningStep(s: State, t: State)
    requires s.pc.Scanning? && s.pc.left == {} && SupervisorNext(s, t)
    ensures t == s.(pc := if |s.pc.running| >= s.workers && s.pc.running <= s.desk.timedOut then AbandoningAll(s.desk.pending) else Top)
  {
  }

  lemma ScanDecides(d: Desk, r: Readings, workers: nat, desk: Desk, running: set<Job>)
    requires Readable(d, r) && AtScanning(d, r, desk, {}, running)
    ensures if |running| >= workers && running <= desk.timedOut then AtAbandoning(d, r, workers, desk, desk.pending, {})
            else desk == AfterPoll(d, r, workers)
  {
    GivesUpOrNot(d, r, workers);
    var e, busy := Written(d, r), set j: Job | j < |r.atScan| && Running(r.atScan[j]);
    assert running == busy;
    assert Exhausted(r.atScan, e.timedOut, workers) <==> |busy| >= workers && busy <= e.timedOut;
    WrittenIsReadable(d, r);
    hide Written, Readable, AfterPoll, Exhausted, Dropped, GivenUp, Running;
    NothingGivenUp(e, r.atCancel);
    assert e.pending + {} <= e.pending;
  }

  lemma ScanningEnds(d: Desk, r: Readings, s: State, t: State)
    requires Reached(d, r, s) && s.pc.Scanning? && s.pc.left == {} && SupervisorNext(s, t)
    ensures Reached(d, r, t)
  {
    hide AtResolving, AtInspecting, AtExpiring, AtScanning, AtAbandoning, SupervisorNext, Readable, AfterPoll;
    ScanningStep(s, t);
    ScanDecides(d, r, s.workers, s.desk, s.pc.running);
  }

  lemma GivesUpOrNot(d: Desk, r: Readings, workers: nat)
    requires Readable(d, r)
    ensures AfterPoll(d, r, workers) ==
            if GivesUp(d, r, workers) then AfterAbandoning(Written(d, r), r.atCancel) else Written(d, r)
  {
  }

  lemma NothingGivenUp(e: Desk, states: seq<JobState>)
    ensures Dropped(e.pending - e.pending - {}, states) == {} && GivenUp(e, {}) == e
  {
  }

  lemma AbandoningEnds(d: Desk, r: Readings, s: State, t: State)
    requires Reached(d, r, s) && s.pc.AbandoningAll? && s.pc.left == {} && SupervisorNext(s, t)
    ensures Reached(d, r, t)
  {
    hide AtResolving, AtInspecting, AtExpiring, AtScanning;
    var e := Written(d, r);
    assert e.pending - s.pc.left - {} == e.pending;
    hide Written, Readable, Late, Overrun, AllJobs, Running;
  }

  lemma NothingRead(r: Readings, s: State)
    requires |r.atResolve| == |r.atInspect| == |r.clock| == |r.atExpire| == |r.atScan| == |r.atCancel| == |s.jobs|
    ensures ReadsOf(r, r, s)
  {
  }

  lemma SupervisorReads(d: Desk, r: Readings, s: State, t: State) returns (q: Readings)
    requires Reached(d, r, s) && !s.pc.Top? && SupervisorNext(s, t)
    ensures Reached(d, q, t) && ReadsOf(r, q, s) && t.workers == s.workers
  {
    q := r;
    NothingRead(r, s);
    assert t.workers == s.workers by { SupervisorKeepsWorkers(s, t); }
    hide Reached, ReadsOf;
    match s.pc
    case Waiting(_) => q := WaitReads(d, r, s, t);
    case Resolving(_, left, _) =>
      if left == {} { ResolvingEnds(d, r, s, t); } else { var j :| ResolveOne(s, t, j); q := ResolveReads(d, r, s, t, j); }
    case Inspecting(left, _) =>
      if left == {} { InspectingEnds(d, r, s, t); } else { var j :| InspectOne(s, t, j); q := InspectReads(d, r, s, t, j); }
    case ExpiringAll(left) =>
      if left == {} { ExpiringEnds(d, r, s, t); } else { var j :| FlagOne(s, t, j); FlagReads(d, r, s, t, j); }
    case ExpiringOne(_, _) => q := ExpireReads(d, r, s, t);
    case Scanning(left, _) =>
      if left == {} { ScanningEnds(d, r, s, t); } else { var j :| ScanOne(s, t, j); q := ScanReads(d, r, s, t, j); }
    case AbandoningAll(left) =>
      if left == {} { AbandoningEnds(d, r, s, t); } else { var j :| CancelOne(s, t, j); q := CancelReads(d, r, s, t, j); }
    case AbandoningOne(_, _) => DropReads(d, r, s, t);
  }

  lemma SupervisorKeepsWorkers(s: State, t: State)
    requires SupervisorNext(s, t)
    ensures t.workers == s.workers
  {
    hide AllJobs, FinishedPending;
  }

  // ---------------------------------------------------------------- the whole turn

  lemma TakesMore(run: seq<State>, k: nat, r: Readings, q: Readings)
    requires k < |run| && Taken(run, r) && ReadsOf(r, q, run[k])
    ensures Taken(run, q)
  {
    forall j | 0 <= j < |q.atResolve|
      ensures Seen(run, j, q.atResolve[j]) && SeenAt(run, j, q.atInspect[j], q.clock[j]) && Seen(run, j, q.atExpire[j])
      ensures Seen(run, j, q.atScan[j]) && Seen(run, j, q.atCancel[j])
    {
      assert Seen(run, j, run[k].jobs[j]) && SeenAt(run, j, run[k].jobs[j], run[k].now);
      hide Seen, SeenAt;
    }
  }

  lemma TurnBegins(run: seq<State>) returns (r: Readings)
    requires OnePoll(run)
    ensures Reached(run[0].desk, r, run[1]) && Taken(run, r) && run[1].workers == run[0].workers
  {
    hide AtResolving, AtInspecting, AtExpiring, AtScanning, AtAbandoning;
    var s, t := run[0], run[1];
    var d := s.desk;
    assert Next(s, t);
    hide WorkerNext, AllJobs, Occupied;
    r := Readings({}, s.jobs, s.jobs, seq(|s.jobs|, _ => s.now), s.jobs, s.jobs, s.jobs);
  }

  lemma StepOfPoll(run: seq<State>, k: nat)
    requires OnePoll(run) && 0 < k < |run| - 1
    ensures Next(run[k], run[k + 1]) && !run[k].pc.Top?
  {
    hide Next, Inv;
  }

  lemma StepReads(d: Desk, r: Readings, s: State, t: State) returns (q: Readings)
    requires Reached(d, r, s) && !s.pc.Top? && Next(s, t)
    ensures Reached(d, q, t) && t.workers == s.workers && (q == r || ReadsOf(r, q, s))
  {
    hide Reached, ReadsOf, WorkerNext, SupervisorNext;
    if step :| WorkerNext(s, t, step) {
      WorkerReads(d, r, s, t, step);
      q := r;
    } else {
      q := SupervisorReads(d, r, s, t);
    }
  }

  lemma {:induction false} PollSoFar(run: seq<State>, n: nat) returns (r: Readings)
    requires OnePoll(run) && 1 <= n < |run|
    ensures Reached(run[0].desk, r, run[n]) && Taken(run, r) && run[n].workers == run[0].workers
    decreases n
  {
    hide OnePoll, Reached, Taken, ReadsOf, Next;
    if n == 1 {
      r := TurnBegins(run);
    } else {
      var q := PollSoFar(run, n - 1);
      StepOfPoll(run, n - 1);
      r := StepReads(run[0].desk, q, run[n - 1], run[n]);
      if r != q { TakesMore(run, n - 1, q, r); }
    }
  }

  /** A turn of the loop, worker steps and clock included, ends with what AfterPoll makes of readings taken during it. */
  lemma TurnRefinesPoll(run: seq<State>) returns (r: Readings)
    requires OnePoll(run)
    ensures Taken(run, r) && Readable(run[0].desk, r)
    ensures run[|run| - 1].desk == AfterPoll(run[0].desk, r, run[0].workers)
  {
    hide Taken, AfterPoll;
    assert run[|run| - 1].pc.Top? && |run| >= 2;
    hide OnePoll;
    r := PollSoFar(run, |run| - 1);
  }
}
