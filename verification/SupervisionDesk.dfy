/** The supervisor object itself: the fields _Supervisor updates, and one poll of its loop against what it reads. */
module SupervisionDesk {
  import opened Supervision

  /** What one poll reads, loop by loop; the worker threads move on between the loops. */
  datatype Readings = Readings(
    done: set<Job>,               // what wait() returned
    atResolve: seq<JobState>,     // job states while the finished futures are settled
    atInspect: seq<JobState>,     // while the others' deadlines are checked
    clock: seq<int>,              // the clock at each of these checks
    atExpire: seq<JobState>,      // while expired calls are written off
    atScan: seq<JobState>,        // while occupied worker slots are counted
    atCancel: seq<JobState>)      // while the queue is cancelled

  ghost predicate Readable(d: Desk, r: Readings) {
    && |r.atResolve| == |r.atInspect| == |r.clock| == |r.atExpire| == |r.atScan| == |r.atCancel|
    && r.done <= d.pending
    && (forall j :: j in d.pending ==> j < |r.atResolve|)
    && (forall j :: j in r.done ==> r.atResolve[j].phase.Done?)
  }

  ghost function Late(d: Desk, r: Readings): set<Job>
    requires Readable(d, r)
  {
    set j | j in r.done && FinishedLate(r.atResolve[j])
  }

  ghost function Overrun(d: Desk, r: Readings): set<Job>
    requires Readable(d, r)
  {
    set j | j in d.pending - r.done && Overdue(r.atInspect[j], r.clock[j])
  }

  ghost function Settled(d: Desk, kept: set<Job>, states: seq<JobState>): Desk
    requires forall j :: j in kept ==> j < |states| && states[j].phase.Done?
  {
    d.(pending := d.pending - kept, completed := d.completed + map j | j in kept :: states[j].phase.result)
  }

  // Futures wait() returned are settled, unless they finished late.
  ghost function AfterSettling(d: Desk, r: Readings): Desk
    requires Readable(d, r)
  {
    Settled(d, r.done - Late(d, r), r.atResolve)
  }

  ghost function AfterWritingOff(d: Desk, expired: set<Job>, states: seq<JobState>): Desk
    requires forall j :: j in expired ==> j < |states|
  {
    Desk(d.pending - expired, d.completed + (map j | j in expired :: TIMEOUT_RESULT), d.timedOut + expired,
         d.abandoned + set j | j in expired && Running(states[j]))
  }

  ghost function AfterAbandoning(d: Desk, states: seq<JobState>): Desk
    requires forall j :: j in d.pending ==> j < |states|
  {
    var dropped := set j | j in d.pending && states[j].phase.Queued?;
    d.(pending := d.pending - dropped, completed := d.completed + (map j | j in dropped :: NOT_STARTED_RESULT),
       timedOut := d.timedOut + dropped)
  }

  // The queue is given up only when every worker slot is held by a call that has timed out.
  ghost predicate Exhausted(states: seq<JobState>, timedOut: set<Job>, workers: nat) {
    var busy := set j: Job | j < |states| && Running(states[j]);
    |busy| >= workers && busy <= timedOut
  }

  ghost function AfterPoll(d: Desk, r: Readings, workers: nat): Desk
    requires Readable(d, r)
  {
    var e := AfterWritingOff(AfterSettling(d, r), Late(d, r) + Overrun(d, r), r.atExpire);
    if e.pending != {} && e.timedOut != {} && Exhausted(r.atScan, e.timedOut, workers)
    then AfterAbandoning(e, r.atCancel) else e
  }

  /** Every pending job gets at most one outcome from a poll: its own result exactly when wait() returned it and it
      finished in time; what was booked before stays booked as it was. */
  lemma PollDecidesOnce(d: Desk, r: Readings, workers: nat, j: Job)
    requires Readable(d, r) && d.completed.Keys !! d.pending && d.timedOut <= d.completed.Keys
    ensures var t := AfterPoll(d, r, workers);
            && t.pending <= d.pending && t.completed.Keys == d.completed.Keys + (d.pending - t.pending)
            && t.timedOut <= t.completed.Keys
            && (j in d.completed ==> t.completed[j] == d.completed[j])
            && (j in r.done && !FinishedLate(r.atResolve[j]) <==>
                  j in d.pending && j in t.completed && j !in t.timedOut)
            && (j in r.done && !FinishedLate(r.atResolve[j]) ==> t.completed[j] == r.atResolve[j].phase.result)
            && (j in t.timedOut - d.timedOut ==>
                  && t.completed[j].findings == [] && t.completed[j].skipped && t.completed[j].incomplete
                  && (t.completed[j] == TIMEOUT_RESULT <==> j in Late(d, r) + Overrun(d, r))
                  && (t.completed[j] == NOT_STARTED_RESULT ==> r.atCancel[j].phase.Queued?))
  {
    var expired := Late(d, r) + Overrun(d, r);
    var s := AfterSettling(d, r);
    var e := AfterWritingOff(s, expired, r.atExpire);
    SettlingDecides(d, r, j);
    assert e.completed.Keys == s.completed.Keys + (s.pending - e.pending);
    hide AfterSettling, FinishedLate, Exhausted, Late, Overrun;
  }

  // What settling alone does to one job.
  lemma SettlingDecides(d: Desk, r: Readings, j: Job)
    requires Readable(d, r) && d.completed.Keys !! d.pending
    ensures var s := AfterSettling(d, r);
            && s.pending == d.pending - (r.done - Late(d, r)) && s.timedOut == d.timedOut
            && s.completed.Keys == d.completed.Keys + (d.pending - s.pending)
            && (j in d.completed ==> s.completed[j] == d.completed[j])
            && (j in r.done && !FinishedLate(r.atResolve[j]) <==> j in d.pending && j in s.completed)
            && (j in r.done && !FinishedLate(r.atResolve[j]) ==> s.completed[j] == r.atResolve[j].phase.result)
            && (j in r.done && !FinishedLate(r.atResolve[j]) ==> j !in Late(d, r) + Overrun(d, r))
            && (j in r.done && FinishedLate(r.atResolve[j]) ==> j in Late(d, r))
            && Late(d, r) + Overrun(d, r) <= s.pending
  {
  }

  lemma SettleNone(d: Desk, states: seq<JobState>)
    ensures Settled(d, {}, states) == d
  {
  }

  lemma SettleOneMore(d: Desk, kept: set<Job>, j: Job, states: seq<JobState>)
    requires forall k :: k in kept + {j} ==> k < |states| && states[k].phase.Done?
    ensures Settled(d, kept + {j}, states) == Settle(Settled(d, kept, states), j, states[j].phase.result)
  {
    var e, f := Settled(d, kept + {j}, states), Settle(Settled(d, kept, states), j, states[j].phase.result);
    assert e.completed == f.completed;
    assert e.pending == f.pending;
  }

  lemma WriteOffOneMore(d: Desk, taken: set<Job>, j: Job, states: seq<JobState>)
    requires j < |states| && forall k :: k in taken ==> k < |states|
    ensures AfterWritingOff(d, taken + {j}, states) == Expire(AfterWritingOff(d, taken, states), j, Running(states[j]))
  {
    var e, f := AfterWritingOff(d, taken + {j}, states), Expire(AfterWritingOff(d, taken, states), j, Running(states[j]));
    assert e.abandoned == f.abandoned;
    assert e.completed == f.completed;
    assert e.pending == f.pending;
  }

  class Supervisor {
    var pending: set<Job>
    var completed: map<Job, JobResult>
    var timedOut: set<Job>
    var abandoned: set<Job>
    const workers: nat

    ghost function View(): Desk
      reads this
    {
      Desk(pending, completed, timedOut, abandoned)
    }

    constructor (jobs: set<Job>, workers: nat)
      ensures View() == Desk(jobs, map[], {}, {}) && this.workers == workers
    {
      pending, completed, timedOut, abandoned := jobs, map[], {}, {};
      this.workers := workers;
    }

    method SettleJob(j: Job, result: JobResult)
      modifies this
      ensures View() == Settle(old(View()), j, result)
    {
      completed := completed[j := result];
      pending := pending - {j};
    }

    method ExpireJob(j: Job, running: bool)
      modifies this
      ensures View() == Expire(old(View()), j, running)
    {
      timedOut := timedOut + {j};
      if running {
        abandoned := abandoned + {j};
      }
      completed := completed[j := TIMEOUT_RESULT];
      pending := pending - {j};
    }

    method AbandonJob(j: Job)
      modifies this
      ensures View() == AbandonQueued(old(View()), j)
    {
      timedOut := timedOut + {j};
      completed := completed[j := NOT_STARTED_RESULT];
      pending := pending - {j};
    }

    /** One turn of the loop, as a whole. */
    method Poll(r: Readings)
      requires Readable(View(), r)
      modifies this
      ensures View() == AfterPoll(old(View()), r, workers)
    {
      hide Running, FinishedLate, Overdue, Exhausted;
      ghost var d := View();
      var expired := SettleFinished(r);
      var overrun := FindOverrun(r);
      assert overrun == Overrun(d, r);
      assert forall j :: j in expired + overrun ==> j in d.pending;
      WriteOff(expired + overrun, r.atExpire);
      if pending != {} && timedOut != {} {
        var exhausted := CapacityExhausted(r.atScan);
        if exhausted {
          AbandonQueue(r.atCancel);
        }
      }
    }

    method SettleFinished(r: Readings) returns (expired: set<Job>)
      requires Readable(View(), r)
      modifies this
      ensures expired == Late(old(View()), r)
      ensures View() == AfterSettling(old(View()), r)
    {
      hide Running, FinishedLate, Overdue, Settled;
      assert Settled(View(), {}, r.atResolve) == View() by { SettleNone(View(), r.atResolve); }
      ghost var d := View();
      ghost var kept: set<Job> := {};
      var left := r.done;
      expired := {};
      while left != {}
        invariant left !! kept && left !! expired && kept !! expired && left + kept + expired == r.done
        invariant forall j :: j in kept ==> !FinishedLate(r.atResolve[j])
        invariant forall j :: j in expired ==> FinishedLate(r.atResolve[j])
        invariant View() == Settled(d, kept, r.atResolve)
        decreases left
      {
        var j :| j in left;
        left := left - {j};
        if FinishedLate(r.atResolve[j]) {
          expired := expired + {j};
        } else {
          SettleOneMore(d, kept, j, r.atResolve);
          kept := kept + {j};
          SettleJob(j, r.atResolve[j].phase.result);
        }
      }
      assert expired == Late(d, r);
      assert kept == r.done - Late(d, r);
    }

    method FindOverrun(r: Readings) returns (expired: set<Job>)
      requires |r.clock| == |r.atInspect| && forall j :: j in pending ==> j < |r.atInspect|
      ensures expired == set j | j in pending - r.done && Overdue(r.atInspect[j], r.clock[j])
    {
      var left := pending - r.done;
      expired := {};
      while left != {}
        invariant left <= pending - r.done
        invariant expired == set j | j in pending - r.done - left && Overdue(r.atInspect[j], r.clock[j])
        decreases left
      {
        var j :| j in left;
        left := left - {j};
        if Overdue(r.atInspect[j], r.clock[j]) {
          expired := expired + {j};
        }
      }
    }

    method WriteOff(expired: set<Job>, states: seq<JobState>)
      requires forall j :: j in expired ==> j < |states|
      modifies this
      ensures View() == AfterWritingOff(old(View()), expired, states)
    {
      hide Running, FinishedLate, Overdue;
      ghost var d := View();
      ghost var taken: set<Job> := {};
      var left := expired;
      while left != {}
        invariant left !! taken && taken + left == expired
        invariant View() == AfterWritingOff(d, taken, states)
        decreases left
      {
        var j :| j in left;
        left := left - {j};
        WriteOffOneMore(d, taken, j, states);
        taken := taken + {j};
        ExpireJob(j, Running(states[j]));
      }
      assert taken == expired;
    }

    method CapacityExhausted(states: seq<JobState>) returns (exhausted: bool)
      ensures exhausted <==> Exhausted(states, timedOut, workers)
    {
      var busy: set<Job> := {};
      for j := 0 to |states|
        invariant busy == set k: Job | k < j && k < |states| && Running(states[k])
      {
        if Running(states[j]) {
          busy := busy + {j};
        }
      }
      assert busy == set j: Job | j < |states| && Running(states[j]);
      exhausted := |busy| >= workers && busy <= timedOut;
    }

    method AbandonQueue(states: seq<JobState>)
      requires forall j :: j in pending ==> j < |states|
      modifies this
      ensures View() == AfterAbandoning(old(View()), states)
    {
      ghost var d := View();
      ghost var dropped: set<Job> := {};
      var left := pending;
      while left != {}
        invariant left !! dropped && left <= d.pending && dropped <= d.pending
        invariant forall j :: j in d.pending - left ==> (j in dropped <==> states[j].phase.Queued?)
        invariant View() == d.(pending := d.pending - dropped, timedOut := d.timedOut + dropped,
                               completed := d.completed + map j | j in dropped :: NOT_STARTED_RESULT)
        decreases left
      {
        var j :| j in left;
        left := left - {j};
        if states[j].phase.Queued? {
          dropped := dropped + {j};
          AbandonJob(j);
        }
      }
      assert dropped == set j | j in d.pending && states[j].phase.Queued?;
    }
  }
}
