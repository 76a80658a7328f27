/** What the slot lock lets its clients do: a process that nobody contends with gets the lock, does its work and no other. */
module SlotLockProgress {
  import opened SlotLock

  // The steps lead from s through the run to its last state.
  ghost predicate Leads(s: State, run: seq<State>, steps: seq<Step>) {
    && |run| == |steps| + 1 && run[0] == s
    && forall i :: 0 <= i < |steps| ==> Next(run[i], run[i + 1], steps[i])
  }

  // Nobody else holds the file that now has the slot's name, unless all share it.
  ghost predicate Uncontended(s: State, pid: Pid, role: Role) {
    && pid in s.procs && s.procs[pid].pc.Idle?
    && forall q :: q in s.procs && q != pid && HasLock(s.procs[q]) && s.lockPath == Some(s.procs[q].pc.fd) ==>
                     role.Loader? && s.procs[q].role.Loader?
  }

  lemma {:induction false} SomeFree(used: set<Inode>) returns (fd: Inode)
    ensures fd !in used && forall x :: x in used ==> x < fd
    decreases |used|
  {
    if used == {} {
      fd := 0;
    } else {
      var x :| x in used;
      var rest := used - {x};
      var other := SomeFree(rest);
      assert forall y :: y in used ==> y == x || y in rest;
      fd := if other > x then other else x + 1;
    }
  }

  lemma SomeInode(s: State) returns (fd: Inode)
    ensures match s.lockPath case Some(i) => fd == i case None => forall q :: q in s.procs ==> !HasOpen(s.procs[q], fd)
  {
    if s.lockPath.Some? {
      fd := s.lockPath.value;
    } else {
      var used := set q | q in s.procs && !s.procs[q].pc.Idle? :: s.procs[q].pc.fd;
      fd := SomeFree(used);
      forall q | q in s.procs && !s.procs[q].pc.Idle? ensures s.procs[q].pc.fd in used { }
    }
  }

  // The state in which pid holds the lock on fd and nothing else has changed.
  ghost function Taken(s: State, pid: Pid, role: Role, fd: Inode): State {
    s.(procs := s.procs[pid := Proc(role, Holding(fd))], lockPath := Some(fd))
  }

  /** Open, lock, compare: an uncontended process ends up holding the file that has the slot's name. */
  lemma LockIsTaken(s: State, pid: Pid, role: Role) returns (fd: Inode, run: seq<State>, steps: seq<Step>)
    requires Uncontended(s, pid, role)
    ensures s.lockPath.Some? ==> s.lockPath == Some(fd)
    ensures Leads(s, run, steps) && |steps| == 3 && run[3] == Taken(s, pid, role, fd)
  {
    fd := SomeInode(s);
    var p0, p1, p2 := Proc(role, Opened(fd)), Proc(role, Locked(fd)), Proc(role, Holding(fd));
    var a := Move(s, pid, p0).(lockPath := Some(fd));
    var b := Move(a, pid, p1);
    var c := Move(b, pid, p2);
    forall q | q in a.procs && q != pid ensures !Conflict(p0, a.procs[q]) {
      assert a.procs[q] == s.procs[q];
      if s.lockPath.None? { assert !HasOpen(s.procs[q], fd); }
    }
    assert Next(s, a, Open(pid, role, fd));
    assert Next(a, b, Flock(pid));
    assert Next(b, c, Recheck(pid));
    run, steps := [s, a, b, c], [Open(pid, role, fd), Flock(pid), Recheck(pid)];
    assert c.procs == s.procs[pid := p2];
  }

  lemma OneMore(s: State, run: seq<State>, steps: seq<Step>, t: State, step: Step)
    requires Leads(s, run, steps) && Next(run[|steps|], t, step)
    ensures Leads(s, run + [t], steps + [step])
  {
    hide Next;
  }

  /** A loader reads the slot's entry and lets go; the slot is as it was. */
  lemma LoaderReads(s: State, pid: Pid) returns (run: seq<State>, steps: seq<Step>)
    requires Uncontended(s, pid, Loader)
    ensures Leads(s, run, steps) && |steps| == 5
    ensures pid in run[4].procs && run[4].procs[pid].pc.Reading? && run[4].procs[pid].pc.seen == s.entry
    ensures run[5].entry == s.entry && pid in run[5].procs && run[5].procs[pid].pc.Idle?
    ensures s.lockPath.Some? ==> run[5].lockPath == s.lockPath
  {
    var fd;
    fd, run, steps := LockIsTaken(s, pid, Loader);
    var held := Taken(s, pid, Loader, fd);
    var reading := Move(held, pid, Proc(Loader, Reading(fd, s.entry)));
    var closed := Move(reading, pid, Proc(Loader, Idle));
    assert Next(held, reading, ReadEntry(pid));
    OneMore(s, run, steps, reading, ReadEntry(pid));
    run, steps := run + [reading], steps + [ReadEntry(pid)];
    assert Next(reading, closed, Close(pid));
    OneMore(s, run, steps, closed, Close(pid));
    run, steps := run + [closed], steps + [Close(pid)];
  }

  /** A saver replaces the entry by a new one, and may take it back while it holds the lock. */
  lemma SaverWrites(s: State, pid: Pid, takesBack: bool) returns (run: seq<State>, steps: seq<Step>)
    requires Uncontended(s, pid, Saver) && (s.entry.Some? ==> s.entry.value <= s.lastEntry)
    ensures Leads(s, run, steps) && |steps| == 5
    ensures run[4].entry.Some? && run[4].entry != s.entry && run[4].entry == Some(run[4].lastEntry)
    ensures takesBack ==> run[5].entry.None?
    ensures !takesBack ==> run[5].entry == run[4].entry && pid in run[5].procs && run[5].procs[pid].pc.Idle?
  {
    var fd;
    fd, run, steps := LockIsTaken(s, pid, Saver);
    var held := Taken(s, pid, Saver, fd);
    var saved := held.(entry := Some(s.lastEntry + 1), lastEntry := s.lastEntry + 1);
    assert Next(held, saved, WriteEntry(pid));
    OneMore(s, run, steps, saved, WriteEntry(pid));
    run, steps := run + [saved], steps + [WriteEntry(pid)];
    var last, step := saved.(entry := None), RemoveEntry(pid);
    if !takesBack { last, step := Move(saved, pid, Proc(Saver, Idle)), Close(pid); }
    assert Next(saved, last, step);
    OneMore(s, run, steps, last, step);
    run, steps := run + [last], steps + [step];
  }

  /** A remover empties the slot. */
  lemma RemoverEmpties(s: State, pid: Pid) returns (run: seq<State>, steps: seq<Step>)
    requires Uncontended(s, pid, Remover)
    ensures Leads(s, run, steps) && |steps| == 5
    ensures run[4].entry.None? && pid in run[5].procs && run[5].procs[pid].pc.Idle? && run[5].entry.None?
  {
    var fd;
    fd, run, steps := LockIsTaken(s, pid, Remover);
    var held := Taken(s, pid, Remover, fd);
    var emptied := held.(entry := None);
    var closed := Move(emptied, pid, Proc(Remover, Idle));
    assert Next(held, emptied, RemoveEntry(pid));
    OneMore(s, run, steps, emptied, RemoveEntry(pid));
    run, steps := run + [emptied], steps + [RemoveEntry(pid)];
    assert Next(emptied, closed, Close(pid));
    OneMore(s, run, steps, closed, Close(pid));
    run, steps := run + [closed], steps + [Close(pid)];
  }

  /** A cleaner removes the lock file of a slot without an entry. */
  lemma CleanerUnlinks(s: State, pid: Pid) returns (run: seq<State>, steps: seq<Step>)
    requires Uncontended(s, pid, Cleaner) && s.entry.None?
    ensures Leads(s, run, steps) && |steps| == 7
    ensures run[7].lockPath.None? && run[7].entry.None? && pid in run[7].procs && run[7].procs[pid].pc.Idle?
  {
    var fd;
    fd, run, steps := LockIsTaken(s, pid, Cleaner);
    var held := Taken(s, pid, Cleaner, fd);
    var bare := Move(held, pid, Proc(Cleaner, NoEntry(fd)));
    var orphan := Move(bare, pid, Proc(Cleaner, Orphan(fd)));
    var gone := Move(orphan, pid, Proc(Cleaner, Unlinked(fd))).(lockPath := None);
    var closed := Move(gone, pid, Proc(Cleaner, Idle));
    assert Next(held, bare, FindNoEntry(pid));
    OneMore(s, run, steps, bare, FindNoEntry(pid));
    run, steps := run + [bare], steps + [FindNoEntry(pid)];
    assert Next(bare, orphan, CompareAgain(pid));
    OneMore(s, run, steps, orphan, CompareAgain(pid));
    run, steps := run + [orphan], steps + [CompareAgain(pid)];
    assert Next(orphan, gone, UnlinkLock(pid));
    OneMore(s, run, steps, gone, UnlinkLock(pid));
    run, steps := run + [gone], steps + [UnlinkLock(pid)];
    assert Next(gone, closed, Close(pid));
    OneMore(s, run, steps, closed, Close(pid));
    run, steps := run + [closed], steps + [Close(pid)];
  }

  /** No lock file of a slot that has an entry is removed. */
  lemma UsedSlotsKeepTheirLock(s: State, t: State, step: Step)
    requires Inv(s) && Next(s, t, step) && s.lockPath.Some? && s.entry.Some?
    ensures t.lockPath == s.lockPath
  {
    assert Sound(s, s.procs[step.pid]);
  }
}
