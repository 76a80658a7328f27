/** The per-slot lock protocol of the incremental cache (shadowscan/incremental.py).

    The lock of a slot is a file, and that file may itself be unlinked by a process that reclaims orphan locks, so two
    processes can hold locks on different inodes that once had the same name. Each system call is a step of its own. An
    inode number may be used again as soon as no process has the old file open. */
module SlotLock {
  type Pid = nat
  type Inode = nat
  type EntryId = nat

  datatype Option<T> = None | Some(value: T)

  // load takes the lock shared; save, entry removal and orphan cleaning take it exclusively.
  datatype Role = Loader | Saver | Remover | Cleaner

  datatype Pc =
    | Idle
    | Opened(fd: Inode)                             // file opened or created, not locked
    | Locked(fd: Inode)                             // flock granted, pathname not compared yet
    | Holding(fd: Inode)                            // pathname still names the locked inode
    | Reading(fd: Inode, seen: Option<EntryId>)     // load: entry file opened
    | NoEntry(fd: Inode)                            // cleaner: no entry file
    | Orphan(fd: Inode)                             // cleaner: pathname compared again
    | Unlinked(fd: Inode)                           // cleaner: lock file removed, flock still held

  datatype Proc = Proc(role: Role, pc: Pc)

  datatype State = State(procs: map<Pid, Proc>, lockPath: Option<Inode>, entry: Option<EntryId>, lastEntry: EntryId)

  predicate HasOpen(p: Proc, i: Inode) {
    !p.pc.Idle? && p.pc.fd == i
  }

  predicate HasLock(p: Proc) {
    !p.pc.Idle? && !p.pc.Opened?
  }

  /** Passed the recheck and has not itself unlinked the lock file. */
  predicate Owns(p: Proc) {
    HasLock(p) && !p.pc.Locked? && !p.pc.Unlinked?
  }

  // The kernel does not grant p a lock on its file while q has one, unless both are shared.
  predicate Conflict(p: Proc, q: Proc)
    requires !p.pc.Idle?
  {
    HasLock(q) && q.pc.fd == p.pc.fd && !(p.role.Loader? && q.role.Loader?)
  }

  datatype Step =
    | Open(pid: Pid, role: Role, fd: Inode)
    | Flock(pid: Pid)
    | Recheck(pid: Pid)
    | ReadEntry(pid: Pid)
    | WriteEntry(pid: Pid)
    | RemoveEntry(pid: Pid)
    | FindNoEntry(pid: Pid)
    | CompareAgain(pid: Pid)
    | UnlinkLock(pid: Pid)
    | Close(pid: Pid)       // release, refusal, failure or death of the process

  ghost predicate Next(s: State, t: State, step: Step) {
    && step.pid in s.procs
    && var pid, p := step.pid, s.procs[step.pid];
    match step
    case Open(_, role, fd) =>
      // O_CREAT: the named file, or a new one whose inode no process has open.
      && p.pc.Idle?
      && (match s.lockPath
          case Some(i) => fd == i
          case None => forall q :: q in s.procs ==> !HasOpen(s.procs[q], fd))
      && t == Move(s, pid, Proc(role, Opened(fd))).(lockPath := Some(fd))
    case Flock(_) =>
      // LOCK_NB: contention makes the process close the file instead.
      && p.pc.Opened? && (forall q :: q in s.procs && q != pid ==> !Conflict(p, s.procs[q]))
      && t == Move(s, pid, p.(pc := Locked(p.pc.fd)))
    case Recheck(_) =>
      p.pc.Locked? && s.lockPath == Some(p.pc.fd) && t == Move(s, pid, p.(pc := Holding(p.pc.fd)))
    case ReadEntry(_) =>
      p.role.Loader? && p.pc.Holding? && t == Move(s, pid, p.(pc := Reading(p.pc.fd, s.entry)))
    case WriteEntry(_) =>
      && p.role.Saver? && p.pc.Holding?
      && t == s.(entry := Some(s.lastEntry + 1), lastEntry := s.lastEntry + 1)
    case RemoveEntry(_) =>
      (p.role.Saver? || p.role.Remover?) && p.pc.Holding? && t == s.(entry := None)
    case FindNoEntry(_) =>
      p.role.Cleaner? && p.pc.Holding? && s.entry.None? && t == Move(s, pid, p.(pc := NoEntry(p.pc.fd)))
    case CompareAgain(_) =>
      p.pc.NoEntry? && s.lockPath == Some(p.pc.fd) && t == Move(s, pid, p.(pc := Orphan(p.pc.fd)))
    case UnlinkLock(_) =>
      // unlink() removes whatever file has the name now.
      p.pc.Orphan? && t == Move(s, pid, p.(pc := Unlinked(p.pc.fd))).(lockPath := None)
    case Close(_) =>
      !p.pc.Idle? && t == Move(s, pid, p.(pc := Idle))
  }

  ghost function Move(s: State, pid: Pid, p: Proc): State {
    s.(procs := s.procs[pid := p])
  }

  ghost predicate Init(s: State) {
    && s.lockPath.None? && s.entry.None?
    && forall q :: q in s.procs ==> s.procs[q].pc.Idle?
  }

  // ---------------------------------------------------------------- the invariant of every interleaving

  ghost predicate Sound(s: State, p: Proc) {
    && (Owns(p) ==> s.lockPath == Some(p.pc.fd))
    && (p.pc.Reading? ==> p.role.Loader? && p.pc.seen == s.entry)
    && (p.pc.NoEntry? || p.pc.Orphan? ==> s.entry.None?)
    && (p.pc.NoEntry? || p.pc.Orphan? || p.pc.Unlinked? ==> p.role.Cleaner?)
  }

  ghost predicate Inv(s: State) {
    && (forall q :: q in s.procs ==> Sound(s, s.procs[q]))
    && (forall q, r :: q in s.procs && r in s.procs && q != r && HasLock(s.procs[q]) ==> !Conflict(s.procs[q], s.procs[r]))
  }

  lemma NextInv(s: State, t: State, step: Step)
    requires Inv(s) && Next(s, t, step)
    ensures Inv(t)
  {
    forall q | q in t.procs ensures Sound(t, t.procs[q]) {
      assert Sound(s, s.procs[q]) && Sound(s, s.procs[step.pid]);
      if q != step.pid {
        assert HasLock(s.procs[step.pid]) ==> !Conflict(s.procs[step.pid], s.procs[q]);
      }
    }
  }

  ghost predicate IsRun(run: seq<State>, steps: seq<Step>) {
    && |run| == |steps| + 1
    && Init(run[0])
    && forall i :: 0 <= i < |steps| ==> Next(run[i], run[i + 1], steps[i])
  }

  lemma {:induction false} RunInv(run: seq<State>, steps: seq<Step>)
    requires IsRun(run, steps)
    ensures Inv(run[|run| - 1])
    decreases |steps|
  {
    if steps != [] {
      var n := |steps| - 1;
      RunInv(run[..n + 1], steps[..n]);
      NextInv(run[n], run[n + 1], steps[n]);
    }
  }

  /** Whoever passed the recheck, and did not unlink the lock file itself, holds the inode now at the slot's lock path;
      so two such processes overlap only when both are loads, however often the lock file was deleted and recreated. */
  lemma MutualExclusion(run: seq<State>, steps: seq<Step>, p: Pid, q: Pid)
    requires IsRun(run, steps) && p != q
    requires var s := run[|run| - 1]; p in s.procs && q in s.procs && Owns(s.procs[p]) && Owns(s.procs[q])
    ensures var s := run[|run| - 1];
            && s.lockPath == Some(s.procs[p].pc.fd) == Some(s.procs[q].pc.fd)
            && s.procs[p].role.Loader? && s.procs[q].role.Loader?
  {
    RunInv(run, steps);
    var s := run[|run| - 1];
    assert Sound(s, s.procs[p]) && Sound(s, s.procs[q]);
    assert !Conflict(s.procs[p], s.procs[q]);
  }

  /** A load sees one entry from opening it to releasing the lock; only a process that owns the lock exclusively
      changes the entry; and a lock file is only ever unlinked while its slot has no entry. */
  lemma LockedEntryIsStable(run: seq<State>, steps: seq<Step>, t: State, step: Step)
    requires IsRun(run, steps) && Next(run[|run| - 1], t, step)
    ensures var s := run[|run| - 1];
            && (forall p :: p in s.procs && s.procs[p].pc.Reading? ==> s.procs[p].pc.seen == s.entry)
            && (s.entry != t.entry ==>
                  && Owns(s.procs[step.pid]) && !s.procs[step.pid].role.Loader?
                  && forall p :: p in s.procs && p != step.pid ==> !Owns(s.procs[p]))
            && (s.lockPath.Some? && t.lockPath.None? ==>
                  && s.entry.None? && t.entry.None? && s.lockPath == Some(s.procs[step.pid].pc.fd)
                  && forall p :: p in s.procs && p != step.pid ==> !Owns(s.procs[p]))
  {
    RunInv(run, steps);
    var s := run[|run| - 1];
    assert Sound(s, s.procs[step.pid]);
    forall p | p in s.procs && p != step.pid && Owns(s.procs[p]) && Owns(s.procs[step.pid])
      ensures s.procs[p].role.Loader? && s.procs[step.pid].role.Loader?
    {
      MutualExclusion(run, steps, p, step.pid);
    }
    forall p | p in s.procs && s.procs[p].pc.Reading? ensures s.procs[p].pc.seen == s.entry {
      assert Sound(s, s.procs[p]);
    }
  }

  // ---------------------------------------------------------------- why the pathname is compared after the lock

  function Boot(p: Pc, q: Pc, path: Option<Inode>): State {
    State(map[0 := Proc(Cleaner, p), 1 := Proc(Saver, q)], path, None, 0)
  }

  /** Without the recheck the lock would not exclude: a saver that opened the old file before the cleaner unlinked it
      still gets its lock, next to a second saver that locks the file recreated at the same path. */
  lemma LocksAloneDoNotExclude() returns (run: seq<State>, steps: seq<Step>)
    ensures IsRun(run, steps)
    ensures var s := run[|run| - 1];
            && 0 in s.procs && 1 in s.procs && HasLock(s.procs[0]) && HasLock(s.procs[1])
            && s.procs[0].role.Saver? && s.procs[1].role.Saver? && s.procs[0].pc.fd != s.procs[1].pc.fd
  {
    var r0, t0 := CleanerUnlinks();
    var r1, t1 := SaversOverlap();
    hide Next, Init;
    run, steps := r0 + r1[1..], t0 + t1;
    forall i | 0 <= i < |steps| ensures Next(run[i], run[i + 1], steps[i]) {
      if i < 7 {
        assert Next(r0[i], r0[i + 1], t0[i]);
      } else {
        assert Next(r1[i - 7], r1[i - 7 + 1], t1[i - 7]);
      }
    }
  }

  lemma CleanerUnlinks() returns (run: seq<State>, steps: seq<Step>)
    ensures IsRun(run, steps) && |steps| == 7 && run[7] == Boot(Unlinked(7), Opened(7), None)
  {
    var r0, t0 := CleanerLocks();
    var r1, t1 := CleanerFindsOrphan();
    run, steps := r0 + r1[1..], t0 + t1;
    hide Next;
    forall i | 0 <= i < |steps| ensures Next(run[i], run[i + 1], steps[i]) {
      if i < 4 {
        assert Next(r0[i], r0[i + 1], t0[i]);
      } else {
        assert Next(r1[i - 4], r1[i - 4 + 1], t1[i - 4]);
      }
    }
  }

  lemma CleanerLocks() returns (run: seq<State>, steps: seq<Step>)
    ensures |run| == 5 && |steps| == 4 && Init(run[0])
    ensures forall i :: 0 <= i < 4 ==> Next(run[i], run[i + 1], steps[i])
    ensures run[4] == Boot(Holding(7), Opened(7), Some(7))
  {
    run := [Boot(Idle, Idle, None), Boot(Opened(7), Idle, Some(7)), Boot(Locked(7), Idle, Some(7)),
            Boot(Holding(7), Idle, Some(7)), Boot(Holding(7), Opened(7), Some(7))];
    steps := [Open(0, Cleaner, 7), Flock(0), Recheck(0), Open(1, Saver, 7)];
  }

  lemma CleanerFindsOrphan() returns (run: seq<State>, steps: seq<Step>)
    ensures |run| == 4 && |steps| == 3 && run[0] == Boot(Holding(7), Opened(7), Some(7))
    ensures forall i :: 0 <= i < 3 ==> Next(run[i], run[i + 1], steps[i])
    ensures run[3] == Boot(Unlinked(7), Opened(7), None)
  {
    run := [Boot(Holding(7), Opened(7), Some(7)), Boot(NoEntry(7), Opened(7), Some(7)),
            Boot(Orphan(7), Opened(7), Some(7)), Boot(Unlinked(7), Opened(7), None)];
    steps := [FindNoEntry(0), CompareAgain(0), UnlinkLock(0)];
  }

  lemma SaversOverlap() returns (run: seq<State>, steps: seq<Step>)
    ensures |run| == 5 && |steps| == 4 && run[0] == Boot(Unlinked(7), Opened(7), None)
    ensures forall i :: 0 <= i < 4 ==> Next(run[i], run[i + 1], steps[i])
    ensures run[4] == State(map[0 := Proc(Saver, Locked(8)), 1 := Proc(Saver, Locked(7))], Some(8), None, 0)
  {
    run := [Boot(Unlinked(7), Opened(7), None), Boot(Idle, Opened(7), None),
            State(map[0 := Proc(Saver, Opened(8)), 1 := Proc(Saver, Opened(7))], Some(8), None, 0),
            State(map[0 := Proc(Saver, Locked(8)), 1 := Proc(Saver, Opened(7))], Some(8), None, 0),
            State(map[0 := Proc(Saver, Locked(8)), 1 := Proc(Saver, Locked(7))], Some(8), None, 0)];
    steps := [Close(0), Open(0, Saver, 8), Flock(0), Flock(1)];
  }
}
