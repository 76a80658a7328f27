/** Cached results agree with fresh scans (shadowscan/engine.py, _ConnectorRunner._collect, over incremental.py).

    A snapshot is not atomic: it digests the input file by file while the input may change. What a reused or a saved
    result rests on is two equal snapshots in a row. A file's digest covers its content, inode and change time, so it is
    modelled by a version; the fingerprint digest is injective in the configuration and the versions it covers. */
module CacheAgreement {
  type File = nat
  type Version = nat
  type Config = nat
  type Slot = nat
  type Payload = seq<string>
  type Input = map<File, Version>
  type Pid = nat

  /** slotOf leaves out most of a configuration, so several share a slot; scan is the connector on an input at rest. */
  datatype World = World(slotOf: Config -> Slot, scan: (Config, Input) -> Payload)

  datatype Entry = Entry(config: Config, input: Input, payload: Payload)

  datatype Pc =
    | Idle
    | First(got: Input)                                                        // first snapshot under way
    | Ready(snap: Input)                                                       // first snapshot complete
    | Second(snap: Input, payload: Payload, at: Input, got: Input)             // hit; `at` is the input when it began
    | Reused(snap: Input, payload: Payload, at: Input)
    | Collecting(snap: Input, begun: Input, refused: bool)                     // `refused`: a hit whose recheck differed
    | Third(snap: Input, payload: Payload, begun: Input, at: Input, got: Input, refused: bool)
    | Saving(snap: Input, payload: Payload, refused: bool)
    | Finished(payload: Payload, incomplete: bool)

  datatype Proc = Proc(config: Config, pc: Pc)

  datatype State = State(files: set<File>, input: Input, procs: map<Pid, Proc>, store: map<Slot, Entry>)

  datatype Step =
    | Change(file: File, version: Version)
    | Begin(pid: Pid, config: Config)
    | Digest(pid: Pid, file: File)
    | EndFirst(pid: Pid)
    | Hit(pid: Pid)
    | Miss(pid: Pid)
    | EndSecond(pid: Pid)
    | Collected(pid: Pid, payload: Payload, complete: bool)
    | EndThird(pid: Pid)
    | Save(pid: Pid)
    | Evict(slot: Slot)
    | SnapshotFails(pid: Pid)

  ghost function Move(s: State, pid: Pid, config: Config, pc: Pc): State {
    s.(procs := s.procs[pid := Proc(config, pc)])
  }

  // The digests gathered by the snapshot that is under way, if one is.
  predicate Digesting(pc: Pc) {
    pc.First? || pc.Second? || pc.Third?
  }

  function Add(pc: Pc, f: File, v: Version): Pc
    requires Digesting(pc)
  {
    match pc
    case First(got) => First(got[f := v])
    case Second(snap, payload, at, got) => Second(snap, payload, at, got[f := v])
    case Third(snap, payload, begun, at, got, refused) => Third(snap, payload, begun, at, got[f := v], refused)
  }

  /** `recurring` admits inputs whose digests come back to an earlier value; the code assumes there are none. */
  ghost predicate Next(w: World, recurring: bool, s: State, t: State, step: Step) {
    match step
    case Change(f, v) =>
      && f in s.files && f in s.input && (recurring || v > s.input[f])
      && t == s.(input := s.input[f := v])
    case Evict(slot) =>
      t == s.(store := s.store - {slot})
    case Begin(pid, config) =>
      && (pid in s.procs ==> s.procs[pid].pc.Idle? || s.procs[pid].pc.Reused? || s.procs[pid].pc.Finished?)
      && t == Move(s, pid, config, First(map[]))
    case _ =>
      && step.pid in s.procs
      && var pid, c, pc := step.pid, s.procs[step.pid].config, s.procs[step.pid].pc;
      ProcNext(w, s, t, step, c, pc)
  }

  ghost predicate ProcNext(w: World, s: State, t: State, step: Step, c: Config, pc: Pc)
    requires !step.Change? && !step.Evict? && !step.Begin?
  {
    var pid := step.pid;
    match step
    case Digest(_, f) =>
      && Digesting(pc) && f in s.files && f !in pc.got && f in s.input
      && t == Move(s, pid, c, Add(pc, f, s.input[f]))
    case EndFirst(_) =>
      pc.First? && pc.got.Keys == s.files && t == Move(s, pid, c, Ready(pc.got))
    case Hit(_) =>
      // load() returns an entry only when its fingerprint is the snapshot's.
      && pc.Ready? && w.slotOf(c) in s.store
      && var e := s.store[w.slotOf(c)];
      && e.config == c && e.input == pc.snap
      && t == Move(s, pid, c, Second(pc.snap, e.payload, s.input, map[]))
    case Miss(_) =>
      pc.Ready? && t == Move(s, pid, c, Collecting(pc.snap, s.input, false))
    case EndSecond(_) =>
      && pc.Second? && pc.got.Keys == s.files
      && t == if pc.got == pc.snap then Move(s, pid, c, Reused(pc.snap, pc.payload, pc.at))
              else Move(s, pid, c, Collecting(pc.snap, s.input, true))
    case Collected(_, payload, complete) =>
      // A deterministic connector is only held to its answer for an input that did not change under it.
      && pc.Collecting? && (pc.begun == s.input ==> complete ==> payload == w.scan(c, s.input))
      && t == Move(s, pid, c, if complete then Third(pc.snap, payload, pc.begun, s.input, map[], pc.refused)
                              else Finished(payload, true))
    case EndThird(_) =>
      && pc.Third? && pc.got.Keys == s.files
      && t == if pc.got == pc.snap then Move(s, pid, c, Saving(pc.snap, pc.payload, pc.refused))
              else Move(s, pid, c, Finished(pc.payload, true))
    case Save(_) =>
      && pc.Saving?
      && t == Move(s, pid, c, Finished(pc.payload, false))
              .(store := s.store[w.slotOf(c) := Entry(c, pc.snap, pc.payload)])
    case SnapshotFails(_) =>
      // None is never equal to the first snapshot; a failed first snapshot leaves the cache out of the scan.
      match pc
      case First(_) => t == Move(s, pid, c, Idle)
      case Second(snap, _, _, _) => t == Move(s, pid, c, Collecting(snap, s.input, false))
      case Third(_, payload, _, _, _, _) => t == Move(s, pid, c, Finished(payload, true))
      case _ => false
  }

  ghost predicate Init(s: State) {
    s.input.Keys == s.files && s.procs == map[] && s.store == map[]
  }

  // ---------------------------------------------------------------- versions only grow

  ghost predicate Le(a: Input, b: Input) {
    a.Keys <= b.Keys && forall f :: f in a ==> a[f] <= b[f]
  }

  /** Digests taken after `at` held and before `now` holds. */
  ghost predicate Between(at: Input, got: Input, now: Input) {
    got.Keys <= at.Keys && Le(at, now) && forall f :: f in got && f in now ==> at[f] <= got[f] <= now[f]
  }

  ghost predicate Sound(w: World, s: State, p: Proc) {
    match p.pc
    case Idle => true
    case Finished(_, _) => true
    case First(got) => Le(got, s.input)
    case Ready(snap) => snap.Keys == s.files && Le(snap, s.input)
    case Second(snap, payload, at, got) =>
      && snap.Keys == at.Keys == s.files && Le(snap, at) && Between(at, got, s.input)
      && payload == w.scan(p.config, snap)
    case Reused(snap, payload, at) => snap == at && payload == w.scan(p.config, at)
    case Collecting(snap, begun, refused) =>
      snap.Keys == begun.Keys == s.files && Le(snap, begun) && Le(begun, s.input) && (refused ==> snap != begun)
    case Third(snap, payload, begun, at, got, refused) =>
      && snap.Keys == begun.Keys == at.Keys == s.files && Le(snap, begun) && Le(begun, at)
      && Between(at, got, s.input) && (refused ==> snap != begun)
      && (begun == at ==> payload == w.scan(p.config, at))
    case Saving(snap, payload, refused) => payload == w.scan(p.config, snap) && !refused
  }

  ghost predicate Inv(w: World, s: State) {
    && s.input.Keys == s.files
    && (forall pid :: pid in s.procs ==> Sound(w, s, s.procs[pid]))
    && (forall slot :: slot in s.store ==>
          s.store[slot].payload == w.scan(s.store[slot].config, s.store[slot].input))
  }

  /** The double collect: nothing between two equal snapshots can have moved. */
  lemma EqualSnapshots(snap: Input, begun: Input, at: Input, got: Input, now: Input)
    requires snap.Keys == begun.Keys == at.Keys && Le(snap, begun) && Le(begun, at) && Between(at, got, now)
    requires got.Keys == at.Keys
    ensures got == snap ==> snap == begun == at
    ensures got != snap ==> snap != now
  {
  }

  // Sound does not depend on the store, and survives versions growing.
  lemma SoundKept(w: World, s: State, t: State, p: Proc)
    requires Sound(w, s, p) && s.files == t.files && Le(s.input, t.input) && s.input.Keys == t.input.Keys
    ensures Sound(w, t, p)
  {
  }

  lemma NextInv(w: World, s: State, t: State, step: Step)
    requires Inv(w, s) && Next(w, false, s, t, step)
    ensures Inv(w, t)
  {
    var mover: set<Pid> := if step.Change? || step.Evict? then {} else {step.pid};
    if step.Begin? {
      assert Sound(w, t, t.procs[step.pid]);
    } else if mover != {} {
      assert Sound(w, s, s.procs[step.pid]);
      ProcSound(w, s, t, step, s.procs[step.pid].config, s.procs[step.pid].pc);
      ProcFrame(w, s, t, step, s.procs[step.pid].config, s.procs[step.pid].pc);
    }
    hide Sound, ProcNext;
    forall q | q in t.procs ensures Sound(w, t, t.procs[q]) {
      if q !in mover {
        SoundKept(w, s, t, s.procs[q]);
      }
    }
  }

  lemma DigestSound(w: World, s: State, t: State, f: File, pid: Pid, c: Config, pc: Pc)
    requires s.input.Keys == s.files && Sound(w, s, Proc(c, pc)) && ProcNext(w, s, t, Digest(pid, f), c, pc)
    ensures pid in t.procs && Sound(w, t, t.procs[pid])
  {
  }

  lemma EndSecondSound(w: World, s: State, t: State, pid: Pid, c: Config, pc: Pc)
    requires s.input.Keys == s.files && Sound(w, s, Proc(c, pc)) && ProcNext(w, s, t, EndSecond(pid), c, pc)
    requires forall slot :: slot in s.store ==> s.store[slot].payload == w.scan(s.store[slot].config, s.store[slot].input)
    ensures pid in t.procs && Sound(w, t, t.procs[pid])
  {
    EqualSnapshots(pc.snap, pc.at, pc.at, pc.got, s.input);
    hide Le, Between;
  }

  lemma EndThirdSound(w: World, s: State, t: State, pid: Pid, c: Config, pc: Pc)
    requires s.input.Keys == s.files && Sound(w, s, Proc(c, pc)) && ProcNext(w, s, t, EndThird(pid), c, pc)
    ensures pid in t.procs && Sound(w, t, t.procs[pid])
  {
    EqualSnapshots(pc.snap, pc.begun, pc.at, pc.got, s.input);
    hide Le, Between;
  }

  lemma OtherSound(w: World, s: State, t: State, step: Step, c: Config, pc: Pc)
    requires !step.Change? && !step.Evict? && !step.Begin? && !step.Digest? && !step.EndSecond? && !step.EndThird?
    requires s.input.Keys == s.files && Sound(w, s, Proc(c, pc)) && ProcNext(w, s, t, step, c, pc)
    requires forall slot :: slot in s.store ==> s.store[slot].payload == w.scan(s.store[slot].config, s.store[slot].input)
    ensures step.pid in t.procs && Sound(w, t, t.procs[step.pid])
  {
    if step.EndFirst? {
      hide Between;
    } else if step.Save? {
      hide Le, Between;
    }
  }

  lemma ProcSound(w: World, s: State, t: State, step: Step, c: Config, pc: Pc)
    requires !step.Change? && !step.Evict? && !step.Begin?
    requires s.input.Keys == s.files && Sound(w, s, Proc(c, pc)) && ProcNext(w, s, t, step, c, pc)
    requires forall slot :: slot in s.store ==> s.store[slot].payload == w.scan(s.store[slot].config, s.store[slot].input)
    ensures step.pid in t.procs && Sound(w, t, t.procs[step.pid])
  {
    hide Sound, ProcNext;
    match step {
      case Digest(pid, f) => DigestSound(w, s, t, f, pid, c, pc);
      case EndSecond(pid) => EndSecondSound(w, s, t, pid, c, pc);
      case EndThird(pid) => EndThirdSound(w, s, t, pid, c, pc);
      case _ => OtherSound(w, s, t, step, c, pc);
    }
  }

  lemma ProcFrame(w: World, s: State, t: State, step: Step, c: Config, pc: Pc)
    requires !step.Change? && !step.Evict? && !step.Begin?
    requires Sound(w, s, Proc(c, pc)) && ProcNext(w, s, t, step, c, pc)
    requires forall slot :: slot in s.store ==> s.store[slot].payload == w.scan(s.store[slot].config, s.store[slot].input)
    ensures t.input == s.input && t.files == s.files
    ensures forall q :: q in t.procs && q != step.pid ==> q in s.procs && t.procs[q] == s.procs[q]
    ensures forall slot :: slot in t.store ==> t.store[slot].payload == w.scan(t.store[slot].config, t.store[slot].input)
  {
    hide Le, Between;
  }

  ghost predicate IsRun(w: World, recurring: bool, run: seq<State>, steps: seq<Step>) {
    && |run| == |steps| + 1
    && Init(run[0])
    && forall i :: 0 <= i < |steps| ==> Next(w, recurring, run[i], run[i + 1], steps[i])
  }

  lemma {:induction false} RunInv(w: World, run: seq<State>, steps: seq<Step>)
    requires IsRun(w, false, run, steps)
    ensures Inv(w, run[|run| - 1])
    decreases |steps|
  {
    if steps != [] {
      var n := |steps| - 1;
      RunInv(w, run[..n + 1], steps[..n]);
      NextInv(w, run[n], run[n + 1], steps[n]);
    }
  }

  /** However input changes and the cache steps of any number of configurations interleave: a reused result is what a
      fresh scan of the input would give at the moment the second snapshot began; every stored payload was computed
      from the one input its fingerprint names; and a hit that was refused never leads to a save. */
  lemma CachedResultsAgree(w: World, run: seq<State>, steps: seq<Step>, pid: Pid)
    requires IsRun(w, false, run, steps) && pid in run[|run| - 1].procs
    ensures var s := run[|run| - 1];
            var p := s.procs[pid];
            && (p.pc.Reused? ==> p.pc.payload == w.scan(p.config, p.pc.at) && p.pc.snap == p.pc.at)
            && (p.pc.Saving? ==> p.pc.payload == w.scan(p.config, p.pc.snap) && !p.pc.refused)
            && (forall slot :: slot in s.store ==>
                  s.store[slot].payload == w.scan(s.store[slot].config, s.store[slot].input))
  {
    RunInv(w, run, steps);
    assert Sound(w, run[|run| - 1], run[|run| - 1].procs[pid]);
  }

  /** The moment a reuse refers to is real: `at` is the whole input of the state in which the hit was found and the
      second snapshot began. */
  lemma {:induction false} ReusedInputWasCurrent(w: World, run: seq<State>, steps: seq<Step>, pid: Pid) returns (k: nat)
    requires IsRun(w, false, run, steps)
    requires OnHit(run[|run| - 1], pid)
    ensures k < |steps| && steps[k] == Hit(pid) && run[k].input == run[|run| - 1].procs[pid].pc.at
    decreases |steps|
  {
    var n := |steps| - 1;
    if n >= 0 {
      assert Next(w, false, run[n], run[n + 1], steps[n]);
    }
    hide Next, Init;
    if OnHit(run[n], pid) && run[n].procs[pid].pc.at == run[n + 1].procs[pid].pc.at {
      k := ReusedInputWasCurrent(w, run[..n + 1], steps[..n], pid);
    } else {
      HitsBegin(w, run[n], run[n + 1], steps[n], pid);
      k := n;
    }
  }

  ghost predicate OnHit(s: State, pid: Pid) {
    pid in s.procs && (s.procs[pid].pc.Reused? || s.procs[pid].pc.Second?)
  }

  lemma HitsBegin(w: World, s: State, t: State, step: Step, pid: Pid)
    requires Next(w, false, s, t, step) && OnHit(t, pid)
    ensures || (OnHit(s, pid) && s.procs[pid].pc.at == t.procs[pid].pc.at)
            || (step == Hit(pid) && t.procs[pid].pc.at == s.input)
  {
  }

  // ---------------------------------------------------------------- the assumption about digests is needed

  function Alone(v: Version, pc: Pc, store: map<Slot, Entry>): State {
    State({0}, map[0 := v], map[0 := Proc(0, pc)], store)
  }

  const A: Input := map[0 := 0]
  const B: Input := map[0 := 1]
  const NOTHING: Input := map[]

  lemma ScanBegins(w: World) returns (run: seq<State>, steps: seq<Step>)
    ensures |run| == 5 && |steps| == 4 && Init(run[0]) && run[4] == Alone(0, Collecting(A, A, false), map[])
    ensures forall i :: 0 <= i < 4 ==> Next(w, true, run[i], run[i + 1], steps[i])
  {
    run := [State({0}, A, map[], map[]), Alone(0, First(NOTHING), map[]), Alone(0, First(A), map[]),
            Alone(0, Ready(A), map[]), Alone(0, Collecting(A, A, false), map[])];
    steps := [Begin(0, 0), Digest(0, 0), EndFirst(0), Miss(0)];
    assert NOTHING[0 := 0] == A;
  }

  lemma InputReturns(w: World, torn: Payload) returns (run: seq<State>, steps: seq<Step>)
    ensures |run| == 4 && |steps| == 3 && run[0] == Alone(0, Collecting(A, A, false), map[])
    ensures run[3] == Alone(0, Third(A, torn, A, B, NOTHING, false), map[])
    ensures forall i :: 0 <= i < 3 ==> Next(w, true, run[i], run[i + 1], steps[i])
  {
    run := [Alone(0, Collecting(A, A, false), map[]), Alone(1, Collecting(A, A, false), map[]),
            Alone(1, Third(A, torn, A, B, NOTHING, false), map[]), Alone(0, Third(A, torn, A, B, NOTHING, false), map[])];
    steps := [Change(0, 1), Collected(0, torn, true), Change(0, 0)];
    assert A != B by { assert A[0] != B[0]; }
    assert A[0 := 1] == B && B[0 := 0] == A;
  }

  lemma TornResultIsSaved(w: World, torn: Payload) returns (run: seq<State>, steps: seq<Step>)
    ensures |run| == 4 && |steps| == 3 && run[0] == Alone(0, Third(A, torn, A, B, NOTHING, false), map[])
    ensures run[3].store == map[w.slotOf(0) := Entry(0, A, torn)]
    ensures forall i :: 0 <= i < 3 ==> Next(w, true, run[i], run[i + 1], steps[i])
  {
    var store: map<Slot, Entry> := map[];
    run := [Alone(0, Third(A, torn, A, B, NOTHING, false), map[]), Alone(0, Third(A, torn, A, B, A, false), map[]),
            Alone(0, Saving(A, torn, false), map[]),
            Alone(0, Finished(torn, false), store[w.slotOf(0) := Entry(0, A, torn)])];
    steps := [Digest(0, 0), EndThird(0), Save(0)];
    assert NOTHING[0 := 0] == A;
  }

  /** If an input could return to an earlier digest, a result collected half from another input would be stored under it. */
  lemma ReturningDigestsBreakAgreement(w: World, torn: Payload) returns (run: seq<State>, steps: seq<Step>)
    ensures IsRun(w, true, run, steps)
    ensures run[|run| - 1].store == map[w.slotOf(0) := Entry(0, map[0 := 0], torn)]
  {
    var r0, t0 := ScanBegins(w);
    var r1, t1 := InputReturns(w, torn);
    var r2, t2 := TornResultIsSaved(w, torn);
    hide Next, Init;
    run, steps := r0 + r1[1..] + r2[1..], t0 + t1 + t2;
    forall i | 0 <= i < |steps| ensures Next(w, true, run[i], run[i + 1], steps[i]) {
      if i < 4 {
        assert Next(w, true, r0[i], r0[i + 1], t0[i]);
      } else if i < 7 {
        assert Next(w, true, r1[i - 4], r1[i - 4 + 1], t1[i - 4]);
      } else {
        assert Next(w, true, r2[i - 7], r2[i - 7 + 1], t2[i - 7]);
      }
    }
  }
}
