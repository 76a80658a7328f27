/** What a scan that may use the cache answers (shadowscan/engine.py, _ConnectorRunner._collect): a complete answer, reused
    or collected, is a fresh scan of one input that was current during that very scan; and a scan that nothing disturbs is
    complete. */
module CacheAnswers {
  import opened CacheAgreement

  // Step b is the last one so far that begins a scan of pid.
  ghost predicate BeganAt(steps: seq<Step>, b: nat, pid: Pid) {
    && b < |steps| && steps[b].Begin? && steps[b].pid == pid
    && forall i :: b < i < |steps| ==> !(steps[i].Begin? && steps[i].pid == pid)
  }

  // The input was x at some moment since step b.
  ghost predicate WasCurrent(run: seq<State>, b: nat, x: Input) {
    exists k :: b < k < |run| && run[k].input == x
  }

  ghost predicate IsFresh(w: World, run: seq<State>, b: nat, config: Config, payload: Payload) {
    exists k :: b < k < |run| && payload == w.scan(config, run[k].input)
  }

  ghost predicate Anchored(w: World, run: seq<State>, b: nat, p: Proc) {
    match p.pc
    case Second(_, _, at, _) => WasCurrent(run, b, at)
    case Reused(_, payload, at) => WasCurrent(run, b, at) && IsFresh(w, run, b, p.config, payload)
    case Third(_, _, _, at, _, _) => WasCurrent(run, b, at)
    case Saving(_, payload, _) => IsFresh(w, run, b, p.config, payload)
    case Finished(payload, incomplete) => incomplete || IsFresh(w, run, b, p.config, payload)
    case _ => true
  }

  lemma LongerRun(w: World, run: seq<State>, t: State, b: nat, p: Proc)
    requires Anchored(w, run, b, p)
    ensures Anchored(w, run + [t], b, p)
  {
    var more := run + [t];
    forall x | WasCurrent(run, b, x) ensures WasCurrent(more, b, x) {
      var k :| b < k < |run| && run[k].input == x;
      assert more[k].input == x;
    }
    forall payload | IsFresh(w, run, b, p.config, payload) ensures IsFresh(w, more, b, p.config, payload) {
      var k :| b < k < |run| && payload == w.scan(p.config, run[k].input);
      assert more[k].input == run[k].input;
    }
  }

  // One step of pid's own scan.
  lemma ProcStepAnchored(w: World, run: seq<State>, t: State, b: nat, step: Step, p: Proc)
    requires run != [] && b < |run| - 1 && Anchored(w, run, b, p)
    requires !step.Change? && !step.Evict? && !step.Begin?
    requires ProcNext(w, run[|run| - 1], t, step, p.config, p.pc)
    requires step.pid in t.procs && Sound(w, t, t.procs[step.pid]) && Sound(w, run[|run| - 1], p)
    requires run[|run| - 1].input.Keys == run[|run| - 1].files
    ensures Anchored(w, run + [t], b, t.procs[step.pid])
  {
    var s := run[|run| - 1];
    LongerRun(w, run, t, b, p);
    assert (run + [t])[|run| - 1] == s;
    assert WasCurrent(run + [t], b, s.input);
    if step.EndSecond? {
      EqualSnapshots(p.pc.snap, p.pc.at, p.pc.at, p.pc.got, s.input);
      FreshWhenCurrent(w, run + [t], b, p.config, p.pc.at);
    }
    if step.EndThird? {
      EqualSnapshots(p.pc.snap, p.pc.begun, p.pc.at, p.pc.got, s.input);
      FreshWhenCurrent(w, run + [t], b, p.config, p.pc.at);
    }
    hide Le, Between, IsFresh, WasCurrent;
  }

  lemma FreshWhenCurrent(w: World, run: seq<State>, b: nat, config: Config, x: Input)
    requires WasCurrent(run, b, x)
    ensures IsFresh(w, run, b, config, w.scan(config, x))
  {
    var k :| b < k < |run| && run[k].input == x;
    assert w.scan(config, x) == w.scan(config, run[k].input);
  }

  lemma {:induction false} ScanIsAnchored(w: World, run: seq<State>, steps: seq<Step>, pid: Pid) returns (b: nat)
    requires IsRun(w, false, run, steps) && pid in run[|run| - 1].procs
    ensures BeganAt(steps, b, pid) && steps[b].config == run[|run| - 1].procs[pid].config
    ensures Anchored(w, run, b, run[|run| - 1].procs[pid])
    decreases |steps|
  {
    var n := |steps| - 1;
    PrefixIsRun(w, run, steps);
    RunInv(w, run, steps);
    RunInv(w, run[..n + 1], steps[..n]);
    var s, t, step := run[n], run[n + 1], steps[n];
    assert run == run[..n + 1] + [t] && run[..n + 1][n] == s;
    hide IsRun, Anchored, Next, Init;
    if step == Begin(pid, t.procs[pid].config) {
      b := n;
      FirstIsAnchored(w, run, b, s, t, step, pid);
    } else {
      OthersStay(w, s, t, step, pid);
      b := ScanIsAnchored(w, run[..n + 1], steps[..n], pid);
      assert steps[..n][b] == steps[b];
      if Mine(step, pid) {
        StepSound(w, s, t, step, pid);
        ProcStepAnchored(w, run[..n + 1], t, b, step, s.procs[pid]);
      } else {
        LongerRun(w, run[..n + 1], t, b, s.procs[pid]);
      }
    }
  }

  predicate Mine(step: Step, pid: Pid) {
    !step.Change? && !step.Evict? && !step.Begin? && step.pid == pid
  }

  lemma PrefixIsRun(w: World, run: seq<State>, steps: seq<Step>)
    requires IsRun(w, false, run, steps) && run[|run| - 1].procs != map[]
    ensures |steps| > 0 && IsRun(w, false, run[..|steps|], steps[..|steps| - 1])
    ensures Next(w, false, run[|steps| - 1], run[|steps|], steps[|steps| - 1])
  {
    hide Next;
  }

  lemma FirstIsAnchored(w: World, run: seq<State>, b: nat, s: State, t: State, step: Step, pid: Pid)
    requires Next(w, false, s, t, step) && step.Begin? && step.pid == pid
    ensures pid in t.procs && Anchored(w, run, b, t.procs[pid])
  {
  }

  lemma OthersStay(w: World, s: State, t: State, step: Step, pid: Pid)
    requires Next(w, false, s, t, step) && pid in t.procs && step != Begin(pid, t.procs[pid].config)
    ensures pid in s.procs && s.procs[pid].config == t.procs[pid].config
    ensures !(step.Begin? && step.pid == pid)
    ensures !Mine(step, pid) ==> t.procs[pid] == s.procs[pid]
    ensures Mine(step, pid) ==> ProcNext(w, s, t, step, s.procs[pid].config, s.procs[pid].pc)
  {
  }

  lemma StepSound(w: World, s: State, t: State, step: Step, pid: Pid)
    requires Inv(w, s) && Inv(w, t) && pid in s.procs && pid in t.procs
    ensures Sound(w, s, s.procs[pid]) && Sound(w, t, t.procs[pid]) && s.input.Keys == s.files
  {
  }

  predicate Answered(pc: Pc) {
    pc.Reused? || (pc.Finished? && !pc.incomplete)
  }

  /** Whatever changes and however scans interleave, a complete answer is what a fresh scan gives of the whole input at one
      moment since the scan began. */
  lemma AnswerIsFresh(w: World, run: seq<State>, steps: seq<Step>, pid: Pid) returns (b: nat, k: nat)
    requires IsRun(w, false, run, steps)
    requires pid in run[|run| - 1].procs && Answered(run[|run| - 1].procs[pid].pc)
    ensures BeganAt(steps, b, pid) && b < k < |run|
    ensures var p := run[|run| - 1].procs[pid];
            steps[b] == Begin(pid, p.config) && p.pc.payload == w.scan(p.config, run[k].input)
  {
    b := ScanIsAnchored(w, run, steps, pid);
    hide IsRun, BeganAt;
    var p := run[|run| - 1].procs[pid];
    assert IsFresh(w, run, b, p.config, p.pc.payload);
    k :| b < k < |run| && p.pc.payload == w.scan(p.config, run[k].input);
  }

  // ---------------------------------------------------------------- a scan that nothing disturbs

  ghost predicate PartOf(got: Input, x: Input) {
    forall f :: f in got ==> f in x && got[f] == x[f]
  }

  // pid's scan so far, when the input has been x all along.
  ghost predicate Calm(p: Proc, x: Input) {
    match p.pc
    case Idle => false
    case First(got) => PartOf(got, x)
    case Ready(snap) => snap == x
    case Second(snap, _, at, got) => snap == at == x && PartOf(got, x)
    case Reused(_, _, _) => true
    case Collecting(snap, _, refused) => snap == x && !refused
    case Third(snap, _, _, _, got, refused) => snap == x && PartOf(got, x) && !refused
    case Saving(snap, _, refused) => snap == x && !refused
    case Finished(_, incomplete) => !incomplete
  }

  // A step of pid that is not its connector's or its snapshot's own failure.
  predicate Succeeds(step: Step) {
    !step.SnapshotFails? && (step.Collected? ==> step.complete)
  }

  lemma CalmStep(w: World, s: State, t: State, step: Step, p: Proc)
    requires !step.Change? && !step.Evict? && !step.Begin? && Succeeds(step)
    requires s.input.Keys == s.files && Calm(p, s.input) && ProcNext(w, s, t, step, p.config, p.pc)
    ensures step.pid in t.procs && Calm(t.procs[step.pid], s.input)
  {
    if p.pc.First? && p.pc.got.Keys == s.files { assert p.pc.got == s.input; }
    if (p.pc.Second? || p.pc.Third?) && p.pc.got.Keys == s.files { assert p.pc.got == s.input; }
  }

  ghost predicate Undisturbed(run: seq<State>, steps: seq<Step>, b: nat, pid: Pid)
    requires |run| == |steps| + 1 && b < |steps|
  {
    && (forall i :: b < i < |run| ==> run[i].input == run[b].input)
    && (forall i :: b < i < |steps| && Mine(steps[i], pid) ==> Succeeds(steps[i]))
  }

  lemma {:induction false} StaysCalm(w: World, run: seq<State>, steps: seq<Step>, b: nat, n: nat, pid: Pid)
    requires IsRun(w, false, run, steps) && BeganAt(steps, b, pid) && b < n <= |steps| && Undisturbed(run, steps, b, pid)
    ensures pid in run[n].procs && Calm(run[n].procs[pid], run[b].input)
    decreases n
  {
    var s, t, step := run[n - 1], run[n], steps[n - 1];
    StepOfRun(w, run, steps, n - 1);
    hide IsRun, Next, Calm;
    if n - 1 == b {
      BeginIsCalm(w, s, t, step, pid, s.input);
    } else {
      StaysCalm(w, run, steps, b, n - 1, pid);
      OthersKeep(w, s, t, step, pid);
      if Mine(step, pid) { CalmStep(w, s, t, step, s.procs[pid]); }
    }
  }

  lemma BeginIsCalm(w: World, s: State, t: State, step: Step, pid: Pid, x: Input)
    requires Next(w, false, s, t, step) && step.Begin? && step.pid == pid
    ensures pid in t.procs && Calm(t.procs[pid], x)
  {
  }

  lemma OthersKeep(w: World, s: State, t: State, step: Step, pid: Pid)
    requires Next(w, false, s, t, step) && pid in s.procs && !(step.Begin? && step.pid == pid)
    ensures pid in t.procs
    ensures !Mine(step, pid) ==> t.procs[pid] == s.procs[pid]
    ensures Mine(step, pid) ==> ProcNext(w, s, t, step, s.procs[pid].config, s.procs[pid].pc)
  {
  }

  lemma StepOfRun(w: World, run: seq<State>, steps: seq<Step>, i: nat)
    requires IsRun(w, false, run, steps) && i < |steps|
    ensures Next(w, false, run[i], run[i + 1], steps[i]) && run[i].input.Keys == run[i].files
  {
    hide Next, Inv;
    var part := run[..i + 1];
    assert IsRun(w, false, part, steps[..i]);
    RunInv(w, part, steps[..i]);
    KeysOf(w, part[i]);
  }

  lemma KeysOf(w: World, s: State)
    requires Inv(w, s)
    ensures s.input.Keys == s.files
  {
  }

  /** A scan during which no input changes, and whose snapshots and connector succeed, ends complete. */
  lemma UndisturbedScanIsComplete(w: World, run: seq<State>, steps: seq<Step>, b: nat, pid: Pid)
    requires IsRun(w, false, run, steps) && BeganAt(steps, b, pid) && Undisturbed(run, steps, b, pid)
    ensures pid in run[|run| - 1].procs
    ensures var pc := run[|run| - 1].procs[pid].pc;
            !pc.Idle? && (pc.Finished? ==> !pc.incomplete) && (pc.Collecting? ==> !pc.refused)
  {
    StaysCalm(w, run, steps, b, |steps|, pid);
    hide IsRun, BeganAt, Undisturbed;
  }

  // ---------------------------------------------------------------- a hit that is refused

  ghost predicate Refused(pc: Pc) {
    (pc.Collecting? && pc.refused) || (pc.Third? && pc.refused) || (pc.Finished? && pc.incomplete)
  }

  lemma RefusalStays(w: World, s: State, t: State, step: Step, pid: Pid)
    requires Inv(w, t) && pid in s.procs && Refused(s.procs[pid].pc)
    requires Next(w, false, s, t, step) && !(step.Begin? && step.pid == pid)
    ensures pid in t.procs && Refused(t.procs[pid].pc)
  {
    OthersKeep(w, s, t, step, pid);
    if Mine(step, pid) {
      var p := t.procs[pid];
      assert p.pc.Saving? ==> !p.pc.refused by { SavingIsNotRefused(w, t, pid); }
    }
    hide Next, Inv;
  }

  lemma SavingIsNotRefused(w: World, t: State, pid: Pid)
    requires Inv(w, t) && pid in t.procs
    ensures t.procs[pid].pc.Saving? ==> !t.procs[pid].pc.refused
  {
  }

  lemma HitIsRefused(w: World, s: State, t: State, pid: Pid)
    requires Next(w, false, s, t, EndSecond(pid)) && pid in s.procs
    requires s.procs[pid].pc.Second? && s.procs[pid].pc.got != s.procs[pid].pc.snap
    ensures pid in t.procs && Refused(t.procs[pid].pc)
  {
  }

  /** A scan whose hit was refused, since a file moved between its two snapshots, saves nothing and is incomplete: only a
      rerun can answer. */
  lemma {:induction false} RefusedHitIsIncomplete(w: World, run: seq<State>, steps: seq<Step>, k: nat, n: nat, pid: Pid)
    requires IsRun(w, false, run, steps) && k < n <= |steps| && steps[k] == EndSecond(pid)
    requires pid in run[k].procs && run[k].procs[pid].pc.Second? && run[k].procs[pid].pc.got != run[k].procs[pid].pc.snap
    requires forall i :: k < i < n ==> !(steps[i].Begin? && steps[i].pid == pid)
    ensures pid in run[n].procs && Refused(run[n].procs[pid].pc)
    ensures !run[n].procs[pid].pc.Saving? && !Answered(run[n].procs[pid].pc)
    decreases n
  {
    hide Next, Inv;
    var s, t, step := run[n - 1], run[n], steps[n - 1];
    hide IsRun;
    StepOfRun(w, run, steps, n - 1);
    PartOfRun(w, run, steps, n);
    if n - 1 == k {
      HitIsRefused(w, s, t, pid);
    } else {
      RefusedHitIsIncomplete(w, run, steps, k, n - 1, pid);
      RefusalStays(w, s, t, step, pid);
    }
  }

  lemma PartOfRun(w: World, run: seq<State>, steps: seq<Step>, n: nat)
    requires IsRun(w, false, run, steps) && n <= |steps|
    ensures Inv(w, run[n])
  {
    hide Next, Inv;
    assert IsRun(w, false, run[..n + 1], steps[..n]);
    RunInv(w, run[..n + 1], steps[..n]);
  }

  lemma SaveStores(w: World, s: State, t: State, pid: Pid)
    requires pid in s.procs && Next(w, false, s, t, Save(pid))
    ensures w.slotOf(s.procs[pid].config) in t.store
    ensures forall slot :: slot != w.slotOf(s.procs[pid].config) ==>
              (slot in t.store <==> slot in s.store) && (slot in s.store ==> t.store[slot] == s.store[slot])
  {
  }

  /** What a scan saves, any later scan of that configuration and input finds, as long as the entry stays. */
  lemma SavedIsFound(w: World, s: State, t: State, pid: Pid, u: State, other: Pid) returns (v: State)
    requires pid in s.procs && s.procs[pid].pc.Saving? && Next(w, false, s, t, Save(pid))
    requires other in u.procs && u.procs[other] == Proc(s.procs[pid].config, Ready(s.procs[pid].pc.snap))
    requires var slot := w.slotOf(s.procs[pid].config); slot in t.store && slot in u.store && u.store[slot] == t.store[slot]
    ensures Next(w, false, u, v, Hit(other))
    ensures other in v.procs && v.procs[other].pc.Second? && v.procs[other].pc.payload == s.procs[pid].pc.payload
  {
    var p := s.procs[pid];
    v := Move(u, other, p.config, Second(p.pc.snap, p.pc.payload, u.input, map[]));
  }
}
