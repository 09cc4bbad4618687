/**
  * Why a machine speculates and why it stops: nothing is speculated that the kernel did not admit, no branch
  * is turned that was not to be, and every rollback is counted under what brought it about.
  */
module Causes {
  import opened Options
  import opened Bytes
  import opened UndoLog
  import opened Runtime
  import Rollback
  import Speculation
  import opened Ir
  import opened Passes
  import opened Placement
  import opened Machine
  import opened Transparency
  import opened Flip

  // ----- Without admission -----

  predicate NoneAdmitted(chs: seq<Choice>) {
    forall k :: 0 <= k < |chs| ==> !chs[k].admitted
  }

  lemma NotTaken(s: State, ch: Choice)
    requires !ch.admitted
    ensures !TakesAt(s, ch) && !TakesCheckpoint(s.rt, ch.admitted)
  {
  }

  /** Without a checkpoint a step does not begin to speculate. */
  lemma StepStaysOut(c: Setup, q: Program, s: State, ch: Choice)
    requires MachineInv(c, q, s) && !s.rt.inSpec && !ch.admitted
    ensures !Step(c, q, s, ch).rt.inSpec && !StepTakes(c, s, ch)
  {
    hide StackOk, SpecOk, Speculation.Inv, Stacked, WindowAt, HookOutcome, TakesCheckpoint, Exec, Panic, Scribble,
         EnvOf, FrameOk, TailGuarded;
    if s.status == Running {
      ScribbleStep(c, q, s, ch);
      var s0 := Scribble(s, ch);
      AssertStep(c, q, s0, ch);
      var s1 := AfterAssert(c, s0, ch);
      NotTaken(s1, ch);
      if s1.status == Running && AtHook(s1) {
        StackFacts(q, s1.stack);
        var top := s1.stack[|s1.stack| - 1];
        TopEnv(s1.lo, |s1.rt.mem|, s1.stack, s1.rt.mem);
        LogFollowsSpec(c, q, s1);
        OutsideFlags(c, s1.rt);
        HookKeepsSwap(c, s1.rt, top.code[0], EnvOf(s1.lo, top, s1.rt.mem), ch, WindowAt(s1, ch.window));
      }
    }
  }

  lemma OutsideFlags(c: Setup, rt: Rt)
    requires Speculation.Inv(c, rt) && !rt.inSpec
    ensures !rt.swap && !rt.inRestart && !rt.assertion
  {
  }

  /** A machine whose choices admit no checkpoint never speculates. */
  lemma {:induction false} NothingWithoutAdmission(c: Setup, q: Program, s: State, chs: seq<Choice>)
    requires WellHooked(q) && MachineInv(c, q, s) && !s.rt.inSpec && NoneAdmitted(chs)
    ensures !Run(c, q, s, chs).rt.inSpec && Checkpoints(c, q, s, chs) == 0
  {
    hide WellHooked, StackOk, SpecOk, Speculation.Inv, Stacked, Step, StepTakes;
    if chs != [] {
      var n := |chs| - 1;
      NothingWithoutAdmission(c, q, s, chs[..n]);
      Flip.RunInv(c, q, s, chs[..n]);
      StepStaysOut(c, q, Run(c, q, s, chs[..n]), chs[n]);
    }
  }

  // ----- Without swapping -----

  predicate NoneSwapped(chs: seq<Choice>) {
    forall k :: 0 <= k < |chs| ==> !chs[k].swapEnabled
  }

  lemma HookLeavesSwapOff(c: Setup, rt: Rt, i: Instr, env: Env, ch: Choice, w: Window)
    requires Shape(rt) && IsHook(i) && rt.logEnabled == rt.inSpec && !rt.swap && !ch.swapEnabled
    requires 0 <= env.sp <= env.base <= |rt.mem|
    ensures !HookOutcome(c, rt, i, env, ch, w).s.swap
  {
    hide Restored, AllRestorable, WriteWl, LogRange, AddRestart, AddTrace, HookOutcome;
    HookKeepsSwap(c, rt, i, env, ch, w);
    if i.CheckpointHook? {
      CheckpointLeavesSwapOff(c, rt, i, env, ch, w);
    }
  }

  lemma CheckpointLeavesSwapOff(c: Setup, rt: Rt, i: Instr, env: Env, ch: Choice, w: Window)
    requires Shape(rt) && i.CheckpointHook? && !rt.swap && !ch.swapEnabled
    ensures !HookOutcome(c, rt, i, env, ch, w).s.swap
  {
  }

  lemma RestartLeavesSwapOff(c: Setup, s: Rt, t: RestartType, w: Window)
    requires Shape(s) && !s.swap
    ensures !Restart(c, s, t, w).s.swap && !Panic(c, s, w).s.swap
  {
    hide Restored, AllRestorable;
  }

  lemma AtHookLeavesSwapOff(c: Setup, q: Program, s: State, ch: Choice)
    requires MachineInv(c, q, s) && s.status == Running && AtHook(s) && !s.rt.swap && !ch.swapEnabled
    ensures !ExecHook(c, s, ch).rt.swap
  {
    hide StackOk, SpecOk, Speculation.Inv, Stacked, WindowAt, HookOutcome, EnvOf, Shape, Rewind;
    var top := s.stack[|s.stack| - 1];
    TopEnv(s.lo, |s.rt.mem|, s.stack, s.rt.mem);
    LogFollowsSpec(c, q, s);
    HookLeavesSwapOff(c, s.rt, top.code[0], EnvOf(s.lo, top, s.rt.mem), ch, WindowAt(s, ch.window));
  }

  lemma ProceedLeavesSwapOff(c: Setup, q: Program, s: State, ch: Choice)
    requires MachineInv(c, q, s) && s.status == Running && !s.rt.swap && !ch.swapEnabled
    ensures !Proceed(c, q, s, ch).rt.swap
  {
    hide StackOk, SpecOk, Speculation.Inv, Stacked, WindowAt, Exec, Restart, Shape, ExecHook, Rewind, AtSwapBr;
    var w := WindowAt(s, ch.window);
    RestartLeavesSwapOff(c, s.rt, OnPageFault, w);
    if ch.irq.Some? {
      RestartLeavesSwapOff(c, s.rt, RestartOf(ch.irq.value), w);
    }
    if AtHook(s) {
      AtHookLeavesSwapOff(c, q, s, ch);
    }
  }

  lemma StepLeavesSwapOff(c: Setup, q: Program, s: State, ch: Choice)
    requires MachineInv(c, q, s) && !s.rt.swap && !ch.swapEnabled
    ensures !Step(c, q, s, ch).rt.swap && !StepFlips(c, s, ch)
  {
    hide StackOk, SpecOk, Speculation.Inv, Stacked, WindowAt, Panic, Scribble, Proceed, Restart, Shape, Resume, Rewind;
    if s.status == Running {
      ScribbleStep(c, q, s, ch);
      var s0 := Scribble(s, ch);
      AssertStep(c, q, s0, ch);
      RestartLeavesSwapOff(c, s0.rt, OnTimer, WindowAt(s0, ch.window));
      var s1 := AfterAssert(c, s0, ch);
      if s1.status == Running {
        ProceedLeavesSwapOff(c, q, s1, ch);
      }
    }
  }

  /** A machine whose choices have swapping off runs no branch the wrong way. */
  lemma {:induction false} NoFlipWithoutSwapping(c: Setup, q: Program, s: State, chs: seq<Choice>)
    requires WellHooked(q) && MachineInv(c, q, s) && !s.rt.swap && NoneSwapped(chs)
    ensures !Run(c, q, s, chs).rt.swap && Flips(c, q, s, chs) == 0
  {
    hide WellHooked, StackOk, SpecOk, Speculation.Inv, Stacked, Step, StepFlips;
    if chs != [] {
      var n := |chs| - 1;
      NoFlipWithoutSwapping(c, q, s, chs[..n]);
      Flip.RunInv(c, q, s, chs[..n]);
      StepLeavesSwapOff(c, q, Run(c, q, s, chs[..n]), chs[n]);
    }
  }

  // ----- What the hooks hand over -----

  /** The event that a hook of the program is for the runtime. */
  function EventOf(i: Instr, env: Env, ch: Choice): Option<Speculation.Event> {
    match i
    case RestartHook(t) => Some(Speculation.RestartHook(t))
    case CallDepthHook => Some(Speculation.Enter)
    case SpecLengthHook(n) => Some(Speculation.BlockEnd(n))
    case CheckpointHook => Some(Speculation.Checkpoint(ch.admitted, ch.swapEnabled, env.base, env.sp))
    case _ => None
  }

  /** The write whose hook it is. */
  function OpOf(i: Instr, env: Env): Option<Rollback.Op> {
    match i
    case StoreHook(a) => Some(Rollback.Store(a(env), []))
    case MemcpyHook(a, v) => Some(Rollback.Copy(a(env), v(env)))
    case _ => None
  }

  /**
    * In the machine every hook is the event of the same name, with its reason, size, verdict and frame, and
    * the hook of a write is called for just that write. So what holds over runs of events holds of them.
    */
  lemma HookIsEvent(c: Setup, rt: Rt, i: Instr, env: Env, ch: Choice, w: Window)
    requires Shape(rt) && IsHook(i)
    ensures EventOf(i, env, ch).Some? || OpOf(i, env).Some?
    ensures EventOf(i, env, ch).Some? && Speculation.EventOk(rt.mem, EventOf(i, env, ch).value) ==>
              HookOutcome(c, rt, i, env, ch, w) == Speculation.Step(c, rt, EventOf(i, env, ch).value, w)
    ensures OpOf(i, env).Some? && Rollback.OpOk(rt.mem, OpOf(i, env).value) ==>
              HookOutcome(c, rt, i, env, ch, w) == Rollback.OpHook(c, rt, OpOf(i, env).value, w)
  {
    hide Restart, HookCheckpoint, WriteWl, LogRange, Loggable, RangeLoggable;
  }

  // ----- What each rollback is counted under -----

  /** The counter that a rollback in a hook belongs to. */
  predicate HookCause(i: Instr, m: Mem, env: Env, t: Reason) {
    match i
    case StoreHook(a) => t == if Loggable(m, a(env)) then OnWritelogFull else OnPageFault
    case MemcpyHook(a, v) =>
      t == if RangeLoggable(m, CopyStart(a(env)), a(env) + |v(env)|) then OnWritelogFull else OnPageFault
    case RestartHook(u) => t == u
    case CallDepthHook => t == OnCallDepth
    case SpecLengthHook(_) => t == OnLimitSpec
    case _ => false
  }

  /** The counter that a rollback belongs to: the interrupt's, the hook's, or that of a fault. */
  predicate CausedBy(s: State, ch: Choice, t: Reason) {
    if ch.irq.Some? then
      match ch.irq.value
      case TimerIrq => t == OnTimer
      case ExceptionIrq => t == OnException
      case PageFaultIrq => t == OnPageFault
    else if AtHook(s) then
      var top := s.stack[|s.stack| - 1];
      HookCause(top.code[0], s.rt.mem, EnvOf(s.lo, top, s.rt.mem), t)
    else t == OnPageFault
  }

  /** The step rolls back and goes on from the checkpoint, because of `t`. */
  predicate RollsBack(c: Setup, q: Program, s: State, ch: Choice, t: Reason)
    requires Shape(s.rt)
  {
    var s1 := AfterAssert(c, Scribble(s, ch), ch);
    && s.status == Running && s.rt.inSpec
    && Step(c, q, s, ch).status == Running && !Step(c, q, s, ch).rt.inSpec
    && CausedBy(s1, ch, t)
  }

  /** How many rollbacks of a run were because of `t`. */
  function RolledBack(c: Setup, q: Program, s: State, chs: seq<Choice>, t: Reason): int
    requires Shape(s.rt)
  {
    if chs == [] then 0 else
    var n := |chs| - 1;
    RolledBack(c, q, s, chs[..n], t) + Speculation.Bit(RollsBack(c, q, Run(c, q, s, chs[..n]), chs[n], t))
  }

  /** A hook that resumes counts itself, and only itself. */
  ghost predicate Counts(rt: Rt, r: Outcome, t: Reason, u: Reason) {
    && (r.exit == Continues ==> Speculation.Counter(r.s.stats, t) == Speculation.Counter(rt.stats, t))
    && (r.exit == Resumes ==>
          Speculation.Counter(r.s.stats, t) == Speculation.Counter(rt.stats, t) + Speculation.Bit(t == u))
  }

  lemma AddCounts(st: Stats, u: Reason, t: Reason)
    ensures Speculation.Counter(AddRestart(st, u), t) == Speculation.Counter(st, t) + Speculation.Bit(t == u)
  {
  }

  lemma RestartCounts(c: Setup, s: Rt, u: Reason, w: Window, t: Reason)
    requires Shape(s)
    ensures Counts(s, Restart(c, s, u, w), t, u)
  {
    hide Restored, AllRestorable, AddRestart, Speculation.Counter;
    AddCounts(s.stats, u, t);
  }

  lemma LengthCounts(c: Setup, s: Rt, n: int, w: Window, t: Reason)
    requires Shape(s)
    ensures Counts(s, HookSpecLength(c, s, n, w), t, OnLimitSpec)
  {
    hide Restart, Speculation.Counter;
    RestartCounts(c, s.(instrCount := s.instrCount + n), OnLimitSpec, w, t);
  }

  lemma DepthCounts(c: Setup, s: Rt, w: Window, t: Reason)
    requires Shape(s)
    ensures Counts(s, HookCallDepth(c, s, w), t, OnCallDepth)
  {
    hide Restart, AddTrace, Speculation.Counter;
    RestartCounts(c, s.(trace := AddTrace(s.trace, CheckCallDepth), callDepth := s.callDepth + 1), OnCallDepth, w, t);
  }

  lemma LogCounts(c: Setup, s: Rt, r: Outcome, t: Reason)
    requires Speculation.CountsFull(s, r)
    ensures Counts(s, r, t, OnWritelogFull)
  {
    Speculation.FullCounter(s.stats, t);
  }

  lemma StoreHookCounts(c: Setup, rt: Rt, a: int, w: Window, t: Reason)
    requires Shape(rt) && rt.logEnabled && rt.inSpec && Loggable(rt.mem, a)
    ensures Counts(rt, HookStore(c, rt, a, w), t, OnWritelogFull)
  {
    hide Speculation.Counter, WriteWl, Loggable;
    Speculation.WriteWlCounts(c, rt, a, w);
    LogCounts(c, rt, HookStore(c, rt, a, w), t);
  }

  lemma CopyHookCounts(c: Setup, rt: Rt, a: int, n: nat, w: Window, t: Reason)
    requires Shape(rt) && rt.logEnabled && rt.inSpec && RangeLoggable(rt.mem, CopyStart(a), a + n)
    ensures Counts(rt, HookMemcpy(c, rt, a, n, w), t, OnWritelogFull)
  {
    hide Speculation.Counter, LogRange, RangeLoggable;
    Speculation.LogRangeCounts(c, rt, CopyStart(a), a + n, w);
    LogCounts(c, rt, HookMemcpy(c, rt, a, n, w), t);
  }

  lemma HookCounts(c: Setup, rt: Rt, i: Instr, env: Env, ch: Choice, w: Window, t: Reason)
    requires Shape(rt) && rt.logEnabled && rt.inSpec && IsHook(i)
    ensures var r := HookOutcome(c, rt, i, env, ch, w);
            && (r.exit == Continues ==> Speculation.Counter(r.s.stats, t) == Speculation.Counter(rt.stats, t))
            && (r.exit == Resumes ==>
                  Speculation.Counter(r.s.stats, t)
                  == Speculation.Counter(rt.stats, t) + Speculation.Bit(HookCause(i, rt.mem, env, t)))
  {
    hide Restart, Speculation.Counter, HookStore, HookMemcpy, HookCallDepth, HookSpecLength, Loggable, RangeLoggable;
    match i
    case StoreHook(a) =>
      if Loggable(rt.mem, a(env)) {
        StoreHookCounts(c, rt, a(env), w, t);
      } else {
        RestartCounts(c, rt, OnPageFault, w, t);
      }
    case MemcpyHook(a, v) =>
      if RangeLoggable(rt.mem, CopyStart(a(env)), a(env) + |v(env)|) {
        CopyHookCounts(c, rt, a(env), |v(env)|, w, t);
      } else {
        RestartCounts(c, rt, OnPageFault, w, t);
      }
    case RestartHook(u) => RestartCounts(c, rt, u, w, t);
    case CallDepthHook => DepthCounts(c, rt, w, t);
    case SpecLengthHook(n) => LengthCounts(c, rt, n, w, t);
    case CheckpointHook =>
  }

  /** What a step in speculation counts. */
  ghost predicate StepCounts(s: State, s': State, ch: Choice, t: Reason) {
    s'.status == Running ==>
      Speculation.Counter(s'.rt.stats, t)
      == Speculation.Counter(s.rt.stats, t) + Speculation.Bit(!s'.rt.inSpec && CausedBy(s, ch, t))
  }

  lemma AtHookCounts(c: Setup, q: Program, s: State, ch: Choice, t: Reason)
    requires MachineInv(c, q, s) && s.status == Running && s.rt.inSpec && AtHook(s) && ch.irq.None?
    ensures StepCounts(s, ExecHook(c, s, ch), ch, t)
    ensures ExecHook(c, s, ch).status == Running || ExecHook(c, s, ch).status == Panicked
  {
    hide StackOk, SpecOk, Speculation.Inv, Stacked, WindowAt, HookOutcome, Speculation.Counter, HookCause, EnvOf,
         FrameOk, TailGuarded, Shape;
    LogFollowsSpec(c, q, s);
    var top := s.stack[|s.stack| - 1];
    TopEnv(s.lo, |s.rt.mem|, s.stack, s.rt.mem);
    var i, env, w := top.code[0], EnvOf(s.lo, top, s.rt.mem), WindowAt(s, ch.window);
    HookCounts(c, s.rt, i, env, ch, w, t);
    HookKeepsSwap(c, s.rt, i, env, ch, w);
  }

  lemma PlainCounts(c: Setup, q: Program, s: State, ch: Choice, w: Window, t: Reason)
    requires MachineInv(c, q, s) && s.status == Running && s.rt.inSpec && !AtHook(s) && ch.irq.None?
    ensures StepCounts(s, ExecPlain(c, q, s, w), ch, t)
    ensures var s' := ExecPlain(c, q, s, w); s'.status == Running || s'.status == Panicked || s'.rt.inSpec
  {
    hide StackOk, SpecOk, Speculation.Inv, Stacked, Exec, Speculation.Counter, Restart, Shape, Rewind, AtHook,
         AtSwapBr, Apart;
    RestartCounts(c, s.rt, OnPageFault, w, t);
    RestartLeaves(c, s.rt, OnPageFault, w);
  }

  lemma IrqCounts(c: Setup, s: State, ch: Choice, w: Window, t: Reason)
    requires Shape(s.rt) && s.status == Running && s.rt.inSpec && ch.irq.Some?
    ensures StepCounts(s, Land(s, Restart(c, s.rt, RestartOf(ch.irq.value), w), s.stack), ch, t)
  {
    hide Speculation.Counter, Restart, Shape;
    var u := RestartOf(ch.irq.value);
    RestartCounts(c, s.rt, u, w, t);
    RestartLeaves(c, s.rt, u, w);
  }

  /** A restart that is not a return leaves speculation. */
  lemma RestartLeaves(c: Setup, s: Rt, u: Reason, w: Window)
    requires Shape(s) && s.inSpec && u != OnReturn
    ensures !Restart(c, s, u, w).s.inSpec && Restart(c, s, u, w).exit != Continues
  {
    hide Restored, AllRestorable;
  }

  lemma AssertCounts(c: Setup, s: State, ch: Choice)
    requires Shape(s.rt) && s.status == Running
    ensures var s1 := AfterAssert(c, s, ch);
            s1.status == Panicked || (s1.status == Running && s1.rt.stats == s.rt.stats)
  {
    hide Restored, AllRestorable, WindowAt;
  }

  /** Outside speculation nothing is counted. */
  lemma OutsideCounts(c: Setup, q: Program, s: State, ch: Choice)
    requires MachineInv(c, q, s) && s.status == Running && !s.rt.inSpec
    ensures Proceed(c, q, s, ch).rt.stats == s.rt.stats
  {
    hide StackOk, SpecOk, Stacked, WindowAt, Exec, EnvOf, FrameOk, TailGuarded;
    StackFacts(q, s.stack);
  }

  lemma ProceedCounts(c: Setup, q: Program, s: State, ch: Choice, t: Reason)
    requires MachineInv(c, q, s) && s.status == Running && s.rt.inSpec
    ensures StepCounts(s, Proceed(c, q, s, ch), ch, t)
    ensures var s' := Proceed(c, q, s, ch); s'.status == Running || s'.status == Panicked || s'.rt.inSpec
  {
    hide StackOk, SpecOk, Speculation.Inv, Stacked, WindowAt, Speculation.Counter, ExecHook, ExecPlain, Restart,
         CausedBy, Shape, AtHook, StepCounts;
    if ch.irq.Some? {
      IrqCounts(c, s, ch, WindowAt(s, ch.window), t);
    } else if AtHook(s) {
      AtHookCounts(c, q, s, ch, t);
    } else {
      PlainCounts(c, q, s, ch, WindowAt(s, ch.window), t);
    }
  }

  lemma StepCounted(c: Setup, q: Program, s: State, ch: Choice, t: Reason)
    requires WellHooked(q) && MachineInv(c, q, s) && Step(c, q, s, ch).status != Panicked
    ensures Speculation.Counter(Step(c, q, s, ch).rt.stats, t)
         == Speculation.Counter(s.rt.stats, t) + Speculation.Bit(RollsBack(c, q, s, ch, t))
  {
    hide StackOk, SpecOk, Speculation.Inv, Stacked, Speculation.Counter, Proceed, Scribble, AfterAssert, CausedBy,
         Resume, Shape, WellHooked, Exec, Observed;
    StepTransparent(c, q, s, ch);
    if s.status == Running {
      ScribbleStep(c, q, s, ch);
      var s0 := Scribble(s, ch);
      AssertStep(c, q, s0, ch);
      AssertCounts(c, s0, ch);
      var s1 := AfterAssert(c, s0, ch);
      if s1.status == Running {
        if s.rt.inSpec {
          ProceedCounts(c, q, s1, ch, t);
        } else {
          OutsideCounts(c, q, s1, ch);
        }
      }
    }
  }

  /**
    * After every run without a panic, each of the twelve counters is the number of rollbacks that were
    * brought about by what it stands for: an interrupt, a hook, a limit, a full log or a fault.
    */
  lemma {:induction false} CountersTellCauses(c: Setup, q: Program, s: State, chs: seq<Choice>, t: Reason)
    requires WellHooked(q) && MachineInv(c, q, s) && Run(c, q, s, chs).status != Panicked
    ensures Speculation.Counter(Run(c, q, s, chs).rt.stats, t)
         == Speculation.Counter(s.rt.stats, t) + RolledBack(c, q, s, chs, t)
  {
    hide WellHooked, StackOk, SpecOk, Speculation.Inv, Stacked, Proceed, RollsBack, Speculation.Counter;
    if chs != [] {
      var n := |chs| - 1;
      Flip.RunInv(c, q, s, chs[..n]);
      CountersTellCauses(c, q, s, chs[..n], t);
      StepCounted(c, q, Run(c, q, s, chs[..n]), chs[n], t);
    }
  }

  /** So after every such run from the start of any program, instrumented in any order. */
  lemma CountersFromBoot(c: Setup, order: seq<Pass>, p: Program, j: Job, chs: seq<Choice>, t: Reason)
    requires Order(order) && SourceProgram(p) && Ready(p, j)
    requires Speculation.SetupOk(c) && Apart(c, |j.mem|)
    ensures var q := Instrument(order, p);
            && Ready(q, j)
            && (Run(c, q, Boot(q, j), chs).status != Panicked ==>
                  Speculation.Counter(Run(c, q, Boot(q, j), chs).rt.stats, t) == RolledBack(c, q, Boot(q, j), chs, t))
  {
    hide WellHooked, MachineInv, RolledBack, Apart, Run, Behind;
    var q := Instrument(order, p);
    BootBehind(c, order, p, j);
    if Run(c, q, Boot(q, j), chs).status != Panicked {
      CountersTellCauses(c, q, Boot(q, j), chs, t);
    }
  }
}
