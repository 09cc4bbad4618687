/** Which branches run the wrong way: the branch of a checkpoint, once, and never again after the rollback. */
module Flip {
  import opened Bytes
  import opened UndoLog
  import opened Runtime
  import Speculation
  import opened Ir
  import opened Passes
  import opened Placement
  import opened Machine
  import opened Transparency

  /** While the swap flag is set, the machine stands before the very branch that took the checkpoint. */
  ghost predicate FlipInv(q: Program, s: State) {
    s.rt.swap ==>
      && s.rt.inSpec && s.stack != [] && s.height == |s.stack|
      && var top := s.stack[|s.stack| - 1];
         && top.term.SwapBr? && Count(top.code, Plain) == 0
         && top == s.saved.(code := top.code)
  }

  /** Only a checkpoint sets the flag, and a rollback clears it. */
  lemma HookKeepsSwap(c: Setup, rt: Rt, i: Instr, env: Env, ch: Choice, w: Window)
    requires Shape(rt) && IsHook(i) && rt.logEnabled == rt.inSpec && (rt.swap ==> rt.inSpec)
    requires 0 <= env.sp <= env.base <= |rt.mem|
    ensures var r := HookOutcome(c, rt, i, env, ch, w);
            && (!rt.inSpec ==> r.exit == Continues)
            && (if i.CheckpointHook? && TakesCheckpoint(rt, ch.admitted) then r.exit == Continues && r.s.inSpec
                else if r.exit == Continues then r.s.swap == rt.swap && r.s.inSpec == rt.inSpec
                else !r.s.swap && !r.s.inSpec)
  {
    hide Restored, AllRestorable, WriteWl, LogRange, AddRestart, AddTrace;
    match i
    case StoreHook(a) =>
      if rt.inSpec && Loggable(rt.mem, a(env)) { Speculation.WriteWlOnlyLogs(c, rt, a(env), w); }
    case MemcpyHook(a, v) =>
      if rt.inSpec && RangeLoggable(rt.mem, CopyStart(a(env)), a(env) + |v(env)|) {
        Speculation.LogRangeOnlyLogs(c, rt, CopyStart(a(env)), a(env) + |v(env)|, w);
      }
    case _ =>
  }

  lemma HookFlip(c: Setup, q: Program, s: State, ch: Choice)
    requires MachineInv(c, q, s) && s.status == Running && AtHook(s) && FlipInv(q, s)
    ensures var s' := ExecHook(c, s, ch);
            FlipInv(q, s') && (s'.rt.swap ==> s.rt.swap || TakesAt(s, ch))
  {
    hide HookOutcome, StackOk, SpecOk, TailGuarded;
    StackFacts(q, s.stack);
    var top := s.stack[|s.stack| - 1];
    HookKeepsSwap(c, s.rt, top.code[0], EnvOf(s.lo, top, s.rt.mem), ch, WindowAt(s, ch.window));
  }

  /** The step takes a checkpoint. */
  predicate TakesAt(s: State, ch: Choice) {
    AtHook(s) && s.stack[|s.stack| - 1].code[0].CheckpointHook? && TakesCheckpoint(s.rt, ch.admitted)
  }

  /** The step runs a branch the wrong way. */
  predicate FlipsAt(s: State, ch: Choice) {
    s.rt.swap && AtSwapBr(s) && !(s.rt.inSpec && ch.irq.Some?)
  }

  /** A plain step with the flag set can only be the branch itself, and that clears the flag. */
  lemma PlainFlip(c: Setup, q: Program, s: State, w: Window)
    requires MachineInv(c, q, s) && s.status == Running && !AtHook(s) && FlipInv(q, s)
    ensures var s' := ExecPlain(c, q, s, w);
            !s'.rt.swap && FlipInv(q, s')
            && (s.rt.swap ==> AtSwapBr(s) && EraseFrame(s.stack[|s.stack| - 1]) == EraseFrame(s.saved.(code := [])))
  {
    hide StackOk, SpecOk, Exec;
    StackFacts(q, s.stack);
  }

  lemma ProceedFlip(c: Setup, q: Program, s: State, ch: Choice)
    requires MachineInv(c, q, s) && s.status == Running && FlipInv(q, s)
    ensures var s' := Proceed(c, q, s, ch);
            && FlipInv(q, s')
            && Speculation.Bit(FlipsAt(s, ch)) + Speculation.Bit(s'.rt.swap)
               <= Speculation.Bit(s.rt.swap) + Speculation.Bit(TakesAt(s, ch))
  {
    hide StackOk, SpecOk, ExecHook, ExecPlain, Speculation.Inv;
    if s.rt.inSpec && ch.irq.Some? {
    } else if AtHook(s) {
      HookFlip(c, q, s, ch);
    } else {
      PlainFlip(c, q, s, WindowAt(s, ch.window));
    }
  }

  /** What a step does to the flag, counting a failed assertion that ends the run as no step. */
  lemma StepFlip(c: Setup, q: Program, s: State, ch: Choice)
    requires MachineInv(c, q, s) && FlipInv(q, s)
    ensures var s' := Step(c, q, s, ch);
            && FlipInv(q, s')
            && Speculation.Bit(StepFlips(c, s, ch)) + Speculation.Bit(s'.rt.swap)
               <= Speculation.Bit(s.rt.swap) + Speculation.Bit(StepTakes(c, s, ch))
  {
    hide StackOk, SpecOk, Speculation.Inv, Proceed, Restored, AllRestorable, Stacked, Scribble, WindowAt, Resume;
    if s.status == Running {
      ScribbleStep(c, q, s, ch);
      AssertStep(c, q, Scribble(s, ch), ch);
      var s1 := AfterAssert(c, Scribble(s, ch), ch);
      if s1.status == Running {
        ProceedFlip(c, q, s1, ch);
      }
    }
  }

  predicate StepFlips(c: Setup, s: State, ch: Choice)
    requires Shape(s.rt)
  {
    var s1 := AfterAssert(c, Scribble(s, ch), ch);
    s.status == Running && s1.status == Running && FlipsAt(s1, ch)
  }

  predicate StepTakes(c: Setup, s: State, ch: Choice)
    requires Shape(s.rt)
  {
    var s1 := AfterAssert(c, Scribble(s, ch), ch);
    s.status == Running && s1.status == Running && TakesAt(s1, ch)
  }

  function Flips(c: Setup, q: Program, s: State, chs: seq<Choice>): int
    requires Shape(s.rt)
  {
    if chs == [] then 0 else
    var n := |chs| - 1;
    Flips(c, q, s, chs[..n]) + Speculation.Bit(StepFlips(c, Run(c, q, s, chs[..n]), chs[n]))
  }

  function Checkpoints(c: Setup, q: Program, s: State, chs: seq<Choice>): int
    requires Shape(s.rt)
  {
    if chs == [] then 0 else
    var n := |chs| - 1;
    Checkpoints(c, q, s, chs[..n]) + Speculation.Bit(StepTakes(c, Run(c, q, s, chs[..n]), chs[n]))
  }

  lemma {:induction false} RunInv(c: Setup, q: Program, s: State, chs: seq<Choice>)
    requires WellHooked(q) && MachineInv(c, q, s)
    ensures MachineInv(c, q, Run(c, q, s, chs))
  {
    hide WellHooked, StackOk, SpecOk, Speculation.Inv, Stacked, Step;
    if chs != [] {
      var n := |chs| - 1;
      RunInv(c, q, s, chs[..n]);
      StepTransparent(c, q, Run(c, q, s, chs[..n]), chs[n]);
    }
  }

  /**
    * In every run the branches that went the wrong way are at most as many as the checkpoints, and
    * whenever one is about to, it is the branch of the checkpoint, in its frame and with its values.
    * Outside speculation the flag is clear, so after a rollback the branch goes the right way.
    */
  lemma {:induction false} FlippedAtMostOnce(c: Setup, q: Program, s: State, chs: seq<Choice>)
    requires WellHooked(q) && MachineInv(c, q, s) && FlipInv(q, s) && !s.rt.swap
    ensures var s' := Run(c, q, s, chs);
            && FlipInv(q, s')
            && (!s'.rt.inSpec ==> !s'.rt.swap)
            && Flips(c, q, s, chs) + Speculation.Bit(s'.rt.swap) <= Checkpoints(c, q, s, chs)
  {
    hide WellHooked, StackOk, SpecOk, Speculation.Inv, Step, StepFlips, StepTakes;
    if chs != [] {
      var n := |chs| - 1;
      FlippedAtMostOnce(c, q, s, chs[..n]);
      RunInv(c, q, s, chs[..n]);
      StepFlip(c, q, Run(c, q, s, chs[..n]), chs[n]);
    }
  }

  /** So it is for every program, instrumented in any order and run under any choices from its start. */
  lemma FlipsFromBoot(c: Setup, order: seq<Pass>, p: Program, j: Job, chs: seq<Choice>)
    requires Order(order) && SourceProgram(p) && Ready(p, j)
    requires Speculation.SetupOk(c) && Apart(c, |j.mem|)
    ensures var q := Instrument(order, p);
            && Ready(q, j)
            && var boot := Boot(q, j);
               && FlipInv(q, Run(c, q, boot, chs))
               && (!Run(c, q, boot, chs).rt.inSpec ==> !Run(c, q, boot, chs).rt.swap)
               && Flips(c, q, boot, chs) <= Checkpoints(c, q, boot, chs)
  {
    hide WellHooked, MachineInv, Flips, Checkpoints, Apart, Run, Behind;
    var q := Instrument(order, p);
    BootBehind(c, order, p, j);
    FlippedAtMostOnce(c, q, Boot(q, j), chs);
  }

  /** A checkpoint with swapping on sets the flag. */
  lemma CheckpointArms(c: Setup, s: State, ch: Choice)
    requires Shape(s.rt) && AtHook(s) && TakesAt(s, ch) && ch.swapEnabled && Stacked(s.lo, |s.rt.mem|, s.stack)
    ensures var s' := ExecHook(c, s, ch); s'.rt.inSpec && s'.rt.swap
  {
  }

  /** The stack after the branch on top of it has gone against its condition. */
  function WrongWay(q: Program, s: State): seq<Frame>
    requires AtSwapBr(s)
  {
    var top := s.stack[|s.stack| - 1];
    Goto(q, ConfigOf(s), if top.term.cond(EnvOf(s.lo, top, s.rt.mem)) then top.term.no else top.term.yes).stack
  }

  /**
    * With the flag set, the next step ends the speculation, or leaves the flag set before the branch, or
    * is the branch, which goes against its condition and clears the flag. So no checkpoint is wasted.
    */
  lemma ArmedUntilBranch(c: Setup, q: Program, s: State, ch: Choice)
    requires MachineInv(c, q, s) && s.status == Running && FlipInv(q, s) && s.rt.swap
    ensures var s' := Proceed(c, q, s, ch);
            || !s'.rt.inSpec
            || (AtHook(s) && s'.rt.swap)
            || (AtSwapBr(s) && !s'.rt.swap && s'.stack == WrongWay(q, s) && s'.rt.mem == s.rt.mem)
  {
    hide StackOk, SpecOk, Speculation.Inv, Restored, AllRestorable, Stacked, WindowAt, ExecHook, ExecPlain;
    StackFacts(q, s.stack);
    if s.rt.inSpec && ch.irq.Some? {
    } else if AtHook(s) {
      ArmedHook(c, q, s, ch);
    } else {
      ArmedBranch(c, q, s, WindowAt(s, ch.window));
    }
  }

  lemma ArmedHook(c: Setup, q: Program, s: State, ch: Choice)
    requires MachineInv(c, q, s) && s.status == Running && FlipInv(q, s) && s.rt.swap && AtHook(s)
    ensures var s' := ExecHook(c, s, ch); !s'.rt.inSpec || s'.rt.swap
  {
    hide StackOk, SpecOk, HookOutcome, Speculation.Inv, Stacked, WindowAt, EnvOf;
    var top := s.stack[|s.stack| - 1];
    TopEnv(s.lo, |s.rt.mem|, s.stack, s.rt.mem);
    LogFollowsSpec(c, q, s);
    HookKeepsSwap(c, s.rt, top.code[0], EnvOf(s.lo, top, s.rt.mem), ch, WindowAt(s, ch.window));
  }

  lemma ArmedBranch(c: Setup, q: Program, s: State, w: Window)
    requires MachineInv(c, q, s) && s.status == Running && FlipInv(q, s) && s.rt.swap && !AtHook(s)
    ensures var s' := ExecPlain(c, q, s, w);
            || !s'.rt.inSpec
            || (AtSwapBr(s) && !s'.rt.swap && s'.stack == WrongWay(q, s) && s'.rt.mem == s.rt.mem)
  {
    hide StackOk, SpecOk, Speculation.Inv, Stacked, EnvOf, Restored, AllRestorable;
    PlainFlip(c, q, s, w);
  }

  lemma TopEnv(lo: int, n: int, stack: seq<Frame>, m: Mem)
    requires Stacked(lo, n, stack) && stack != []
    ensures var env := EnvOf(lo, stack[|stack| - 1], m); 0 <= env.sp <= env.base <= n
  {
  }

  lemma LogFollowsSpec(c: Setup, q: Program, s: State)
    requires MachineInv(c, q, s) && s.status == Running
    ensures s.rt.logEnabled == s.rt.inSpec
  {
  }
}
