/**
  * A program that returns at once, but has a branch whose other direction, which it never takes, calls
  * some function; and the run that takes a checkpoint at that branch and speculates into the call.
  */
module Detour {
  import opened Options
  import opened Bytes
  import opened Runtime
  import opened Ir
  import opened Passes
  import opened Placement
  import opened Machine

  function Always(env: Env): bool { true }

  function Nothing(env: Env): int { 0 }

  function Args(l: Locals): Env -> Locals { (env: Env) => l }

  /** The function that the program would call and with what, and its memory with the stack [lo, top) in it. */
  datatype Plan = Plan(callee: nat, l: Locals, mem: Mem, lo: int, top: int) {
    predicate Fits() {
      0 <= lo <= top <= |mem|
    }

    function Job(): Job {
      Machine.Job(0, map[], mem, lo, top)
    }
  }

  function MainFn(callee: nat, l: Locals): Function {
    Function({}, [
      Block([], Br(Always, 1, 2)),
      Block([], Ret(Nothing)),
      Block([Call(callee, Args(l))], Ret(Nothing))], 0, 0)
  }

  function Wrong(callee: nat, l: Locals): seq<Instr> {
    [Call(callee, Args(l)), RestartHook(OnReturn), SpecLengthHook(3)]
  }

  function HookedMain(callee: nat, l: Locals): Function {
    Function({}, [
      Block([CallDepthHook, CheckpointHook, SpecLengthHook(3)], SwapBr(Always, 1, 2)),
      Block([RestartHook(OnReturn), SpecLengthHook(2)], Ret(Nothing)),
      Block(Wrong(callee, l), Ret(Nothing))], 0, 0)
  }

  const ORDER := [SpecP, RestartP, LengthP]

  lemma InOrder(g: Function)
    ensures ApplyAll(ORDER, g) == LengthPass(RestartPass(SpecPass(g)))
  {
    InThreeSteps(ORDER, g);
  }

  lemma HookMain(callee: nat, l: Locals)
    ensures ApplyAll(ORDER, MainFn(callee, l)) == HookedMain(callee, l)
  {
    var f1 := SpecPass(MainFn(callee, l));
    assert f1.blocks[0] == Block([CallDepthHook, CheckpointHook], SwapBr(Always, 1, 2));
    var f2 := RestartPass(f1);
    assert HookCode([CallDepthHook, CheckpointHook], false) == [CallDepthHook, CheckpointHook];
    assert HookCode([Call(callee, Args(l))], false) == [Call(callee, Args(l))];
    var f3 := LengthPass(f2);
    assert f3.blocks[0] == HookedMain(callee, l).blocks[0];
    assert HookCode([], false) == [];
    assert f3.blocks[1] == HookedMain(callee, l).blocks[1];
    assert f3.blocks[2] == HookedMain(callee, l).blocks[2];
    assert f3.blocks == HookedMain(callee, l).blocks;
    InOrder(MainFn(callee, l));
  }

  lemma WriteNothing(m: Mem, a: int)
    requires InRange(m, a, 0)
    ensures Write(m, a, Zeros(0)) == m
  {
  }

  /** The original program leaves memory alone: it goes to the block that returns. */
  lemma {:induction false} OriginalReturns(p: Program, k: Plan, n: nat)
    requires k.Fits() && p != [] && p[0] == MainFn(k.callee, k.l)
    ensures Ready(p, k.Job())
    ensures var o := Iterate(p, Start(p, k.Job()), n);
            && o.mem == k.mem && o.lo == k.lo && Top(o) == k.top
            && (n == 0 ==> o == Start(p, k.Job()))
            && (n == 1 ==> o == Config(k.lo, [Frame(0, [], Ret(Nothing), map[], k.top, k.top)], k.mem, Running))
            && (n > 1 ==> o.status == Halted)
  {
    WriteNothing(k.mem, k.top);
    if n > 0 {
      OriginalReturns(p, k, n - 1);
    }
  }

  // ----- The run -----

  /** A checkpoint whenever possible, with the branch swapped, and nothing from outside. */
  const CHOICE := Choice(None, true, true, false, NOWHERE, 0, [])

  /** A runtime whose own memory lies above the `n` bytes of the program, with the default limits. */
  function SetupAbove(n: int): Setup {
    Setup(n, n, n, n, n, n, 250, 100)
  }

  function MainFrame(k: Plan, code: seq<Instr>, b: nat, locals: Locals): Frame
    requires b < 3
  {
    Frame(0, code, HookedMain(0, map[]).blocks[b].term, locals, k.top, k.top)
  }

  function BranchFrame(k: Plan): Frame {
    MainFrame(k, [SpecLengthHook(3)], 0, map[])
  }

  /** What matters of a state of the run. */
  ghost predicate Is(k: Plan, s: State, stack: seq<Frame>, spec: bool, swap: bool, count: int, m: Mem) {
    && s.lo == k.lo && s.stack == stack && s.status == Running && s.rt.mem == m && |m| == |k.mem| && s.rt.log == []
    && s.rt.inSpec == s.rt.logEnabled == spec && s.rt.swap == swap && !s.rt.assertion
    && InRange(m, s.rt.stackAt, 0) && s.rt.stack == []
    && (spec ==> s.saved == BranchFrame(k) && s.height == 1 && s.rt.instrCount == count)
  }

  function Next(q: Program, s: State): (s': State)
    requires Shape(s.rt)
    ensures Shape(s'.rt) && |s'.rt.mem| == |s.rt.mem|
  {
    Step(SetupAbove(|s.rt.mem|), q, s, CHOICE)
  }

  lemma StepEntry(k: Plan, q: Program, s: State)
    requires k.Fits()
    requires Is(k, s, [MainFrame(k, [CallDepthHook, CheckpointHook, SpecLengthHook(3)], 0, map[])],
                false, false, 0, k.mem)
    ensures Is(k, Next(q, s), [MainFrame(k, [CheckpointHook, SpecLengthHook(3)], 0, map[])], false, false, 0, k.mem)
  {
    assert AtHook(s);
  }

  lemma StepCheckpoint(k: Plan, q: Program, s: State)
    requires k.Fits()
    requires Is(k, s, [MainFrame(k, [CheckpointHook, SpecLengthHook(3)], 0, map[])], false, false, 0, k.mem)
    ensures Is(k, Next(q, s), [BranchFrame(k)], true, true, 0, k.mem) && Next(q, s).rt.callDepth == 0
  {
    assert AtHook(s);
  }

  lemma StepLength(k: Plan, q: Program, s: State)
    requires k.Fits() && Is(k, s, [BranchFrame(k)], true, true, 0, k.mem)
    ensures Is(k, Next(q, s), [MainFrame(k, [], 0, map[])], true, true, 3, k.mem)
    ensures Next(q, s).rt.callDepth == s.rt.callDepth
  {
    assert AtHook(s);
    assert [SpecLengthHook(3)][1..] == [];
  }

  lemma StepBranch(k: Plan, q: Program, s: State)
    requires k.Fits() && q != [] && q[0] == HookedMain(k.callee, k.l)
    requires Is(k, s, [MainFrame(k, [], 0, map[])], true, true, 3, k.mem)
    ensures Is(k, Next(q, s), [MainFrame(k, Wrong(k.callee, k.l), 2, map[])], true, false, 3, k.mem)
    ensures Next(q, s).rt.callDepth == s.rt.callDepth
  {
    assert !AtHook(s) && AtSwapBr(s);
  }

  /** In speculation, too, a call just enters the function, if there is room on the stack. */
  lemma CallEnters(q: Program, s: State, callee: nat, args: Env -> Locals, n: int)
    requires Shape(s.rt) && s.status == Running && Callable(q, callee) && s.stack != []
    requires var code := s.stack[|s.stack| - 1].code; code != [] && code[0] == Call(callee, args)
    requires Room(ConfigOf(s), s.stack[|s.stack| - 1].sp, StackSize(q[callee]))
    ensures var r := EnterFunction(q, ConfigOf(s), callee, args(EnvOf(s.lo, s.stack[|s.stack| - 1], s.rt.mem)));
            Step(SetupAbove(n), q, s, CHOICE) == s.(stack := r.stack, rt := s.rt.(mem := r.mem))
  {
    hide ExecHook, PageFault, Land, Restart, Panic, WriteMem, Advance, EntryFrame, Callable, EnvOf, Write, WindowAt;
    assert !AtHook(s) && !AtSwapBr(s);
    assert EnterFunction(q, ConfigOf(s), callee, args(EnvOf(s.lo, s.stack[|s.stack| - 1], s.rt.mem))).status == Running;
  }

  /** Memory when the callee has been entered: its frame is fresh. */
  function Entered(k: Plan, size: nat): Mem
    requires k.Fits() && size <= k.top - k.lo
  {
    Write(k.mem, k.top - size, Zeros(size))
  }

  lemma StepCall(k: Plan, q: Program, s: State)
    requires k.Fits() && Callable(q, k.callee) && StackSize(q[k.callee]) <= k.top - k.lo
    requires Is(k, s, [MainFrame(k, Wrong(k.callee, k.l), 2, map[])], true, false, 3, k.mem)
    ensures Is(k, Next(q, s), [MainFrame(k, Wrong(k.callee, k.l)[1..], 2, map[]), EntryFrame(q, k.callee, k.l, k.top)],
               true, false, 3, Entered(k, StackSize(q[k.callee])))
    ensures Next(q, s).rt.callDepth == s.rt.callDepth
  {
    hide Step, Write, EnvOf;
    CallEnters(q, s, k.callee, Args(k.l), |k.mem|);
  }

  function Five(q: Program, s: State): State
    requires Shape(s.rt)
  {
    Next(q, Next(q, Next(q, Next(q, Next(q, s)))))
  }

  /** Five steps after the start, the machine speculates in the function that the program never calls. */
  lemma IntoTheCall(k: Plan, q: Program)
    requires k.Fits() && q != [] && q[0] == HookedMain(k.callee, k.l) && Callable(q, k.callee)
    requires StackSize(q[k.callee]) <= k.top - k.lo
    ensures Ready(q, k.Job())
    ensures var s := Five(q, Boot(q, k.Job()));
            && Is(k, s, [MainFrame(k, Wrong(k.callee, k.l)[1..], 2, map[]), EntryFrame(q, k.callee, k.l, k.top)],
                  true, false, 3, Entered(k, StackSize(q[k.callee])))
            && s.rt.callDepth == 0
  {
    hide Next, Is;
    var s := Boot(q, k.Job());
    BootIs(k, q);
    StepEntry(k, q, s);
    StepCheckpoint(k, q, Next(q, s));
    StepLength(k, q, Next(q, Next(q, s)));
    StepBranch(k, q, Next(q, Next(q, Next(q, s))));
    StepCall(k, q, Next(q, Next(q, Next(q, Next(q, s)))));
  }

  lemma BootIs(k: Plan, q: Program)
    requires k.Fits() && q != [] && q[0] == HookedMain(k.callee, k.l)
    ensures Ready(q, k.Job())
    ensures Is(k, Boot(q, k.Job()), [MainFrame(k, [CallDepthHook, CheckpointHook, SpecLengthHook(3)], 0, map[])],
               false, false, 0, k.mem)
  {
    WriteNothing(k.mem, k.top);
  }
}
