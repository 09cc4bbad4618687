/** The machine that runs a program, and the same machine with the runtime behind the hooks. */
module Machine {
  import opened Options
  import opened Bytes
  import opened UndoLog
  import opened Runtime
  import opened Ir

  /** An activation of a function: the code left in its block, its registers, and its stack frame [sp, base). */
  datatype Frame = Frame(fn: nat, code: seq<Instr>, term: Term, locals: Locals, sp: int, base: int)

  datatype Status = Running | Halted | Crashed | Panicked

  /** The stack grows down to `lo`. Every frame lies in memory, below the frame of its caller. */
  datatype Config = Config(lo: int, stack: seq<Frame>, mem: Mem, status: Status)

  // ----- Programs without a runtime -----

  /** Calls reach ordinary functions; interrupt handlers are entered by the hardware. */
  predicate Callable(p: Program, k: nat) {
    k < |p| && p[k].blocks != [] && Timer !in p[k].cats && Exception !in p[k].cats
  }

  /** The frame of a function that is called with the stack pointer at `sp`. */
  function EntryFrame(p: Program, k: nat, args: Locals, sp: int): Frame
    requires Callable(p, k)
  {
    Frame(k, p[k].blocks[0].code, p[k].blocks[0].term, args, sp - StackSize(p[k]), sp - p[k].link)
  }

  /** Memory as the program can know it: what is on the stack below its frame is not its own. */
  function Live(m: Mem, lo: int, sp: int): (r: Mem)
    ensures |r| == |m|
    ensures forall i :: 0 <= i < |m| ==> r[i] == if lo <= i < sp then 0 else m[i]
  {
    seq(|m|, i requires 0 <= i < |m| => if lo <= i < sp then 0 else m[i])
  }

  function EnvOf(lo: int, f: Frame, m: Mem): Env {
    Env(f.locals, Live(m, lo, f.sp), lo, f.sp, f.base)
  }

  /** Goes to another block of the same function; no branch leads to the entry block. */
  function Goto(p: Program, c: Config, b: nat): (r: Config)
    requires c.stack != []
    ensures r.mem == c.mem
  {
    var n := |c.stack| - 1;
    var top := c.stack[n];
    if top.fn < |p| && 0 < b < |p[top.fn].blocks| then
      var blk := p[top.fn].blocks[b];
      c.(stack := c.stack[..n] + [top.(code := blk.code, term := blk.term)])
    else c.(status := Crashed)
  }

  function Advance(stack: seq<Frame>): seq<Frame>
    requires stack != [] && stack[|stack| - 1].code != []
  {
    var n := |stack| - 1;
    stack[..n] + [stack[n].(code := stack[n].code[1..])]
  }

  function WriteMem(c: Config, a: int, bytes: seq<Byte>): (r: Config)
    requires c.stack != [] && c.stack[|c.stack| - 1].code != []
    ensures |r.mem| == |c.mem|
  {
    if InRange(c.mem, a, |bytes|) then c.(stack := Advance(c.stack), mem := Write(c.mem, a, bytes))
    else c.(status := Crashed)
  }

  function SetLocals(stack: seq<Frame>, locals: Locals): seq<Frame>
    requires stack != []
  {
    var n := |stack| - 1;
    stack[..n] + [stack[n].(locals := locals)]
  }

  function Zeros(n: nat): (r: seq<Byte>)
    ensures |r| == n
  {
    seq(n, _ => 0)
  }

  /** Whether a function finds room for its frame below `sp`. */
  predicate Room(c: Config, sp: int, size: nat) {
    0 <= c.lo <= sp - size && sp <= |c.mem|
  }

  /** A call takes a fresh frame from the stack; without room for it the stack overflows, which is a fault. */
  function EnterFunction(p: Program, c: Config, k: nat, args: Locals): (r: Config)
    requires c.stack != [] && c.stack[|c.stack| - 1].code != [] && Callable(p, k)
    ensures |r.mem| == |c.mem|
  {
    var sp := c.stack[|c.stack| - 1].sp;
    if Room(c, sp, StackSize(p[k])) then
      c.(stack := Advance(c.stack) + [EntryFrame(p, k, args, sp)],
         mem := Write(c.mem, sp - StackSize(p[k]), Zeros(StackSize(p[k]))))
    else c.(status := Crashed)
  }

  /** An operation that may do anything to registers and memory. */
  function Perform(c: Config, e: Env): (r: Config)
    requires c.stack != [] && c.stack[|c.stack| - 1].code != []
    ensures |r.mem| == |c.mem|
  {
    if |e.mem| == |c.mem| then c.(stack := SetLocals(Advance(c.stack), e.locals), mem := e.mem)
    else c.(status := Crashed)
  }

  function ExecInstr(p: Program, c: Config): (r: Config)
    requires c.stack != [] && c.stack[|c.stack| - 1].code != []
    ensures |r.mem| == |c.mem|
  {
    var top := c.stack[|c.stack| - 1];
    var env := EnvOf(c.lo, top, c.mem);
    match top.code[0]
    case Store(a, v) => WriteMem(c, a(env), v(env))
    case Copy(a, v) => WriteMem(c, a(env), v(env))
    case Compute(f) => c.(stack := SetLocals(Advance(c.stack), f(env)))
    case Spill(a, v) =>
      if top.sp <= a(env) && a(env) + |v(env)| <= top.base then WriteMem(c, a(env), v(env)) else c.(status := Crashed)
    case Opaque(f, _) => Perform(c, f(env))
    case External(f) => Perform(c, f(env))
    case Call(k, args) => if Callable(p, k) then EnterFunction(p, c, k, args(env)) else c.(status := Crashed)
    case _ => c.(stack := Advance(c.stack))
  }

  /** The end of a block; `flip` turns a swapped branch around. */
  function ExecTerm(p: Program, c: Config, flip: bool): (r: Config)
    requires c.stack != []
    ensures |r.mem| == |c.mem|
  {
    var n := |c.stack| - 1;
    var top := c.stack[n];
    var env := EnvOf(c.lo, top, c.mem);
    match top.term
    case Br(cond, yes, no) => Goto(p, c, if cond(env) then yes else no)
    case SwapBr(cond, yes, no) => Goto(p, c, if cond(env) != flip then yes else no)
    case Jump(b) => Goto(p, c, b)
    case Ret(v) =>
      if n == 0 then c.(status := Halted)
      else c.(stack := SetLocals(c.stack[..n], c.stack[n - 1].locals[0 := v(env)]))
  }

  function Exec(p: Program, c: Config, flip: bool): (r: Config)
    ensures |r.mem| == |c.mem|
  {
    if c.status != Running || c.stack == [] then c
    else if c.stack[|c.stack| - 1].code != [] then ExecInstr(p, c)
    else ExecTerm(p, c, flip)
  }

  /** A store or a copy inside memory puts its bytes where it says, and nothing else changes. */
  lemma WriteArrives(p: Program, c: Config, flip: bool, i: int)
    requires c.status == Running && c.stack != [] && 0 <= i < |c.mem|
    requires var code := c.stack[|c.stack| - 1].code; code != [] && (code[0].Store? || code[0].Copy?)
    ensures var top := c.stack[|c.stack| - 1];
            var env := EnvOf(c.lo, top, c.mem);
            var a := top.code[0].addr(env);
            var bytes: seq<Byte> := if top.code[0].Store? then top.code[0].val(env) else top.code[0].bytes(env);
            var r := Exec(p, c, flip);
            if InRange(c.mem, a, |bytes|) then
              && r.status == Running && r.stack == Advance(c.stack)
              && r.mem[i] == if a <= i < a + |bytes| then bytes[i - a] else c.mem[i]
            else r == c.(status := Crashed)
  {
  }

  predicate InFrame(f: Frame, i: int) {
    f.sp <= i < f.base
  }

  predicate OnStack(c: Config, i: int) {
    c.lo <= i
  }

  /** A compiler write happens if and only if each of its bytes is in the frame of its function. */
  lemma SpillStaysInFrame(p: Program, c: Config, flip: bool)
    requires c.status == Running && c.stack != []
    requires var top := c.stack[|c.stack| - 1];
             top.code != [] && top.code[0].Spill? && 0 <= top.sp <= top.base <= |c.mem|
    ensures var top := c.stack[|c.stack| - 1];
            var env := EnvOf(c.lo, top, c.mem);
            var a, bytes := top.code[0].addr(env), top.code[0].bytes(env);
            var r := Exec(p, c, flip);
            bytes != [] ==>
              && (r.status == Running <==> forall i :: a <= i < a + |bytes| ==> InFrame(top, i))
              && (r.status == Running ==> forall i :: a <= i < a + |bytes| ==> r.mem[i] == bytes[i - a])
  {
    var top := c.stack[|c.stack| - 1];
    var env := EnvOf(c.lo, top, c.mem);
    var a, n := top.code[0].addr(env), |top.code[0].bytes(env)|;
    if n > 0 && forall i :: a <= i < a + n ==> InFrame(top, i) {
      assert InFrame(top, a) && InFrame(top, a + n - 1);
    }
  }

  /** A call finds room if and only if no byte of its frame is below the end of the stack; otherwise it faults. */
  lemma CallFits(p: Program, c: Config, flip: bool)
    requires c.status == Running && c.stack != [] && 0 <= c.lo <= c.stack[|c.stack| - 1].sp <= |c.mem|
    requires var top := c.stack[|c.stack| - 1];
             top.code != [] && top.code[0].Call? && Callable(p, top.code[0].callee)
    ensures var top := c.stack[|c.stack| - 1];
            var size := StackSize(p[top.code[0].callee]);
            var r := Exec(p, c, flip);
            && (r.status == Running <==> forall i :: top.sp - size <= i < top.sp ==> OnStack(c, i))
            && (r.status == Running || r == c.(status := Crashed))
  {
    var top := c.stack[|c.stack| - 1];
    var size := StackSize(p[top.code[0].callee]);
    if size > 0 && forall i :: top.sp - size <= i < top.sp ==> OnStack(c, i) {
      assert OnStack(c, top.sp - size);
    }
  }

  /** A call of a function that returns at once puts its value into the first register of the caller. */
  lemma CallReturns(p: Program, c: Config, flip: bool, i: int)
    requires c.status == Running && c.stack != [] && 0 <= i < |c.mem|
    requires var top := c.stack[|c.stack| - 1];
             && top.code != [] && top.code[0].Call? && Callable(p, top.code[0].callee)
             && Room(c, top.sp, StackSize(p[top.code[0].callee]))
             && p[top.code[0].callee].blocks[0].code == [] && p[top.code[0].callee].blocks[0].term.Ret?
    ensures var top := c.stack[|c.stack| - 1];
            var k := top.code[0].callee;
            var inside := Exec(p, c, flip);
            var value := p[k].blocks[0].term.val(EnvOf(c.lo, inside.stack[|c.stack|], inside.mem));
            var r := Exec(p, inside, flip);
            && |inside.stack| == |c.stack| + 1
            && inside.stack[|c.stack|].locals == top.code[0].args(EnvOf(c.lo, top, c.mem))
            && r.status == Running && r.stack == SetLocals(Advance(c.stack), top.locals[0 := value])
            && r.mem[i] == if top.sp - StackSize(p[k]) <= i < top.sp then 0 else c.mem[i]
  {
    var n := |c.stack| - 1;
    var inside := Exec(p, c, flip);
    assert inside.stack[..|c.stack|] == Advance(c.stack);
    assert Advance(c.stack)[n].locals == c.stack[n].locals;
  }

  /** A branch that is not swapped goes where its condition says, whatever the swap flag is. */
  lemma BranchFollows(p: Program, c: Config, flip: bool)
    requires c.status == Running && c.stack != []
    requires var top := c.stack[|c.stack| - 1];
             && top.code == [] && top.term.Br? && top.fn < |p|
             && 0 < top.term.yes < |p[top.fn].blocks| && 0 < top.term.no < |p[top.fn].blocks|
    ensures var top, r := c.stack[|c.stack| - 1], Exec(p, c, flip);
            var blk := p[top.fn].blocks[if top.term.cond(EnvOf(c.lo, top, c.mem)) then top.term.yes else top.term.no];
            && r.status == Running && |r.stack| == |c.stack| && r.mem == c.mem
            && r.stack[|r.stack| - 1] == top.(code := blk.code, term := blk.term)
  {
  }

  /** `n` steps of the original program. */
  function Iterate(p: Program, c: Config, n: nat): Config {
    if n == 0 then c else Exec(p, Iterate(p, c, n - 1), false)
  }

  /** Where a program starts: its main function with its arguments, the memory, and the stack [lo, top) in it. */
  datatype Job = Job(main: nat, args: Locals, mem: Mem, lo: int, top: int)

  /** The main function can be called, and the stack lies in memory and has room for its frame. */
  predicate Ready(p: Program, j: Job) {
    Callable(p, j.main) && 0 <= j.lo <= j.top - StackSize(p[j.main]) && j.top <= |j.mem|
  }

  function Start(p: Program, j: Job): Config
    requires Ready(p, j)
  {
    var f := EntryFrame(p, j.main, j.args, j.top);
    Config(j.lo, [f], Write(j.mem, f.sp, Zeros(StackSize(p[j.main]))), Running)
  }

  // ----- Programs with the runtime -----

  /** A replay that skips nothing. */
  const NOWHERE := Window(0, 0, None)

  datatype State = State(
    lo: int,
    stack: seq<Frame>,
    rt: Rt,
    saved: Frame,    // the frame at the checkpoint: where to go on, its registers, and where its bytes are
    height: nat,     // the number of frames at the checkpoint
    status: Status)

  datatype Irq = TimerIrq | ExceptionIrq | PageFaultIrq

  function RestartOf(irq: Irq): Reason {
    match irq
    case TimerIrq => OnTimer
    case ExceptionIrq => OnException
    case PageFaultIrq => OnPageFault
  }

  /**
    * What the machine does not decide: interrupts, the verdicts of kernel tests, failures inside the
    * runtime, where on the stack a restart finds itself, and what it and others leave on the unused stack.
    */
  datatype Choice = Choice(
    irq: Option<Irq>, admitted: bool, swapEnabled: bool, assertFails: bool,
    window: Window, noiseAt: int, noise: seq<Byte>)

  /** The runtime's own stack lies below `sp`; the register image of an interrupt as well, or on a stack of its own. */
  predicate Below(w: Window, lo: int, sp: int, n: int) {
    && lo <= w.rsp && w.frame + 8 <= sp
    && (w.regs.Some? ==> n <= w.regs.value || (lo <= w.regs.value && w.regs.value + PT_REGS_SIZE + 8 <= sp))
  }

  function WindowAt(s: State, w: Window): Window {
    if s.stack != [] && Below(w, s.lo, s.stack[|s.stack| - 1].sp, |s.rt.mem|) then w else NOWHERE
  }

  /** Whoever runs below the stack pointer writes there as they please. */
  function Scribble(s: State, ch: Choice): (s': State)
    requires Shape(s.rt)
    ensures Shape(s'.rt) && |s'.rt.mem| == |s.rt.mem|
  {
    if s.stack != [] && ch.noise != [] && 0 <= s.lo <= ch.noiseAt
       && ch.noiseAt + |ch.noise| <= s.stack[|s.stack| - 1].sp <= |s.rt.mem|
    then s.(rt := s.rt.(mem := Write(s.rt.mem, ch.noiseAt, ch.noise)))
    else s
  }

  /** Control goes back to the checkpoint: the frames above it are dropped, its own is put back, those below stay. */
  function Rewind(s: State): seq<Frame> {
    if 1 <= s.height <= |s.stack| then s.stack[..s.height - 1] + [s.saved] else s.stack
  }

  function Land(s: State, r: Outcome, next: seq<Frame>): (s': State)
    ensures s'.rt == r.s
  {
    match r.exit
    case Continues => s.(rt := r.s, stack := next)
    case Resumes => s.(rt := r.s, stack := Rewind(s))
    case Panics => s.(rt := r.s, stack := if s.rt.inSpec then Rewind(s) else s.stack, status := Panicked)
  }

  function PageFault(c: Setup, s: State, w: Window): (s': State)
    requires Shape(s.rt)
    ensures Shape(s'.rt) && |s'.rt.mem| == |s.rt.mem|
  {
    Land(s, Restart(c, s.rt, OnPageFault, w), s.stack)
  }

  /** What the runtime makes of a hook. A logging hook that touches memory that is not there faults. */
  function HookOutcome(c: Setup, rt: Rt, i: Instr, env: Env, ch: Choice, w: Window): (r: Outcome)
    requires Shape(rt) && IsHook(i)
    ensures Shape(r.s) && |r.s.mem| == |rt.mem|
  {
    match i
    case StoreHook(a) =>
      if !rt.logEnabled then Outcome(rt, Continues)
      else if Loggable(rt.mem, a(env)) then HookStore(c, rt, a(env), w)
      else Restart(c, rt, OnPageFault, w)
    case MemcpyHook(a, v) =>
      if !rt.logEnabled then Outcome(rt, Continues)
      else if RangeLoggable(rt.mem, CopyStart(a(env)), a(env) + |v(env)|) then
        HookMemcpy(c, rt, a(env), |v(env)|, w)
      else Restart(c, rt, OnPageFault, w)
    case RestartHook(t) => Restart(c, rt, t, w)
    case CallDepthHook => HookCallDepth(c, rt, w)
    case SpecLengthHook(n) => HookSpecLength(c, rt, n, w)
    case CheckpointHook =>
      if 0 <= env.sp <= env.base <= |rt.mem|
      then Outcome(HookCheckpoint(rt, ch.admitted, ch.swapEnabled, env.base, env.sp), Continues)
      else Outcome(rt, Continues)
  }

  function ExecHook(c: Setup, s: State, ch: Choice): (s': State)
    requires Shape(s.rt) && AtHook(s)
    ensures Shape(s'.rt) && |s'.rt.mem| == |s.rt.mem|
  {
    var top := s.stack[|s.stack| - 1];
    var next := Advance(s.stack);
    var r := HookOutcome(c, s.rt, top.code[0], EnvOf(s.lo, top, s.rt.mem), ch, WindowAt(s, ch.window));
    var s' := Land(s, r, next);
    if top.code[0].CheckpointHook? && TakesCheckpoint(s.rt, ch.admitted) then
      s'.(saved := next[|next| - 1], height := |next|)
    else s'
  }

  predicate AtHook(s: State) {
    s.stack != [] && var code := s.stack[|s.stack| - 1].code; code != [] && IsHook(code[0])
  }

  predicate AtSwapBr(s: State) {
    s.stack != [] && var top := s.stack[|s.stack| - 1]; top.code == [] && top.term.SwapBr?
  }

  function ConfigOf(s: State): Config {
    Config(s.lo, s.stack, s.rt.mem, Running)
  }

  /** A plain instruction or the end of a block. In speculation a fault is an exception, which rolls back. */
  function ExecPlain(c: Setup, q: Program, s: State, w: Window): (s': State)
    requires Shape(s.rt)
    ensures Shape(s'.rt) && |s'.rt.mem| == |s.rt.mem|
  {
    var r := Exec(q, ConfigOf(s), s.rt.swap);
    if s.rt.inSpec && r.status == Crashed then PageFault(c, s, w)
    else s.(stack := r.stack, status := r.status,
            rt := s.rt.(mem := r.mem, swap := s.rt.swap && !AtSwapBr(s)))
  }

  /** The state in which the next instruction runs: a failed assertion may have been recorded, or ended it all. */
  function AfterAssert(c: Setup, s: State, ch: Choice): (s': State)
    requires Shape(s.rt)
    ensures Shape(s'.rt) && |s'.rt.mem| == |s.rt.mem|
  {
    if ch.assertFails && !s.rt.assertion then Land(s, Panic(c, s.rt, WindowAt(s, ch.window)), s.stack) else s
  }

  /** What a step does once a failed assertion has been dealt with. */
  function Proceed(c: Setup, q: Program, s: State, ch: Choice): (s': State)
    requires Shape(s.rt)
    ensures Shape(s'.rt) && |s'.rt.mem| == |s.rt.mem|
  {
    var w := WindowAt(s, ch.window);
    if s.rt.inSpec && ch.irq.Some? then Land(s, Restart(c, s.rt, RestartOf(ch.irq.value), w), s.stack)
    else if AtHook(s) then ExecHook(c, s, ch)
    else ExecPlain(c, q, s, w)
  }

  /** One step of an instrumented program. */
  function Step(c: Setup, q: Program, s: State, ch: Choice): (s': State)
    requires Shape(s.rt)
    ensures Shape(s'.rt) && |s'.rt.mem| == |s.rt.mem|
  {
    if s.status != Running then s else
    var s1 := AfterAssert(c, Scribble(s, ch), ch);
    if s1.status != Running then s1 else Proceed(c, q, s1, ch)
  }

  function Run(c: Setup, q: Program, s: State, chs: seq<Choice>): (s': State)
    requires Shape(s.rt)
    ensures Shape(s'.rt) && |s'.rt.mem| == |s.rt.mem|
  {
    if chs == [] then s else
    var n := |chs| - 1;
    Step(c, q, Run(c, q, s, chs[..n]), chs[n])
  }

  /** Whether a step carries out a step of the original program, for good. */
  predicate Commits(c: Setup, s: State, ch: Choice)
    requires Shape(s.rt)
  {
    s.status == Running && !s.rt.inSpec && !(ch.assertFails && !s.rt.assertion) && !AtHook(s)
  }

  function Committed(c: Setup, q: Program, s: State, chs: seq<Choice>): nat
    requires Shape(s.rt)
  {
    if chs == [] then 0 else
    var n := |chs| - 1;
    Committed(c, q, s, chs[..n]) + if Commits(c, Run(c, q, s, chs[..n]), chs[n]) then 1 else 0
  }

  function Boot(q: Program, j: Job): State
    requires Ready(q, j)
  {
    var start := Start(q, j);
    State(j.lo, start.stack, Init(start.mem), start.stack[0], 1, Running)
  }

  // ----- The program state behind an instrumented run -----

  function EraseFrame(f: Frame): Frame {
    f.(code := EraseCode(f.code), term := EraseTerm(f.term))
  }

  function EraseStack(stack: seq<Frame>): seq<Frame> {
    seq(|stack|, k requires 0 <= k < |stack| => EraseFrame(stack[k]))
  }

  /** Where the stack pointer is. */
  function Top(c: Config): int {
    if c.stack == [] then c.lo else c.stack[|c.stack| - 1].sp
  }

  /** A configuration without what nobody can know: the contents of the unused stack. */
  function Observed(c: Config): Config {
    c.(mem := Live(c.mem, c.lo, Top(c)))
  }

  function EraseConfig(c: Config): Config {
    Observed(c).(stack := EraseStack(c.stack))
  }

  /** Where the program really is: the state itself, or in speculation the one a rollback leads to. */
  function Resume(s: State): Config
    requires Shape(s.rt)
  {
    if s.rt.inSpec then Config(s.lo, Rewind(s), Restored(s.rt, NOWHERE), Running)
    else Config(s.lo, s.stack, s.rt.mem, if s.status == Panicked then Running else s.status)
  }
}
