/** The emulation is invisible: an instrumented program is, at all times, one rollback away from the original. */
module Transparency {
  import opened Options
  import opened Bytes
  import opened UndoLog
  import opened Runtime
  import opened Rollback
  import Speculation
  import opened Ir
  import opened Passes
  import opened Placement
  import opened Machine

  // ----- The stack in memory -----

  /** Every frame lies on the stack, below the frames of its callers. */
  predicate Stacked(lo: int, n: int, stack: seq<Frame>) {
    && 0 <= lo
    && (forall k :: 0 <= k < |stack| ==> lo <= stack[k].sp <= stack[k].base <= n)
    && (forall j, k :: 0 <= j < k < |stack| ==> stack[k].base <= stack[j].sp)
  }

  /** Replacing the top frame by one in the same place. */
  lemma TopStacked(lo: int, n: int, stack: seq<Frame>, f: Frame)
    requires Stacked(lo, n, stack) && stack != []
    requires f.sp == stack[|stack| - 1].sp && f.base == stack[|stack| - 1].base
    ensures Stacked(lo, n, stack[..|stack| - 1] + [f])
  {
  }

  lemma EnterStacked(p: Program, c: Config, k: nat, args: Locals)
    requires Stacked(c.lo, |c.mem|, c.stack) && c.stack != [] && c.stack[|c.stack| - 1].code != [] && Callable(p, k)
    ensures var r := EnterFunction(p, c, k, args); r.lo == c.lo && Stacked(c.lo, |c.mem|, r.stack)
  {
    var top := c.stack[|c.stack| - 1];
    TopStacked(c.lo, |c.mem|, c.stack, top.(code := top.code[1..]));
  }

  lemma ExecInstrStacked(p: Program, c: Config)
    requires Stacked(c.lo, |c.mem|, c.stack) && c.stack != [] && c.stack[|c.stack| - 1].code != []
    ensures var r := ExecInstr(p, c); r.lo == c.lo && Stacked(r.lo, |r.mem|, r.stack)
  {
    hide EnvOf, EnterFunction, Stacked, Callable, Write;
    var n := |c.stack| - 1;
    var top := c.stack[n];
    var env := EnvOf(c.lo, top, c.mem);
    TopStacked(c.lo, |c.mem|, c.stack, top.(code := top.code[1..]));
    match top.code[0]
    case Compute(f) => LocalsStacked(c, f(env));
    case Opaque(f, _) => LocalsStacked(c, f(env).locals);
    case External(f) => LocalsStacked(c, f(env).locals);
    case Call(k, args) => if Callable(p, k) { EnterStacked(p, c, k, args(env)); }
    case _ =>
  }

  lemma LocalsStacked(c: Config, locals: Locals)
    requires Stacked(c.lo, |c.mem|, c.stack) && c.stack != [] && c.stack[|c.stack| - 1].code != []
    ensures Stacked(c.lo, |c.mem|, SetLocals(Advance(c.stack), locals))
  {
    hide Stacked;
    var top := c.stack[|c.stack| - 1];
    TopStacked(c.lo, |c.mem|, c.stack, top.(code := top.code[1..], locals := locals));
    assert SetLocals(Advance(c.stack), locals)
        == c.stack[..|c.stack| - 1] + [top.(code := top.code[1..], locals := locals)];
  }

  lemma ExecTermStacked(p: Program, c: Config, flip: bool)
    requires Stacked(c.lo, |c.mem|, c.stack) && c.stack != []
    ensures var r := ExecTerm(p, c, flip); r.lo == c.lo && Stacked(r.lo, |r.mem|, r.stack)
  {
    hide EnvOf, Stacked;
    var n := |c.stack| - 1;
    var top := c.stack[n];
    var env := EnvOf(c.lo, top, c.mem);
    match top.term
    case Br(cond, yes, no) => GotoStacked(p, c, if cond(env) then yes else no);
    case SwapBr(cond, yes, no) => GotoStacked(p, c, if cond(env) != flip then yes else no);
    case Jump(b) => GotoStacked(p, c, b);
    case Ret(v) =>
      if n > 0 {
        assert Stacked(c.lo, |c.mem|, c.stack[..n]) by { PopStacked(c.lo, |c.mem|, c.stack); }
        TopStacked(c.lo, |c.mem|, c.stack[..n], c.stack[n - 1].(locals := c.stack[n - 1].locals[0 := v(env)]));
      }
  }

  lemma PopStacked(lo: int, n: int, stack: seq<Frame>)
    requires Stacked(lo, n, stack) && stack != []
    ensures Stacked(lo, n, stack[..|stack| - 1])
  {
  }

  lemma GotoStacked(p: Program, c: Config, b: nat)
    requires Stacked(c.lo, |c.mem|, c.stack) && c.stack != []
    ensures var r := Goto(p, c, b); r.lo == c.lo && Stacked(c.lo, |c.mem|, r.stack)
  {
    hide Stacked;
    var top := c.stack[|c.stack| - 1];
    if top.fn < |p| && 0 < b < |p[top.fn].blocks| {
      TopStacked(c.lo, |c.mem|, c.stack, top.(code := p[top.fn].blocks[b].code, term := p[top.fn].blocks[b].term));
    }
  }

  /** Running a program keeps its frames in place. */
  lemma ExecStacked(p: Program, c: Config, flip: bool)
    requires Stacked(c.lo, |c.mem|, c.stack)
    ensures var r := Exec(p, c, flip); r.lo == c.lo && Stacked(r.lo, |r.mem|, r.stack)
  {
    hide Stacked, ExecInstr, ExecTerm;
    if c.status == Running && c.stack != [] {
      if c.stack[|c.stack| - 1].code != [] {
        ExecInstrStacked(p, c);
      } else {
        ExecTermStacked(p, c, flip);
      }
    }
  }

  lemma LiveTwice(m: Mem, lo: int, sp: int, sp': int)
    requires sp <= sp'
    ensures Live(Live(m, lo, sp), lo, sp') == Live(m, lo, sp')
  {
  }

  lemma LiveWrite(m: Mem, lo: int, sp: int, a: int, bytes: seq<Byte>)
    requires InRange(m, a, |bytes|)
    ensures Live(Write(Live(m, lo, sp), a, bytes), lo, sp) == Live(Write(m, a, bytes), lo, sp)
  {
  }

  /** A fresh frame shows nothing of what was there before. */
  lemma LiveEnter(m: Mem, lo: int, sp: int, size: nat)
    requires lo <= sp - size && 0 <= sp - size && sp <= |m|
    ensures Live(Write(Live(m, lo, sp), sp - size, Zeros(size)), lo, sp - size)
         == Live(Write(m, sp - size, Zeros(size)), lo, sp - size)
  {
  }

  // ----- Erasing the hooks commutes with execution -----

  lemma EraseAdvance(stack: seq<Frame>)
    requires stack != [] && stack[|stack| - 1].code != []
    ensures var top := stack[|stack| - 1];
            if IsHook(top.code[0]) then EraseStack(Advance(stack)) == EraseStack(stack)
            else
              var e := EraseStack(stack);
              e[|e| - 1].code != [] && e[|e| - 1].code[0] == top.code[0] && EraseStack(Advance(stack)) == Advance(e)
  {
    var n := |stack| - 1;
    var top := stack[n];
    var e := EraseStack(stack);
    if IsHook(top.code[0]) {
      assert EraseStack(Advance(stack)) == EraseStack(stack);
    } else {
      assert EraseCode(top.code)[1..] == EraseCode(top.code[1..]);
      assert EraseStack(Advance(stack)) == Advance(e);
    }
  }

  lemma EraseSetLocals(stack: seq<Frame>, locals: Locals)
    requires stack != []
    ensures EraseStack(SetLocals(stack, locals)) == SetLocals(EraseStack(stack), locals)
  {
  }

  lemma EraseCallable(q: Program, k: nat)
    ensures Callable(q, k) <==> Callable(Erase(q), k)
  {
    if k < |q| {
      assert Erase(q)[k] == EraseFunction(q[k]);
    }
  }

  /** What an instruction sees does not depend on the hooks or on the unused stack. */
  lemma EraseEnv(c: Config)
    requires c.stack != []
    ensures var e := EraseConfig(c);
            EnvOf(e.lo, e.stack[|e.stack| - 1], e.mem) == EnvOf(c.lo, c.stack[|c.stack| - 1], c.mem)
  {
    var sp := c.stack[|c.stack| - 1].sp;
    LiveTwice(c.mem, c.lo, sp, sp);
  }

  lemma {:induction false} EraseCodeTwice(code: seq<Instr>)
    ensures EraseCode(EraseCode(code)) == EraseCode(code)
    ensures PlainCode(EraseCode(code))
  {
    if code != [] {
      EraseCodeTwice(code[1..]);
      if !IsHook(code[0]) {
        assert EraseCode(code)[1..] == EraseCode(code[1..]);
      }
    }
  }

  lemma EraseStackTwice(stack: seq<Frame>)
    ensures EraseStack(EraseStack(stack)) == EraseStack(stack)
  {
    forall k | 0 <= k < |stack| ensures EraseFrame(EraseFrame(stack[k])) == EraseFrame(stack[k]) {
      EraseCodeTwice(stack[k].code);
    }
  }

  lemma EraseConfigTwice(c: Config)
    ensures EraseConfig(EraseConfig(c)) == EraseConfig(c)
  {
    EraseStackTwice(c.stack);
    LiveTwice(c.mem, c.lo, Top(c), Top(c));
  }

  lemma EraseGoto(q: Program, c: Config, b: nat)
    requires c.stack != []
    ensures EraseConfig(Goto(Erase(q), EraseConfig(c), b)) == EraseConfig(Goto(q, c, b))
  {
    var n := |c.stack| - 1;
    var top := c.stack[n];
    var e := EraseConfig(c);
    EraseStackTwice(c.stack);
    LiveTwice(c.mem, c.lo, top.sp, top.sp);
    if top.fn < |q| && 0 < b < |q[top.fn].blocks| {
      assert Erase(q)[top.fn].blocks[b] == EraseBlock(q[top.fn].blocks[b]);
      assert Goto(Erase(q), e, b).stack == EraseStack(Goto(q, c, b).stack);
      EraseStackTwice(Goto(q, c, b).stack);
    }
  }

  lemma EraseEntry(q: Program, stack: seq<Frame>, k: nat, args: Locals, base: int)
    requires Callable(q, k)
    ensures Callable(Erase(q), k) && StackSize(Erase(q)[k]) == StackSize(q[k])
    ensures EraseStack(stack + [EntryFrame(q, k, args, base)])
         == EraseStack(stack) + [EntryFrame(Erase(q), k, args, base)]
  {
    EraseCallable(q, k);
    assert Erase(q)[k].blocks[0] == EraseBlock(q[k].blocks[0]);
    assert EraseFrame(EntryFrame(q, k, args, base)) == EntryFrame(Erase(q), k, args, base);
  }

  lemma EraseEnter(q: Program, c: Config, k: nat, args: Locals)
    requires c.stack != [] && c.stack[|c.stack| - 1].code != [] && !IsHook(c.stack[|c.stack| - 1].code[0])
    requires Callable(q, k)
    ensures var e := EraseConfig(c);
            && Callable(Erase(q), k) && e.stack[|e.stack| - 1].code != []
            && EraseConfig(EnterFunction(Erase(q), e, k, args)) == EraseConfig(EnterFunction(q, c, k, args))
  {
    var sp := c.stack[|c.stack| - 1].sp;
    var e := EraseConfig(c);
    EraseAdvance(c.stack);
    EraseStackTwice(c.stack);
    EraseEntry(q, Advance(c.stack), k, args, sp);
    if Room(c, sp, StackSize(q[k])) {
      LiveEnter(c.mem, c.lo, sp, StackSize(q[k]));
      EraseStackTwice(EnterFunction(q, c, k, args).stack);
    } else {
      LiveTwice(c.mem, c.lo, sp, sp);
    }
  }

  lemma EraseWrite(c: Config, a: int, bytes: seq<Byte>)
    requires c.stack != [] && c.stack[|c.stack| - 1].code != [] && !IsHook(c.stack[|c.stack| - 1].code[0])
    ensures var e := EraseConfig(c);
            && e.stack[|e.stack| - 1].code != []
            && EraseConfig(WriteMem(e, a, bytes)) == EraseConfig(WriteMem(c, a, bytes))
  {
    var sp := c.stack[|c.stack| - 1].sp;
    EraseAdvance(c.stack);
    EraseStackTwice(c.stack);
    EraseStackTwice(Advance(c.stack));
    LiveTwice(c.mem, c.lo, sp, sp);
    if InRange(c.mem, a, |bytes|) {
      LiveWrite(c.mem, c.lo, sp, a, bytes);
    }
  }

  lemma ErasePerform(c: Config, env: Env)
    requires c.stack != [] && c.stack[|c.stack| - 1].code != [] && !IsHook(c.stack[|c.stack| - 1].code[0])
    ensures var e := EraseConfig(c);
            e.stack[|e.stack| - 1].code != [] && EraseConfig(Perform(e, env)) == EraseConfig(Perform(c, env))
  {
    EraseAdvance(c.stack);
    EraseStackTwice(c.stack);
    EraseSetLocals(Advance(c.stack), env.locals);
    EraseStackTwice(SetLocals(Advance(c.stack), env.locals));
    LiveTwice(c.mem, c.lo, Top(c), Top(c));
  }

  lemma EraseCompute(c: Config, locals: Locals)
    requires c.stack != [] && c.stack[|c.stack| - 1].code != [] && !IsHook(c.stack[|c.stack| - 1].code[0])
    ensures var e := EraseConfig(c);
            && e.stack[|e.stack| - 1].code != []
            && EraseConfig(e.(stack := SetLocals(Advance(e.stack), locals)))
               == EraseConfig(c.(stack := SetLocals(Advance(c.stack), locals)))
  {
    EraseAdvance(c.stack);
    EraseSetLocals(Advance(c.stack), locals);
    EraseStackTwice(SetLocals(Advance(c.stack), locals));
    LiveTwice(c.mem, c.lo, Top(c), Top(c));
  }

  lemma EraseFacts(c: Config)
    ensures var e := EraseConfig(c); e.lo == c.lo && e.status == c.status && e.stack == EraseStack(c.stack)
  {
  }

  lemma EraseCrash(c: Config)
    ensures EraseConfig(EraseConfig(c).(status := Crashed)) == EraseConfig(c.(status := Crashed))
  {
    EraseStackTwice(c.stack);
    LiveTwice(c.mem, c.lo, Top(c), Top(c));
  }

  lemma EraseExecInstr(q: Program, c: Config)
    requires c.stack != []
    requires var code := c.stack[|c.stack| - 1].code; code != [] && !IsHook(code[0])
    ensures var e := EraseConfig(c);
            e.stack[|e.stack| - 1].code != [] && EraseConfig(ExecInstr(Erase(q), e)) == EraseConfig(ExecInstr(q, c))
  {
    hide EraseConfig, EnvOf, WriteMem, EnterFunction, Perform, Callable, Erase;
    var top := c.stack[|c.stack| - 1];
    var env := EnvOf(c.lo, top, c.mem);
    EraseFacts(c);
    EraseEnv(c);
    EraseAdvance(c.stack);
    match top.code[0]
    case Store(a, v) => EraseWrite(c, a(env), v(env));
    case Copy(a, v) => EraseWrite(c, a(env), v(env));
    case Compute(f) => EraseCompute(c, f(env));
    case Spill(a, v) =>
      EraseWrite(c, a(env), v(env));
      EraseCrash(c);
    case Opaque(f, _) => ErasePerform(c, f(env));
    case External(f) => ErasePerform(c, f(env));
    case Call(k, args) =>
      EraseCallable(q, k);
      EraseCrash(c);
      if Callable(q, k) { EraseEnter(q, c, k, args(env)); }
    case _ =>
  }

  lemma EraseReturn(c: Config, locals: Locals)
    requires |c.stack| > 1 && Stacked(c.lo, |c.mem|, c.stack)
    ensures var n := |c.stack| - 1; var e := EraseConfig(c);
            EraseConfig(e.(stack := SetLocals(e.stack[..n], locals)))
            == EraseConfig(c.(stack := SetLocals(c.stack[..n], locals)))
  {
    var n := |c.stack| - 1;
    var st := SetLocals(c.stack[..n], locals);
    EraseSetLocals(c.stack[..n], locals);
    assert EraseStack(c.stack[..n]) == EraseStack(c.stack)[..n];
    EraseStackTwice(st);
    LiveTwice(c.mem, c.lo, c.stack[n].sp, c.stack[n - 1].sp);
  }

  lemma EraseExecTerm(q: Program, c: Config)
    requires c.stack != [] && Stacked(c.lo, |c.mem|, c.stack)
    ensures EraseConfig(ExecTerm(Erase(q), EraseConfig(c), false)) == EraseConfig(ExecTerm(q, c, false))
  {
    hide EraseConfig, EnvOf, Goto, Erase, SetLocals;
    var n := |c.stack| - 1;
    var top := c.stack[n];
    var env := EnvOf(c.lo, top, c.mem);
    EraseFacts(c);
    EraseEnv(c);
    match top.term
    case Br(cond, yes, no) => EraseGoto(q, c, if cond(env) then yes else no);
    case SwapBr(cond, yes, no) => EraseGoto(q, c, if cond(env) then yes else no);
    case Jump(b) => EraseGoto(q, c, b);
    case Ret(v) =>
      if n > 0 {
        EraseReturn(c, c.stack[n - 1].locals[0 := v(env)]);
      } else {
        EraseHalt(c);
      }
  }

  lemma EraseHalt(c: Config)
    ensures EraseConfig(EraseConfig(c).(status := Halted)) == EraseConfig(c.(status := Halted))
  {
    EraseStackTwice(c.stack);
    LiveTwice(c.mem, c.lo, Top(c), Top(c));
  }

  /** A plain step of the instrumented program is a step of the original one. */
  lemma EraseExec(q: Program, c: Config)
    requires c.status == Running && c.stack != [] && Stacked(c.lo, |c.mem|, c.stack)
    requires var code := c.stack[|c.stack| - 1].code; code == [] || !IsHook(code[0])
    ensures EraseConfig(Exec(Erase(q), EraseConfig(c), false)) == EraseConfig(Exec(q, c, false))
  {
    hide EraseConfig, ExecInstr, ExecTerm, Erase;
    EraseFacts(c);
    if c.stack[|c.stack| - 1].code != [] {
      EraseExecInstr(q, c);
    } else {
      EraseExecTerm(q, c);
    }
  }

  // ----- What holds of every frame -----

  ghost predicate FrameOk(q: Program, f: Frame) {
    && f.fn < |q|
    && (Count(f.code, KCheckpoint) > 0 ==> Speculates(q[f.fn]) && f.term.SwapBr?)
    && (Count(f.code, KDepth) > 0 ==>
          && Speculates(q[f.fn]) && f.code[0].CallDepthHook? && Count(f.code, KDepth) == 1
          && (f.term.Ret? ==> Count(f.code, KReturn) == 1))
    && Count(f.code, KReturn) <= (if Speculates(q[f.fn]) && f.term.Ret? then 1 else 0)
    && (Charged(f.code) || Spent(f.code))
    && (f.code == [] ==> Spent(f.code))
    && TailOnly(f.code, KCheckpoint) && TailOnly(f.code, KReturn)
    && (Speculates(q[f.fn]) && f.term.Ret? && Count(f.code, KReturn) == 0 ==> Count(f.code, Plain) == 0)
  }

  /** All the code left in the frame, or all but its first instruction, has its hooks. */
  ghost predicate WholeGuarded(q: Program, f: Frame)
    requires f.fn < |q|
  {
    Visited(q[f.fn]) ==> Guarded(None, f.code, NoSpec in q[f.fn].cats)
  }

  ghost predicate TailGuarded(q: Program, f: Frame)
    requires f.fn < |q|
  {
    Visited(q[f.fn]) && f.code != [] ==> Guarded(Some(f.code[0]), f.code[1..], NoSpec in q[f.fn].cats)
  }

  ghost predicate StackOk(q: Program, stack: seq<Frame>) {
    && stack != []
    && (forall k :: 0 <= k < |stack| ==> FrameOk(q, stack[k]))
    && (forall k :: 0 <= k < |stack| - 1 ==> WholeGuarded(q, stack[k]) && Charged(stack[k].code))
    && TailGuarded(q, stack[|stack| - 1])
  }

  /** Frame `f` at the beginning of block `b` of its function. */
  function AtBlock(q: Program, f: Frame, b: nat): Frame
    requires f.fn < |q| && b < |q[f.fn].blocks|
  {
    f.(code := q[f.fn].blocks[b].code, term := q[f.fn].blocks[b].term)
  }

  lemma BlockFrameOk(q: Program, f: Frame, b: nat)
    requires WellHooked(q) && f.fn < |q| && b < |q[f.fn].blocks|
    ensures var g := AtBlock(q, f, b); FrameOk(q, g) && WholeGuarded(q, g) && TailGuarded(q, g)
  {
    assert Stage(q[f.fn], true, true, true);
    assert BlockStage(q[f.fn], b == 0, q[f.fn].blocks[b], true, true, true);
  }

  lemma EntryFrameOk(q: Program, k: nat, args: Locals, base: int)
    requires WellHooked(q) && Callable(q, k)
    ensures var f := EntryFrame(q, k, args, base); FrameOk(q, f) && WholeGuarded(q, f) && TailGuarded(q, f)
  {
    BlockFrameOk(q, EntryFrame(q, k, args, base), 0);
  }

  lemma StepFrameOk(q: Program, f: Frame)
    requires FrameOk(q, f) && TailGuarded(q, f) && f.code != []
    ensures var f' := f.(code := f.code[1..]);
            && FrameOk(q, f') && TailGuarded(q, f')
            && (!IsHook(f.code[0]) ==> Charged(f'.code))
            && (KindOf(f.code[0]) != KStore && KindOf(f.code[0]) != KMemcpy && KindOf(f.code[0]) != KRestart ==>
                  WholeGuarded(q, f'))
  {
  }

  lemma AdvanceStackOk(q: Program, stack: seq<Frame>)
    requires StackOk(q, stack) && stack[|stack| - 1].code != []
    ensures StackOk(q, Advance(stack))
  {
    StepFrameOk(q, stack[|stack| - 1]);
  }

  lemma GotoStackOk(q: Program, c: Config, b: nat)
    requires WellHooked(q) && StackOk(q, c.stack)
    ensures StackOk(q, Goto(q, c, b).stack)
  {
    var top := c.stack[|c.stack| - 1];
    if 0 < b < |q[top.fn].blocks| {
      BlockFrameOk(q, top, b);
    }
  }

  lemma SetLocalsStackOk(q: Program, stack: seq<Frame>, locals: Locals)
    requires StackOk(q, stack)
    ensures StackOk(q, SetLocals(stack, locals))
  {
    var n := |stack| - 1;
    assert FrameOk(q, stack[n].(locals := locals));
  }

  lemma CallStackOk(q: Program, stack: seq<Frame>, k: nat, args: Locals, base: int)
    requires WellHooked(q) && StackOk(q, stack) && Callable(q, k)
    requires var code := stack[|stack| - 1].code; code != [] && code[0].Call?
    ensures StackOk(q, Advance(stack) + [EntryFrame(q, k, args, base)])
  {
    AdvanceStackOk(q, stack);
    StepFrameOk(q, stack[|stack| - 1]);
    EntryFrameOk(q, k, args, base);
  }

  lemma PopStackOk(q: Program, stack: seq<Frame>)
    requires StackOk(q, stack) && |stack| > 1
    ensures StackOk(q, stack[..|stack| - 1])
  {
    var f := stack[|stack| - 2];
    assert FrameOk(q, f) && WholeGuarded(q, f);
  }

  lemma ExecInstrStackOk(q: Program, c: Config)
    requires WellHooked(q) && StackOk(q, c.stack) && c.stack[|c.stack| - 1].code != []
    requires !IsHook(c.stack[|c.stack| - 1].code[0])
    ensures StackOk(q, ExecInstr(q, c).stack)
  {
    hide StackOk, WellHooked, EnvOf, Write, Callable;
    StackFacts(q, c.stack);
    var top := c.stack[|c.stack| - 1];
    var env := EnvOf(c.lo, top, c.mem);
    AdvanceStackOk(q, c.stack);
    match top.code[0]
    case Compute(f) => SetLocalsStackOk(q, Advance(c.stack), f(env));
    case Opaque(f, _) => SetLocalsStackOk(q, Advance(c.stack), f(env).locals);
    case External(f) => SetLocalsStackOk(q, Advance(c.stack), f(env).locals);
    case Call(k, args) => if Callable(q, k) { CallStackOk(q, c.stack, k, args(env), top.sp); }
    case _ =>
  }

  lemma ExecTermStackOk(q: Program, c: Config, flip: bool)
    requires WellHooked(q) && StackOk(q, c.stack)
    ensures StackOk(q, ExecTerm(q, c, flip).stack)
  {
    hide StackOk, WellHooked, EnvOf, Goto;
    StackFacts(q, c.stack);
    var n := |c.stack| - 1;
    var top := c.stack[n];
    var env := EnvOf(c.lo, top, c.mem);
    match top.term
    case Br(cond, yes, no) => GotoStackOk(q, c, if cond(env) then yes else no);
    case SwapBr(cond, yes, no) => GotoStackOk(q, c, if cond(env) != flip then yes else no);
    case Jump(b) => GotoStackOk(q, c, b);
    case Ret(v) =>
      if n > 0 {
        PopStackOk(q, c.stack);
        SetLocalsStackOk(q, c.stack[..n], c.stack[n - 1].locals[0 := v(env)]);
      }
  }

  lemma ExecStackOk(q: Program, c: Config, flip: bool)
    requires WellHooked(q) && StackOk(q, c.stack) && c.status == Running
    requires var code := c.stack[|c.stack| - 1].code; code == [] || !IsHook(code[0])
    ensures StackOk(q, Exec(q, c, flip).stack)
  {
    if c.stack[|c.stack| - 1].code != [] {
      ExecInstrStackOk(q, c);
    } else {
      ExecTermStackOk(q, c, flip);
    }
  }

  // ----- The invariant of the machine -----

  /** The runtime's own variables and arrays are not part of the program's memory. */
  predicate Apart(c: Setup, n: int) {
    n <= c.addrs && n <= c.data && n <= c.addrsVar && n <= c.dataVar && n <= c.position && n <= c.enabled
  }

  /** A frame counts towards the depth from its entry hook to its return hook. */
  function Weight(q: Program, f: Frame): int
    requires f.fn < |q|
  {
    if Speculates(q[f.fn]) && Count(f.code, KDepth) == 0 && !(f.term.Ret? && Count(f.code, KReturn) == 0)
    then 1 else 0
  }

  predicate Known(q: Program, stack: seq<Frame>) {
    forall k :: 0 <= k < |stack| ==> stack[k].fn < |q|
  }

  /** The depth of the frames from index `lo` on. */
  function Depth(q: Program, stack: seq<Frame>, lo: nat): int
    requires Known(q, stack)
  {
    if |stack| <= lo then 0 else
    var n := |stack| - 1;
    Weight(q, stack[n]) + Depth(q, stack[..n], lo)
  }

  ghost predicate AllLogged(rt: Rt, a: int, n: int) {
    forall i :: a <= i < a + n && 0 <= i < |rt.mem| ==> Logged(rt, i)
  }

  /** If the next instruction writes memory, then its hook has run and logged what it overwrites. */
  ghost predicate HeadReady(lo: int, rt: Rt, f: Frame) {
    f.code != [] ==>
      var env := EnvOf(lo, f, rt.mem);
      match f.code[0]
      case Store(a, v) => AllLogged(rt, a(env), |v(env)|)
      case Copy(a, v) => AllLogged(rt, a(env), |v(env)|)
      case Opaque(f, _) => Harmless(f)
      case External(f) => Harmless(f)
      case _ => true
  }

  /** The snapshot is that of the frame of the checkpoint, which is where it was. */
  predicate SnapshotOk(s: State) {
    && 1 <= s.height <= |s.stack|
    && s.saved.sp == s.stack[s.height - 1].sp && s.saved.base == s.stack[s.height - 1].base
    && s.rt.stackAt == s.saved.sp && |s.rt.stack| == s.saved.base - s.saved.sp
  }

  /** What holds in speculation: the frame of the checkpoint is still there, and the depth tells how far above. */
  ghost predicate SpecOk(q: Program, s: State)
    requires StackOk(q, s.stack)
  {
    var top := s.stack[|s.stack| - 1];
    && SnapshotOk(s)
    && FrameOk(q, s.saved) && WholeGuarded(q, s.saved)
    && Weight(q, s.stack[s.height - 1]) == 1
    && s.rt.callDepth == Depth(q, s.stack, s.height)
    && (forall k :: s.height - 1 <= k < |s.stack| - 1 ==> Visited(q[s.stack[k].fn]))
    && (Visited(q[top.fn]) || (top.code != [] && KindOf(top.code[0]) == KRestart))
    && HeadReady(s.lo, s.rt, top)
  }

  ghost predicate MachineInv(c: Setup, q: Program, s: State) {
    && Shape(s.rt) && Apart(c, |s.rt.mem|) && Speculation.SetupOk(c)
    && StackOk(q, s.stack) && Stacked(s.lo, |s.rt.mem|, s.stack)
    && (s.status == Panicked || Speculation.Inv(c, s.rt))
    && (s.status != Running ==> !s.rt.inSpec)
    && (s.rt.inSpec ==> SpecOk(q, s))
  }

  lemma StackFacts(q: Program, stack: seq<Frame>)
    requires StackOk(q, stack)
    ensures stack != [] && Known(q, stack)
    ensures var top := stack[|stack| - 1]; FrameOk(q, top) && TailGuarded(q, top)
  {
  }

  // ----- Rolling back -----

  lemma RewindOk(q: Program, s: State)
    requires StackOk(q, s.stack) && s.rt.inSpec && SpecOk(q, s)
    ensures StackOk(q, Rewind(s))
  {
    var st := Rewind(s);
    assert FrameOk(q, s.saved) && TailGuarded(q, s.saved);
    forall k | 0 <= k < |st| - 1 ensures FrameOk(q, st[k]) && WholeGuarded(q, st[k]) && Charged(st[k].code) {
      assert st[k] == s.stack[k];
    }
  }

  lemma RewindStacked(s: State)
    requires SnapshotOk(s) && Stacked(s.lo, |s.rt.mem|, s.stack)
    ensures Stacked(s.lo, |s.rt.mem|, Rewind(s))
  {
    var st := Rewind(s);
    forall k | 0 <= k < |st| ensures st[k].sp == s.stack[k].sp && st[k].base == s.stack[k].base {
    }
  }

  /** In speculation the stack pointer is never above the frame of the checkpoint. */
  lemma TopBelow(s: State)
    requires SnapshotOk(s) && Stacked(s.lo, |s.rt.mem|, s.stack)
    ensures var top := s.stack[|s.stack| - 1];
            && s.lo <= top.sp <= s.saved.sp <= s.saved.base <= |s.rt.mem| && top.base <= s.saved.base
  {
  }

  /** The words that a restart skips are words of the unused stack. */
  lemma WindowIsDead(s: State, w: Window, i: int)
    requires s.stack != [] && 0 <= i < |s.rt.mem| && !(s.lo <= i < s.stack[|s.stack| - 1].sp)
    ensures !WindowAt(s, w).Skips(Align(i))
  {
  }

  lemma {:induction false} OldestSameSkips(b: Byte, log: seq<Entry>, w: Window, w': Window, i: int)
    requires forall k :: 0 <= k < |log| ==> log[k].addr % 8 == 0
    requires !w.Skips(Align(i)) && !w'.Skips(Align(i))
    ensures Oldest(b, log, w, i) == Oldest(b, log, w', i)
  {
    if log != [] {
      assert log[0].addr % 8 == 0;
      OldestSameSkips(b, log[1..], w, w', i);
    }
  }

  /** Whatever part of the unused stack a restart skips, it restores the rest. */
  lemma AnyWindowRestores(c: Setup, s: State, w: Window, i: int)
    requires Shape(s.rt) && Speculation.Inv(c, s.rt) && SnapshotOk(s) && Stacked(s.lo, |s.rt.mem|, s.stack)
    requires 0 <= i < |s.rt.mem| && !(s.lo <= i < s.saved.sp)
    ensures Restored(s.rt, WindowAt(s, w))[i] == Restored(s.rt, NOWHERE)[i]
  {
    TopBelow(s);
    WindowIsDead(s, w, i);
    ReplayIsOldest(s.rt.mem, s.rt.log, WindowAt(s, w), i);
    ReplayIsOldest(s.rt.mem, s.rt.log, NOWHERE, i);
    OldestSameSkips(s.rt.mem[i], s.rt.log, WindowAt(s, w), NOWHERE, i);
  }

  /** What a step in speculation keeps: the invariant, and the state that is due. */
  ghost predicate Undisturbed(c: Setup, q: Program, s: State, s': State)
    requires Shape(s.rt)
  {
    MachineInv(c, q, s') && Observed(Resume(s')) == Observed(Resume(s))
  }

  /** A hook that does not return has put the machine in the state that was due. */
  lemma LandBack(c: Setup, q: Program, s: State, r: Outcome, next: seq<Frame>, w: Window)
    requires MachineInv(c, q, s) && s.status == Running && s.rt.inSpec
    requires Faithful(s.rt, r, WindowAt(s, w)) && r.exit != Continues && (r.exit == Panics || Speculation.Inv(c, r.s))
    ensures Undisturbed(c, q, s, Land(s, r, next)) && !Land(s, r, next).rt.inSpec
  {
    hide StackOk, FrameOk, WholeGuarded, Restored, WindowAt, Weight, HeadReady;
    var s' := Land(s, r, next);
    RewindOk(q, s);
    RewindStacked(s);
    TopBelow(s);
    forall i | 0 <= i < |s.rt.mem| && !(s.lo <= i < s.saved.sp) ensures s'.rt.mem[i] == Restored(s.rt, NOWHERE)[i] {
      AnyWindowRestores(c, s, w, i);
    }
    assert Observed(Resume(s')).mem == Observed(Resume(s)).mem;
  }

  // ----- Depth -----

  lemma DepthTop(q: Program, stack: seq<Frame>, f: Frame, lo: nat)
    requires Known(q, stack) && stack != [] && f.fn < |q| && lo <= |stack|
    ensures var n := |stack| - 1; var st := stack[..n] + [f];
            Known(q, st) &&
            Depth(q, st, lo) == Depth(q, stack, lo) + (if lo <= n then Weight(q, f) - Weight(q, stack[n]) else 0)
  {
    var n := |stack| - 1;
    assert (stack[..n] + [f])[..n] == stack[..n];
  }

  lemma DepthPush(q: Program, stack: seq<Frame>, f: Frame, lo: nat)
    requires Known(q, stack) && f.fn < |q| && lo <= |stack|
    ensures Known(q, stack + [f]) && Depth(q, stack + [f], lo) == Depth(q, stack, lo) + Weight(q, f)
  {
    assert (stack + [f])[..|stack|] == stack;
  }

  // ----- Hooks -----

  /** The frame that is left when the hook at the head of the top frame has returned. */
  function NextTop(s: State): Frame
    requires AtHook(s)
  {
    var top := s.stack[|s.stack| - 1];
    top.(code := top.code[1..])
  }

  lemma HeadReadyAfter(lo: int, rt: Rt, q: Program, f: Frame)
    requires FrameOk(q, f) && Visited(q[f.fn]) && WholeGuarded(q, f)
    ensures HeadReady(lo, rt, f)
  {
  }

  /** Replacing the top frame keeps the frames a rollback goes back to. */
  lemma ReplaceTop(q: Program, s: State, s': State, f: Frame)
    requires StackOk(q, s.stack) && StackOk(q, s'.stack) && SpecOk(q, s)
    requires s'.stack == s.stack[..|s.stack| - 1] + [f] && s'.saved == s.saved && s'.height == s.height
    requires s'.rt.stackAt == s.rt.stackAt && s'.rt.stack == s.rt.stack && s'.lo == s.lo
    requires f.sp == s.stack[|s.stack| - 1].sp && f.base == s.stack[|s.stack| - 1].base
    requires Visited(q[f.fn]) && HeadReady(s'.lo, s'.rt, f)
    requires s.height == |s.stack| ==> Weight(q, f) == 1
    requires s'.rt.callDepth == s.rt.callDepth +
             (if s.height < |s.stack| then Weight(q, f) - Weight(q, s.stack[|s.stack| - 1]) else 0)
    ensures SpecOk(q, s') && Rewind(s') == Rewind(s)
  {
    hide StackOk, FrameOk, WholeGuarded, Weight, HeadReady;
    StackFacts(q, s.stack);
    StackFacts(q, s'.stack);
    DepthTop(q, s.stack, f, s.height);
    forall k | 0 <= k < |s'.stack| - 1 ensures s'.stack[k] == s.stack[k] {
    }
  }

  function DepthChange(k: Kind): int {
    if k == KDepth then 1 else if k == KReturn then -1 else 0
  }

  /** Passing a hook changes the weight of a frame as the hook changes the depth. */
  lemma HookWeight(q: Program, f: Frame)
    requires FrameOk(q, f) && TailGuarded(q, f) && f.code != [] && IsHook(f.code[0])
    ensures var f' := f.(code := f.code[1..]);
            Weight(q, f') <= 1 && Weight(q, f') == Weight(q, f) + DepthChange(KindOf(f.code[0]))
  {
  }

  /** The hook has logged what the instruction it belongs to will overwrite. */
  ghost predicate HookDone(lo: int, rt: Rt, f: Frame)
    requires f.code != []
  {
    var env := EnvOf(lo, f, rt.mem);
    match f.code[0]
    case StoreHook(a) => AllLogged(rt, a(env), 8)
    case MemcpyHook(a, v) => AllLogged(rt, a(env), |v(env)|)
    case RestartHook(t) => t == OnReturn
    case _ => true
  }

  lemma HookMakesReady(q: Program, lo: int, rt: Rt, f: Frame)
    requires FrameOk(q, f) && TailGuarded(q, f) && Visited(q[f.fn]) && f.code != [] && IsHook(f.code[0])
    requires HookDone(lo, rt, f)
    ensures HeadReady(lo, rt, f.(code := f.code[1..]))
  {
  }

  /** A hook that returns leaves the due state alone; the rest is bookkeeping on the top frame. */
  lemma LandNext(c: Setup, q: Program, s: State, r: Outcome, w: Window)
    requires MachineInv(c, q, s) && s.status == Running && s.rt.inSpec && AtHook(s)
    requires Faithful(s.rt, r, w) && r.exit == Continues && Speculation.Inv(c, r.s)
    requires var top := s.stack[|s.stack| - 1];
             HookDone(s.lo, r.s, top) && r.s.callDepth == s.rt.callDepth + DepthChange(KindOf(top.code[0]))
    ensures Undisturbed(c, q, s, Land(s, r, Advance(s.stack)))
  {
    hide StackOk, FrameOk, TailGuarded, WholeGuarded, Weight, HeadReady, Stacked, Live;
    StackFacts(q, s.stack);
    var top := s.stack[|s.stack| - 1];
    AdvanceStackOk(q, s.stack);
    TopStacked(s.lo, |s.rt.mem|, s.stack, NextTop(s));
    HookWeight(q, top);
    HookMakesReady(q, s.lo, r.s, top);
    DepthAtCheckpoint(q, s);
    ReplaceTop(q, s, Land(s, r, Advance(s.stack)), NextTop(s));
    ExtendsKeepsReplay(s.rt, r.s, NOWHERE);
  }

  /** In the frame of the checkpoint itself the depth is zero. */
  lemma DepthAtCheckpoint(q: Program, s: State)
    requires StackOk(q, s.stack) && SpecOk(q, s)
    ensures s.height == |s.stack| ==> s.rt.callDepth == 0
  {
  }

  /** Outside speculation every hook but a checkpoint is a no-op. */
  lemma HookOutside(c: Setup, q: Program, s: State, ch: Choice)
    requires MachineInv(c, q, s) && s.status == Running && !s.rt.inSpec && AtHook(s)
    ensures var s' := ExecHook(c, s, ch);
            MachineInv(c, q, s') && EraseConfig(Resume(s')) == EraseConfig(Resume(s))
  {
    hide StackOk, FrameOk, TailGuarded, Stacked, WindowAt, EnvOf;
    StackFacts(q, s.stack);
    var top := s.stack[|s.stack| - 1];
    AdvanceStackOk(q, s.stack);
    TopStacked(s.lo, |s.rt.mem|, s.stack, NextTop(s));
    EraseAdvance(s.stack);
    if top.code[0].CheckpointHook? {
      CheckpointTaken(c, q, s, ch);
    }
  }

  lemma CheckpointTaken(c: Setup, q: Program, s: State, ch: Choice)
    requires MachineInv(c, q, s) && s.status == Running && !s.rt.inSpec && AtHook(s)
    requires s.stack[|s.stack| - 1].code[0].CheckpointHook?
    ensures var s' := ExecHook(c, s, ch);
            MachineInv(c, q, s') && EraseConfig(Resume(s')) == EraseConfig(Resume(s))
  {
    hide StackOk, WindowAt, FrameOk, TailGuarded, WholeGuarded, Weight, HeadReady, Speculation.Inv, Restored, Stacked,
         Visited, Live;
    StackFacts(q, s.stack);
    var s' := ExecHook(c, s, ch);
    var top := s.stack[|s.stack| - 1];
    AdvanceStackOk(q, s.stack);
    TopStacked(s.lo, |s.rt.mem|, s.stack, NextTop(s));
    TopInMemory(s.lo, |s.rt.mem|, s.stack);
    EraseAdvance(s.stack);
    CheckpointFrame(q, top);
    Speculation.CheckpointInv(c, s.rt, ch.admitted, ch.swapEnabled, top.base, top.sp);
    if TakesCheckpoint(s.rt, ch.admitted) {
      HeadReadyAfter(s.lo, s'.rt, q, NextTop(s));
      assert Rewind(s') == s'.stack;
      SnapshotIsThere(s'.rt);
    }
  }

  lemma TopInMemory(lo: int, n: int, stack: seq<Frame>)
    requires Stacked(lo, n, stack) && stack != []
    ensures var top := stack[|stack| - 1]; 0 <= top.sp <= top.base <= n
  {
  }

  /** The frame that takes a checkpoint counts, and everything left of it has its hooks. */
  lemma CheckpointFrame(q: Program, f: Frame)
    requires FrameOk(q, f) && TailGuarded(q, f) && f.code != [] && f.code[0].CheckpointHook?
    ensures var f' := f.(code := f.code[1..]);
            FrameOk(q, f') && WholeGuarded(q, f') && Weight(q, f') == 1 && Visited(q[f.fn])
  {
    StepFrameOk(q, f);
  }

  /** Right after a checkpoint, a rollback restores what is there. */
  lemma SnapshotIsThere(rt: Rt)
    requires Shape(rt) && rt.log == [] && rt.stack == rt.mem[rt.stackAt..rt.stackAt + |rt.stack|]
    ensures Restored(rt, NOWHERE) == rt.mem
  {
  }

  // ----- Hooks in speculation -----

  /** What the runtime does for a hook at the head of frame `f`. */
  ghost predicate HookResult(c: Setup, lo: int, rt: Rt, f: Frame, r: Outcome, w: Window)
    requires Shape(rt) && f.code != []
  {
    && Faithful(rt, r, w)
    && (r.exit != Panics ==> Speculation.Inv(c, r.s))
    && (r.exit == Continues ==> HookDone(lo, r.s, f) && r.s.callDepth == rt.callDepth + DepthChange(KindOf(f.code[0])))
  }

  ghost predicate RuntimeOk(c: Setup, rt: Rt) {
    Shape(rt) && Apart(c, |rt.mem|) && Speculation.SetupOk(c) && Speculation.Inv(c, rt) && rt.inSpec
  }

  lemma RestartResult(c: Setup, lo: int, rt: Rt, f: Frame, t: Reason, w: Window)
    requires RuntimeOk(c, rt) && f.code != []
    requires Restart(c, rt, t, w).exit == Continues ==> f.code[0] == RestartHook(OnReturn)
    ensures HookResult(c, lo, rt, f, Restart(c, rt, t, w), w)
  {
    RestartFaithful(c, rt, t, w);
    Speculation.RestartInv(c, rt, t, w);
  }

  lemma StoreAllLogged(c: Setup, rt: Rt, a: int, w: Window)
    requires Shape(rt) && Apart(c, |rt.mem|) && rt.inSpec && rt.logEnabled && Loggable(rt.mem, a)
    ensures var r := HookStore(c, rt, a, w);
            Faithful(rt, r, w) && (r.exit == Continues ==> AllLogged(r.s, a, 8))
  {
    var r := HookStore(c, rt, a, w);
    WriteWlFaithful(c, rt, a, w);
    forall i | r.exit == Continues && a <= i < a + 8 && 0 <= i < |rt.mem| ensures Logged(r.s, i) {
      assert Align(a) <= i < a + Span(a) && !Exempt(c, Align(i));
    }
  }

  lemma CopyAllLogged(c: Setup, rt: Rt, a: int, n: int, w: Window)
    requires Shape(rt) && Apart(c, |rt.mem|) && rt.inSpec && rt.logEnabled
    requires RangeLoggable(rt.mem, CopyStart(a), a + n)
    ensures var r := HookMemcpy(c, rt, a, n, w);
            Faithful(rt, r, w) && (r.exit == Continues ==> AllLogged(r.s, a, n))
  {
    var r := HookMemcpy(c, rt, a, n, w);
    CopyCoverage(c, rt, a, n, w);
    forall i | r.exit == Continues && a <= i < a + n && 0 <= i < |rt.mem| ensures Logged(r.s, i) {
      assert !Exempt(c, Align(i));
    }
  }

  lemma CopyKeepsInv(c: Setup, rt: Rt, a: int, n: int, w: Window)
    requires Shape(rt) && Speculation.Inv(c, rt) && rt.inSpec && RangeLoggable(rt.mem, CopyStart(a), a + n)
    ensures var r := HookMemcpy(c, rt, a, n, w);
            && (r.exit != Panics ==> Speculation.Inv(c, r.s))
            && (r.exit == Continues ==> r.s.callDepth == rt.callDepth)
  {
    Speculation.LogRangeInv(c, rt, CopyStart(a), a + n, w);
    Speculation.LogRangeOnlyLogs(c, rt, CopyStart(a), a + n, w);
  }

  lemma CopyResult(c: Setup, lo: int, rt: Rt, f: Frame, a: int, n: int, r: Outcome, w: Window)
    requires RuntimeOk(c, rt) && f.code != [] && f.code[0].MemcpyHook?
    requires var env := EnvOf(lo, f, rt.mem); a == f.code[0].addr(env) && n == |f.code[0].bytes(env)|
    requires Faithful(rt, r, w) && (r.exit == Continues ==> AllLogged(r.s, a, n))
    requires r.exit != Panics ==> Speculation.Inv(c, r.s)
    requires r.exit == Continues ==> r.s.callDepth == rt.callDepth
    ensures HookResult(c, lo, rt, f, r, w)
  {
  }

  lemma StoreHookResult(c: Setup, lo: int, rt: Rt, f: Frame, ch: Choice, w: Window)
    requires RuntimeOk(c, rt) && f.code != [] && f.code[0].StoreHook?
    ensures HookResult(c, lo, rt, f, HookOutcome(c, rt, f.code[0], EnvOf(lo, f, rt.mem), ch, w), w)
  {
    var a := f.code[0].addr(EnvOf(lo, f, rt.mem));
    if Loggable(rt.mem, a) {
      StoreAllLogged(c, rt, a, w);
      Speculation.WriteWlInv(c, rt, a, w);
      Speculation.WriteWlOnlyLogs(c, rt, a, w);
    } else {
      RestartResult(c, lo, rt, f, OnPageFault, w);
    }
  }

  lemma RuntimeFacts(c: Setup, rt: Rt)
    requires RuntimeOk(c, rt)
    ensures Shape(rt) && Apart(c, |rt.mem|) && Speculation.Inv(c, rt) && rt.inSpec && rt.logEnabled
  {
  }

  lemma CopyHookResult(c: Setup, lo: int, rt: Rt, f: Frame, ch: Choice, w: Window)
    requires RuntimeOk(c, rt) && f.code != [] && f.code[0].MemcpyHook?
    ensures HookResult(c, lo, rt, f, HookOutcome(c, rt, f.code[0], EnvOf(lo, f, rt.mem), ch, w), w)
  {
    hide HookMemcpy, RangeLoggable, Restart, HookResult, RuntimeOk, EnvOf;
    RuntimeFacts(c, rt);
    var env := EnvOf(lo, f, rt.mem);
    var a, n := f.code[0].addr(env), |f.code[0].bytes(env)|;
    if RangeLoggable(rt.mem, CopyStart(a), a + n) {
      CopyAllLogged(c, rt, a, n, w);
      CopyKeepsInv(c, rt, a, n, w);
      CopyResult(c, lo, rt, f, a, n, HookMemcpy(c, rt, a, n, w), w);
    } else {
      FaultEnds(c, rt, w);
      RestartResult(c, lo, rt, f, OnPageFault, w);
    }
  }

  lemma FaultEnds(c: Setup, rt: Rt, w: Window)
    requires Shape(rt) && rt.inSpec
    ensures Restart(c, rt, OnPageFault, w).exit != Continues
  {
  }

  lemma DepthHookResult(c: Setup, lo: int, rt: Rt, f: Frame, w: Window)
    requires RuntimeOk(c, rt) && f.code != [] && f.code[0].CallDepthHook?
    ensures HookResult(c, lo, rt, f, HookCallDepth(c, rt, w), w)
  {
    Speculation.CallDepthInv(c, rt, w);
  }

  lemma LengthHookResult(c: Setup, lo: int, rt: Rt, f: Frame, w: Window)
    requires RuntimeOk(c, rt) && f.code != [] && f.code[0].SpecLengthHook? && f.code[0].n >= 1
    ensures HookResult(c, lo, rt, f, HookSpecLength(c, rt, f.code[0].n, w), w)
  {
    Speculation.SpecLengthInv(c, rt, f.code[0].n, w);
  }

  lemma CheckpointHookResult(c: Setup, lo: int, rt: Rt, f: Frame, ch: Choice, w: Window)
    requires RuntimeOk(c, rt) && f.code != [] && f.code[0].CheckpointHook?
    requires 0 <= f.sp <= f.base <= |rt.mem|
    ensures var r := HookCheckpoint(rt, ch.admitted, ch.swapEnabled, f.base, f.sp);
            HookResult(c, lo, rt, f, Outcome(r, Continues), w)
  {
    Speculation.CheckpointInv(c, rt, ch.admitted, ch.swapEnabled, f.base, f.sp);
  }

  lemma HookOutcomeResult(c: Setup, lo: int, rt: Rt, f: Frame, ch: Choice, w: Window)
    requires RuntimeOk(c, rt) && f.code != [] && IsHook(f.code[0])
    requires f.code[0].SpecLengthHook? ==> f.code[0].n >= 1
    requires 0 <= f.sp <= f.base <= |rt.mem|
    ensures HookResult(c, lo, rt, f, HookOutcome(c, rt, f.code[0], EnvOf(lo, f, rt.mem), ch, w), w)
  {
    match f.code[0]
    case StoreHook(_) => StoreHookResult(c, lo, rt, f, ch, w);
    case MemcpyHook(_, _) => CopyHookResult(c, lo, rt, f, ch, w);
    case RestartHook(t) => RestartResult(c, lo, rt, f, t, w);
    case CallDepthHook => DepthHookResult(c, lo, rt, f, w);
    case SpecLengthHook(_) => LengthHookResult(c, lo, rt, f, w);
    case CheckpointHook => CheckpointHookResult(c, lo, rt, f, ch, w);
  }

  lemma ChargePositive(q: Program, f: Frame)
    requires FrameOk(q, f) && f.code != [] && f.code[0].SpecLengthHook?
    ensures f.code[0].n >= 1
  {
  }

  lemma HookInside(c: Setup, q: Program, s: State, ch: Choice)
    requires MachineInv(c, q, s) && s.status == Running && s.rt.inSpec && AtHook(s)
    ensures Undisturbed(c, q, s, ExecHook(c, s, ch))
  {
    hide HookOutcome, Faithful, SpecOk, StackOk, FrameOk, TailGuarded, Speculation.Inv, Resume, WindowAt, EnvOf;
    StackFacts(q, s.stack);
    var top := s.stack[|s.stack| - 1];
    var w := WindowAt(s, ch.window);
    var r := HookOutcome(c, s.rt, top.code[0], EnvOf(s.lo, top, s.rt.mem), ch, w);
    if top.code[0].SpecLengthHook? { ChargePositive(q, top); }
    HookOutcomeResult(c, s.lo, s.rt, top, ch, w);
    if r.exit != Continues {
      LandBack(c, q, s, r, Advance(s.stack), ch.window);
    } else {
      LandNext(c, q, s, r, w);
    }
  }

  // ----- Plain steps in speculation -----

  /** The bytes that differ in `m` are logged, or lie in the frame of the checkpoint or below it. */
  ghost predicate CanWrite(s: State, m: Mem) {
    && |m| == |s.rt.mem|
    && forall i :: 0 <= i < |m| && m[i] != s.rt.mem[i] ==> s.lo <= i < s.saved.base || Logged(s.rt, i)
  }

  /** The runtime after a plain step: the program wrote memory, and a swapped branch took the flag. */
  function Written(rt: Rt, m: Mem, swap: bool): Rt {
    rt.(mem := m, swap := swap)
  }

  lemma WriteKeepsByte(s: State, m: Mem, i: int)
    requires Shape(s.rt) && SnapshotOk(s) && Stacked(s.lo, |s.rt.mem|, s.stack) && CanWrite(s, m)
    requires 0 <= i < |m| && !(s.lo <= i < s.saved.sp)
    ensures Restored(s.rt.(mem := m), NOWHERE)[i] == Restored(s.rt, NOWHERE)[i]
  {
    TopBelow(s);
    if !(s.saved.sp <= i < s.saved.base) {
      if m[i] != s.rt.mem[i] {
        assert Logged(s.rt, i);
        var k :| 0 <= k < |s.rt.log| && s.rt.log[k].addr == Align(i);
        assert Covers(s.rt.log[k], NOWHERE, i);
      }
      ReplayIgnoresCovered(s.rt.mem, m, s.rt.log, NOWHERE, i);
    }
  }

  /** A plain step does not change what is due. */
  lemma WriteKeepsDue(s: State, s': State, m: Mem, swap: bool)
    requires Shape(s.rt) && SnapshotOk(s) && Stacked(s.lo, |s.rt.mem|, s.stack) && CanWrite(s, m) && s.rt.inSpec
    requires s' == s.(stack := s'.stack, rt := Written(s.rt, m, swap)) && Rewind(s') == Rewind(s)
    ensures Shape(s'.rt) && Observed(Resume(s')) == Observed(Resume(s))
  {
    hide Restored;
    TopBelow(s);
    forall i | 0 <= i < |m| && !(s.lo <= i < s.saved.sp)
      ensures Restored(s'.rt, NOWHERE)[i] == Restored(s.rt, NOWHERE)[i]
    {
      WriteKeepsByte(s, m, i);
      assert Restored(s'.rt, NOWHERE) == Restored(s.rt.(mem := m), NOWHERE) by { SwapIsNotRestored(s.rt, m, swap); }
    }
    assert Observed(Resume(s')).mem == Observed(Resume(s)).mem;
  }

  lemma SwapIsNotRestored(rt: Rt, m: Mem, swap: bool)
    requires Shape(rt) && |m| == |rt.mem|
    ensures Restored(Written(rt, m, swap), NOWHERE) == Restored(rt.(mem := m), NOWHERE)
  {
  }

  /** A plain step that stays in the top frame. */
  lemma StepTop(c: Setup, q: Program, s: State, f: Frame, m: Mem, swap: bool)
    requires MachineInv(c, q, s) && s.status == Running && s.rt.inSpec && CanWrite(s, m) && (swap ==> s.rt.swap)
    requires var st := s.stack[..|s.stack| - 1] + [f]; StackOk(q, st)
    requires f.sp == s.stack[|s.stack| - 1].sp && f.base == s.stack[|s.stack| - 1].base
    requires Visited(q[f.fn]) && WholeGuarded(q, f) && Weight(q, f) == Weight(q, s.stack[|s.stack| - 1])
    ensures Undisturbed(c, q, s, s.(stack := s.stack[..|s.stack| - 1] + [f], rt := Written(s.rt, m, swap)))
  {
    hide StackOk, FrameOk, WholeGuarded, Weight, Depth, Stacked, Resume, CanWrite;
    StackFacts(q, s.stack);
    StackFacts(q, s.stack[..|s.stack| - 1] + [f]);
    var s' := s.(stack := s.stack[..|s.stack| - 1] + [f], rt := Written(s.rt, m, swap));
    assert FrameOk(q, f) by { assert s'.stack[|s'.stack| - 1] == f; }
    TopStacked(s.lo, |s.rt.mem|, s.stack, f);
    assert |m| == |s.rt.mem| by { CanWriteKeepsSize(s, m); }
    HeadReadyAfter(s.lo, s'.rt, q, f);
    ReplaceTop(q, s, s', f);
    WriteKeepsDue(s, s', m, swap);
  }

  lemma CanWriteKeepsSize(s: State, m: Mem)
    requires CanWrite(s, m)
    ensures |m| == |s.rt.mem|
  {
  }

  lemma TopVisited(c: Setup, q: Program, s: State)
    requires MachineInv(c, q, s) && s.rt.inSpec && !AtHook(s)
    ensures s.stack != [] && Known(q, s.stack) && Visited(q[s.stack[|s.stack| - 1].fn])
  {
    StackFacts(q, s.stack);
  }

  /** Passing a plain instruction does not change the weight of a frame. */
  lemma PlainWeight(q: Program, f: Frame)
    requires FrameOk(q, f) && f.code != [] && !IsHook(f.code[0])
    ensures Weight(q, f.(code := f.code[1..])) == Weight(q, f)
  {
  }

  /** An instruction that sets registers and writes what it may. */
  lemma InstrWrites(c: Setup, q: Program, s: State, locals: Locals, m: Mem)
    requires MachineInv(c, q, s) && s.status == Running && s.rt.inSpec && CanWrite(s, m)
    requires var top := s.stack[|s.stack| - 1]; top.code != [] && !IsHook(top.code[0])
    ensures Undisturbed(c, q, s,
              s.(stack := SetLocals(Advance(s.stack), locals), rt := Written(s.rt, m, s.rt.swap)))
  {
    hide SpecOk, StackOk, FrameOk, TailGuarded, Speculation.Inv, CanWrite;
    StackFacts(q, s.stack);
    TopVisited(c, q, s);
    var top := s.stack[|s.stack| - 1];
    AdvanceStackOk(q, s.stack);
    SetLocalsStackOk(q, Advance(s.stack), locals);
    StepFrameOk(q, top);
    PlainWeight(q, top);
    var f := top.(code := top.code[1..], locals := locals);
    assert SetLocals(Advance(s.stack), locals) == s.stack[..|s.stack| - 1] + [f];
    StepTop(c, q, s, f, m, s.rt.swap);
  }

  lemma AdvanceIsSetLocals(stack: seq<Frame>)
    requires stack != [] && stack[|stack| - 1].code != []
    ensures SetLocals(Advance(stack), stack[|stack| - 1].locals) == Advance(stack)
  {
  }

  lemma NoWrite(s: State)
    ensures CanWrite(s, s.rt.mem) && Written(s.rt, s.rt.mem, s.rt.swap) == s.rt
  {
  }

  lemma StoreInside(c: Setup, q: Program, s: State, a: int, bytes: seq<Byte>)
    requires MachineInv(c, q, s) && s.status == Running && s.rt.inSpec
    requires var top := s.stack[|s.stack| - 1]; top.code != [] && !IsHook(top.code[0])
    requires InRange(s.rt.mem, a, |bytes|) && AllLogged(s.rt, a, |bytes|)
    ensures Undisturbed(c, q, s,
              s.(stack := Advance(s.stack), rt := Written(s.rt, Write(s.rt.mem, a, bytes), s.rt.swap)))
  {
    hide StackOk, SpecOk, Undisturbed, Logged, Speculation.Inv;
    StackNotEmpty(q, s.stack);
    AdvanceIsSetLocals(s.stack);
    InstrWrites(c, q, s, s.stack[|s.stack| - 1].locals, Write(s.rt.mem, a, bytes));
  }

  lemma ComputeInside(c: Setup, q: Program, s: State, locals: Locals)
    requires MachineInv(c, q, s) && s.status == Running && s.rt.inSpec
    requires var top := s.stack[|s.stack| - 1]; top.code != [] && !IsHook(top.code[0])
    ensures Undisturbed(c, q, s, s.(stack := SetLocals(Advance(s.stack), locals)))
  {
    hide StackOk, SpecOk, Undisturbed, CanWrite, Written, Speculation.Inv;
    NoWrite(s);
    InstrWrites(c, q, s, locals, s.rt.mem);
  }

  lemma SnapshotFacts(c: Setup, q: Program, s: State)
    requires MachineInv(c, q, s) && s.rt.inSpec
    ensures SnapshotOk(s) && HeadReady(s.lo, s.rt, s.stack[|s.stack| - 1])
  {
  }

  /** A write of the compiler's own stays in the frame. */
  lemma SpillInside(c: Setup, q: Program, s: State, a: int, bytes: seq<Byte>)
    requires MachineInv(c, q, s) && s.status == Running && s.rt.inSpec
    requires var top := s.stack[|s.stack| - 1];
             top.code != [] && !IsHook(top.code[0]) && top.sp <= a && a + |bytes| <= top.base
    requires InRange(s.rt.mem, a, |bytes|)
    ensures Undisturbed(c, q, s,
              s.(stack := Advance(s.stack), rt := Written(s.rt, Write(s.rt.mem, a, bytes), s.rt.swap)))
  {
    hide StackOk, SpecOk, Undisturbed, Logged, Speculation.Inv;
    SnapshotFacts(c, q, s);
    TopBelow(s);
    AdvanceIsSetLocals(s.stack);
    InstrWrites(c, q, s, s.stack[|s.stack| - 1].locals, Write(s.rt.mem, a, bytes));
  }

  lemma FrameEnvOk(lo: int, n: int, stack: seq<Frame>, m: Mem)
    requires Stacked(lo, n, stack) && stack != [] && n == |m|
    ensures EnvOk(EnvOf(lo, stack[|stack| - 1], m))
  {
  }

  /** A harmless operation writes no further than its own frame. */
  lemma PerformInside(c: Setup, q: Program, s: State, f: Env -> Env)
    requires MachineInv(c, q, s) && s.status == Running && s.rt.inSpec && Harmless(f)
    requires var top := s.stack[|s.stack| - 1]; top.code != [] && !IsHook(top.code[0])
    requires |f(EnvOf(s.lo, s.stack[|s.stack| - 1], s.rt.mem)).mem| == |s.rt.mem|
    ensures var e := f(EnvOf(s.lo, s.stack[|s.stack| - 1], s.rt.mem));
            Undisturbed(c, q, s,
              s.(stack := SetLocals(Advance(s.stack), e.locals), rt := Written(s.rt, e.mem, s.rt.swap)))
  {
    hide StackOk, SpecOk, Undisturbed, Logged, Speculation.Inv, EnvOk;
    SnapshotFacts(c, q, s);
    TopBelow(s);
    var env := EnvOf(s.lo, s.stack[|s.stack| - 1], s.rt.mem);
    FrameEnvOk(s.lo, |s.rt.mem|, s.stack, s.rt.mem);
    assert KeepsOutside(f, env);
    forall i | 0 <= i < |s.rt.mem| && f(env).mem[i] != s.rt.mem[i] ensures s.lo <= i < s.saved.base {
      if !(s.lo <= i < env.base) {
        assert f(env).mem[i] == env.mem[i];
      }
    }
    InstrWrites(c, q, s, f(env).locals, f(env).mem);
  }

  /** A function that has just been entered does not count yet, and it has a hook at its head if it must not run. */
  lemma EntryFacts(q: Program, k: nat, args: Locals, base: int)
    requires WellHooked(q) && Callable(q, k)
    ensures var f := EntryFrame(q, k, args, base);
            && Weight(q, f) == 0
            && (Visited(q[k]) || (f.code != [] && KindOf(f.code[0]) == KRestart))
  {
    assert Stage(q[k], true, true, true);
    assert BlockStage(q[k], true, q[k].blocks[0], true, true, true);
  }

  lemma EntryReady(q: Program, k: nat, args: Locals, base: int, lo: int, rt: Rt)
    requires WellHooked(q) && Callable(q, k)
    ensures HeadReady(lo, rt, EntryFrame(q, k, args, base))
  {
    EntryFacts(q, k, args, base);
    EntryFrameOk(q, k, args, base);
    if Visited(q[k]) { HeadReadyAfter(lo, rt, q, EntryFrame(q, k, args, base)); }
  }

  /** Pushing a frame that does not count keeps what a rollback goes back to. */
  lemma PushTop(q: Program, s: State, s': State, f: Frame)
    requires StackOk(q, s.stack) && StackOk(q, s'.stack) && SpecOk(q, s)
    requires s' == s.(stack := s.stack + [f]) && f.fn < |q|
    requires Visited(q[s.stack[|s.stack| - 1].fn]) && Weight(q, f) == 0 && HeadReady(s.lo, s.rt, f)
    requires Visited(q[f.fn]) || (f.code != [] && KindOf(f.code[0]) == KRestart)
    ensures SpecOk(q, s') && Rewind(s') == Rewind(s)
  {
    hide StackOk, FrameOk, WholeGuarded, Weight, HeadReady;
    StackFacts(q, s.stack);
    StackFacts(q, s'.stack);
    DepthPush(q, s.stack, f, s.height);
  }

  /** The fresh frame of a callee is unused stack to the frame of the checkpoint. */
  lemma FreshFrame(s: State, size: nat)
    requires SnapshotOk(s) && Stacked(s.lo, |s.rt.mem|, s.stack) && Room(ConfigOf(s), s.stack[|s.stack| - 1].sp, size)
    ensures var a := s.stack[|s.stack| - 1].sp - size;
            InRange(s.rt.mem, a, size) && CanWrite(s, Write(s.rt.mem, a, Zeros(size)))
  {
    TopBelow(s);
  }

  lemma CallInside(c: Setup, q: Program, s: State, k: nat, args: Locals)
    requires WellHooked(q) && MachineInv(c, q, s) && s.status == Running && s.rt.inSpec && Callable(q, k)
    requires var top := s.stack[|s.stack| - 1]; top.code != [] && top.code[0].Call?
    requires Room(ConfigOf(s), s.stack[|s.stack| - 1].sp, StackSize(q[k]))
    ensures var r := EnterFunction(q, ConfigOf(s), k, args);
            Undisturbed(c, q, s, s.(stack := r.stack, rt := Written(s.rt, r.mem, s.rt.swap)))
  {
    hide SpecOk, StackOk, FrameOk, WellHooked, Speculation.Inv, Replay, Weight, HeadReady, CanWrite, Stacked,
         Write, Room;
    StackFacts(q, s.stack);
    TopVisited(c, q, s);
    SnapshotFacts(c, q, s);
    var top := s.stack[|s.stack| - 1];
    var base := top.sp;
    FreshFrame(s, StackSize(q[k]));
    var m := Write(s.rt.mem, base - StackSize(q[k]), Zeros(StackSize(q[k])));
    var s1 := s.(stack := Advance(s.stack), rt := Written(s.rt, m, s.rt.swap));
    var f := EntryFrame(q, k, args, base);
    AdvanceIsSetLocals(s.stack);
    InstrWrites(c, q, s, top.locals, m);
    EnterStacked(q, ConfigOf(s), k, args);
    CallStackOk(q, s.stack, k, args, base);
    EntryFacts(q, k, args, base);
    EntryReady(q, k, args, base, s.lo, s1.rt);
    PushTop(q, s1, s1.(stack := s1.stack + [f]), f);
  }

  lemma GotoWeight(q: Program, f: Frame, b: nat)
    requires WellHooked(q) && FrameOk(q, f) && f.code == [] && !f.term.Ret? && 0 < b < |q[f.fn].blocks|
    ensures Weight(q, AtBlock(q, f, b)) == Weight(q, f)
  {
    assert Stage(q[f.fn], true, true, true);
    assert BlockStage(q[f.fn], false, q[f.fn].blocks[b], true, true, true);
  }

  lemma GotoInside(c: Setup, q: Program, s: State, b: nat, swap: bool)
    requires WellHooked(q) && MachineInv(c, q, s) && s.status == Running && s.rt.inSpec && (swap ==> s.rt.swap)
    requires var top := s.stack[|s.stack| - 1];
             top.code == [] && !top.term.Ret? && 0 < b < |q[top.fn].blocks|
    ensures Undisturbed(c, q, s,
              s.(stack := Goto(q, ConfigOf(s), b).stack, rt := Written(s.rt, s.rt.mem, swap)))
  {
    hide SpecOk, StackOk, FrameOk, TailGuarded, WholeGuarded, WellHooked, Weight, Speculation.Inv, CanWrite;
    StackFacts(q, s.stack);
    TopVisited(c, q, s);
    var top := s.stack[|s.stack| - 1];
    GotoStackOk(q, ConfigOf(s), b);
    GotoWeight(q, top, b);
    BlockFrameOk(q, top, b);
    NoWrite(s);
    StepTop(c, q, s, AtBlock(q, top, b), s.rt.mem, swap);
  }

  lemma LocalsDoNotWeigh(q: Program, f: Frame, locals: Locals)
    requires f.fn < |q|
    ensures Weight(q, f.(locals := locals)) == Weight(q, f)
  {
  }

  lemma CallerWhole(q: Program, stack: seq<Frame>, locals: Locals)
    requires StackOk(q, stack) && |stack| > 1
    ensures var f := stack[|stack| - 2].(locals := locals); FrameOk(q, f) && WholeGuarded(q, f)
  {
    assert FrameOk(q, stack[|stack| - 2]) && WholeGuarded(q, stack[|stack| - 2]);
  }

  /** A frame that returns has passed its return hook, so it is not the frame of the checkpoint. */
  lemma ReturnIsAbove(q: Program, s: State)
    requires StackOk(q, s.stack) && SpecOk(q, s)
    requires var top := s.stack[|s.stack| - 1]; top.code == [] && top.term.Ret?
    ensures s.height < |s.stack| && Weight(q, s.stack[|s.stack| - 1]) == 0
  {
  }

  /** Dropping a frame that does not count keeps what a rollback goes back to. */
  lemma PopTop(q: Program, s: State, s': State, f: Frame)
    requires StackOk(q, s.stack) && StackOk(q, s'.stack) && SpecOk(q, s) && s.height < |s.stack|
    requires s' == s.(stack := s.stack[..|s.stack| - 2] + [f])
    requires f == s.stack[|s.stack| - 2].(locals := f.locals)
    requires Weight(q, s.stack[|s.stack| - 1]) == 0 && HeadReady(s.lo, s.rt, f)
    ensures SpecOk(q, s') && Rewind(s') == Rewind(s)
  {
    hide StackOk, FrameOk, WholeGuarded, Weight, HeadReady;
    StackFacts(q, s.stack);
    StackFacts(q, s'.stack);
    var n := |s.stack| - 1;
    LocalsDoNotWeigh(q, s.stack[n - 1], f.locals);
    DepthTop(q, s.stack[..n], f, s.height);
    assert s.stack[..n][..n - 1] == s.stack[..n - 1];
    forall k | 0 <= k < |s'.stack| - 1 ensures s'.stack[k] == s.stack[k] {
    }
  }

  lemma ReturnInside(c: Setup, q: Program, s: State, locals: Locals)
    requires MachineInv(c, q, s) && s.status == Running && s.rt.inSpec
    requires var top := s.stack[|s.stack| - 1]; top.code == [] && top.term.Ret?
    ensures |s.stack| > 1 && Undisturbed(c, q, s, s.(stack := SetLocals(s.stack[..|s.stack| - 1], locals)))
  {
    hide StackOk, FrameOk, TailGuarded, WholeGuarded, Replay, Speculation.Inv, Weight, HeadReady, Stacked;
    StackFacts(q, s.stack);
    ReturnIsAbove(q, s);
    var n := |s.stack| - 1;
    var f := s.stack[n - 1].(locals := locals);
    var s' := s.(stack := SetLocals(s.stack[..n], locals));
    PopStackOk(q, s.stack);
    SetLocalsStackOk(q, s.stack[..n], locals);
    PopStacked(s.lo, |s.rt.mem|, s.stack);
    TopStacked(s.lo, |s.rt.mem|, s.stack[..n], f);
    CallerWhole(q, s.stack, locals);
    HeadReadyAfter(s.lo, s.rt, q, f);
    assert s'.stack == s.stack[..n - 1] + [f];
    PopTop(q, s, s', f);
  }

  /** Interrupts, faults and failed assertions: a restart from anywhere in speculation. */
  lemma RestartInside(c: Setup, q: Program, s: State, t: Reason, next: seq<Frame>, w: Window)
    requires MachineInv(c, q, s) && s.status == Running && s.rt.inSpec && t != OnReturn
    ensures Undisturbed(c, q, s, Land(s, Restart(c, s.rt, t, WindowAt(s, w)), next))
  {
    hide WindowAt, StackOk, SpecOk;
    RestartFaithful(c, s.rt, t, WindowAt(s, w));
    Speculation.RestartInv(c, s.rt, t, WindowAt(s, w));
    LandBack(c, q, s, Restart(c, s.rt, t, WindowAt(s, w)), next, w);
  }

  lemma InstrInside(c: Setup, q: Program, s: State)
    requires WellHooked(q) && MachineInv(c, q, s) && s.status == Running && s.rt.inSpec
    requires var top := s.stack[|s.stack| - 1]; top.code != [] && !IsHook(top.code[0])
    requires ExecInstr(q, ConfigOf(s)).status != Crashed
    ensures var r := ExecInstr(q, ConfigOf(s));
            && r.status == Running
            && Undisturbed(c, q, s, s.(stack := r.stack, rt := Written(s.rt, r.mem, s.rt.swap)))
  {
    hide WellHooked, Speculation.Inv, Undisturbed, StackOk, SpecOk, Stacked, EnvOf, Callable, Write, Apart, Room;
    SnapshotFacts(c, q, s);
    var top := s.stack[|s.stack| - 1];
    var env := EnvOf(s.lo, top, s.rt.mem);
    match top.code[0]
    case Store(a, v) => StoreInside(c, q, s, a(env), v(env));
    case Copy(a, v) => StoreInside(c, q, s, a(env), v(env));
    case Compute(f) => ComputeInside(c, q, s, f(env));
    case Spill(a, v) => SpillInside(c, q, s, a(env), v(env));
    case Opaque(f, _) => PerformInside(c, q, s, f);
    case External(f) => PerformInside(c, q, s, f);
    case Call(k, args) => CallInside(c, q, s, k, args(env));
    case _ => assert false;
  }

  lemma TermInside(c: Setup, q: Program, s: State)
    requires WellHooked(q) && MachineInv(c, q, s) && s.status == Running && s.rt.inSpec
    requires s.stack[|s.stack| - 1].code == []
    requires ExecTerm(q, ConfigOf(s), s.rt.swap).status != Crashed
    ensures var r := ExecTerm(q, ConfigOf(s), s.rt.swap);
            && r.status == Running
            && Undisturbed(c, q, s, s.(stack := r.stack, rt := Written(s.rt, r.mem, s.rt.swap && !AtSwapBr(s))))
  {
    hide WellHooked, StackOk, SpecOk, Stacked, Speculation.Inv, Undisturbed, EnvOf, Apart;
    StackNotEmpty(q, s.stack);
    var n := |s.stack| - 1;
    var top := s.stack[n];
    var env := EnvOf(s.lo, top, s.rt.mem);
    var swap := s.rt.swap && !AtSwapBr(s);
    match top.term
    case Br(cond, yes, no) => GotoInside(c, q, s, if cond(env) then yes else no, swap);
    case SwapBr(cond, yes, no) => GotoInside(c, q, s, if cond(env) != s.rt.swap then yes else no, swap);
    case Jump(b) => GotoInside(c, q, s, b, swap);
    case Ret(v) =>
      ReturnInside(c, q, s, if n == 0 then map[] else s.stack[n - 1].locals[0 := v(env)]);
  }

  lemma PlainInside(c: Setup, q: Program, s: State, w: Window)
    requires WellHooked(q) && MachineInv(c, q, s) && s.status == Running && s.rt.inSpec && !AtHook(s)
    ensures Undisturbed(c, q, s, ExecPlain(c, q, s, WindowAt(s, w)))
  {
    hide WellHooked, StackOk, SpecOk, Stacked, Speculation.Inv, Undisturbed, ExecInstr, ExecTerm, WindowAt;
    StackNotEmpty(q, s.stack);
    var r := Exec(q, ConfigOf(s), s.rt.swap);
    if r.status == Crashed {
      RestartInside(c, q, s, OnPageFault, s.stack, w);
    } else if s.stack[|s.stack| - 1].code != [] {
      InstrInside(c, q, s);
    } else {
      TermInside(c, q, s);
    }
  }

  lemma StackNotEmpty(q: Program, stack: seq<Frame>)
    requires StackOk(q, stack)
    ensures stack != []
  {
  }

  // ----- Every step -----

  /** Outside speculation a plain step is a step of the original program. */
  lemma PlainOutside(c: Setup, q: Program, s: State, w: Window)
    requires WellHooked(q) && MachineInv(c, q, s) && s.status == Running && !s.rt.inSpec && !AtHook(s)
    ensures var s' := ExecPlain(c, q, s, w);
            && MachineInv(c, q, s')
            && EraseConfig(Resume(s')) == EraseConfig(Exec(Erase(q), EraseConfig(Resume(s)), false))
  {
    hide StackOk, Stacked, WellHooked, Replay, ExecInstr, ExecTerm, EraseConfig;
    StackNotEmpty(q, s.stack);
    var cfg := ConfigOf(s);
    ExecStackOk(q, cfg, false);
    ExecStacked(q, cfg, false);
    EraseExec(q, cfg);
    assert s.rt.log == [] && !s.rt.swap;
    StatusNeverPanics(q, cfg);
    SnapshotShape(c, q, s);
  }

  lemma SnapshotShape(c: Setup, q: Program, s: State)
    requires MachineInv(c, q, s)
    ensures InRange(s.rt.mem, s.rt.stackAt, |s.rt.stack|)
  {
  }

  lemma StatusNeverPanics(p: Program, c: Config)
    requires c.status == Running
    ensures Exec(p, c, false).status != Panicked
  {
  }

  /** A failed assertion while a restart seems to be running is only recorded. */
  lemma RecordAssertion(c: Setup, q: Program, s: State)
    requires MachineInv(c, q, s) && s.status == Running && s.rt.inSpec && s.rt.inRestart
    ensures Undisturbed(c, q, s, s.(rt := s.rt.(assertion := true)))
  {
    hide Guarded, Charged, TailOnly, Count, Weight, Depth, Replay, Stacked;
    var s1 := s.(rt := s.rt.(assertion := true));
    forall i | Logged(s.rt, i) ensures Logged(s1.rt, i) {
      var k :| 0 <= k < |s.rt.log| && s.rt.log[k].addr == Align(i);
      assert s1.rt.log[k].addr == Align(i);
    }
    assert HeadReady(s1.lo, s1.rt, s.stack[|s.stack| - 1]);
  }

  lemma AssertStep(c: Setup, q: Program, s: State, ch: Choice)
    requires MachineInv(c, q, s) && s.status == Running
    ensures var s1 := AfterAssert(c, s, ch);
            && MachineInv(c, q, s1)
            && Observed(Resume(s1)) == Observed(Resume(s))
            && (s1.status == Running ==> s1.stack == s.stack && s1.rt.inSpec == s.rt.inSpec)
            && (s1.status == Running && !s.rt.inSpec ==> s1 == s && !(ch.assertFails && !s.rt.assertion))
  {
    hide StackOk, SpecOk, Stacked, WindowAt;
    if ch.assertFails && !s.rt.assertion && s.rt.inSpec {
      if s.rt.inRestart {
        RecordAssertion(c, q, s);
      } else {
        LandBack(c, q, s, Panic(c, s.rt, WindowAt(s, ch.window)), s.stack, ch.window);
      }
    }
  }

  /** What is written below the stack pointer is nothing the program sees. */
  lemma NoiseUnseen(m: Mem, lo: int, sp: int, a: int, bytes: seq<Byte>)
    requires InRange(m, a, |bytes|) && lo <= a && a + |bytes| <= sp
    ensures Live(Write(m, a, bytes), lo, sp) == Live(m, lo, sp)
  {
  }

  lemma ScribbleStep(c: Setup, q: Program, s: State, ch: Choice)
    requires MachineInv(c, q, s) && s.status == Running
    ensures var s0 := Scribble(s, ch);
            && MachineInv(c, q, s0) && s0 == s.(rt := s.rt.(mem := s0.rt.mem))
            && Observed(Resume(s0)) == Observed(Resume(s))
  {
    hide StackOk, FrameOk, WholeGuarded, Weight, Depth, Stacked, Restored, Harmless;
    var s0 := Scribble(s, ch);
    if s0 != s {
      StackNotEmpty(q, s.stack);
      var top := s.stack[|s.stack| - 1];
      NoiseUnseen(s.rt.mem, s.lo, top.sp, ch.noiseAt, ch.noise);
      if s.rt.inSpec {
        forall i | Logged(s.rt, i) ensures Logged(s0.rt, i) {
          var k :| 0 <= k < |s.rt.log| && s.rt.log[k].addr == Align(i);
          assert s0.rt.log[k].addr == Align(i);
        }
        TopBelow(s);
        assert s0.rt == Written(s.rt, s0.rt.mem, s.rt.swap);
        assert Rewind(s0) == Rewind(s);
        WriteKeepsDue(s, s0, s0.rt.mem, s.rt.swap);
      }
    }
  }

  lemma InsideStep(c: Setup, q: Program, s: State, ch: Choice)
    requires WellHooked(q) && MachineInv(c, q, s) && s.status == Running && s.rt.inSpec
    ensures Undisturbed(c, q, s, Proceed(c, q, s, ch))
  {
    hide Undisturbed, WellHooked, ExecPlain, ExecHook, Land, Restart, WindowAt;
    if ch.irq.Some? {
      RestartInside(c, q, s, RestartOf(ch.irq.value), s.stack, ch.window);
    } else if AtHook(s) {
      HookInside(c, q, s, ch);
    } else {
      PlainInside(c, q, s, ch.window);
    }
  }

  lemma ObservedErases(c: Config, d: Config)
    requires Observed(c) == Observed(d)
    ensures EraseConfig(c) == EraseConfig(d)
  {
  }

  /** One step of the instrumented program: the program behind it stays where it is, or takes its next step. */
  lemma StepTransparent(c: Setup, q: Program, s: State, ch: Choice)
    requires WellHooked(q) && MachineInv(c, q, s)
    ensures var s' := Step(c, q, s, ch);
            && MachineInv(c, q, s')
            && EraseConfig(Resume(s')) ==
               var o := EraseConfig(Resume(s));
               if Commits(c, s, ch) then EraseConfig(Exec(Erase(q), o, false)) else o
  {
    hide Land, ExecHook, ExecPlain, Resume, StackOk, SpecOk, Speculation.Inv, Stacked, Scribble, EraseConfig,
         Observed, WindowAt;
    if s.status == Running {
      var s0 := Scribble(s, ch);
      ScribbleStep(c, q, s, ch);
      ObservedErases(Resume(s0), Resume(s));
      var s1 := AfterAssert(c, s0, ch);
      AssertStep(c, q, s0, ch);
      ObservedErases(Resume(s1), Resume(s0));
      if s1.status == Running {
        if s1.rt.inSpec {
          InsideStep(c, q, s1, ch);
          ObservedErases(Resume(Proceed(c, q, s1, ch)), Resume(s1));
        } else if AtHook(s1) {
          HookOutside(c, q, s1, ch);
        } else {
          PlainOutside(c, q, s1, WindowAt(s1, ch.window));
        }
      }
    }
  }

  // ----- Every run -----

  lemma InstrumentReady(order: seq<Pass>, p: Program, j: Job)
    requires forall j :: 0 <= j < |p| ==> PlainFunction(p[j])
    ensures Ready(Instrument(order, p), j) <==> Ready(p, j)
  {
    InstrumentErases(order, p);
    var q := Instrument(order, p);
    EraseCallable(q, j.main);
    if Callable(q, j.main) {
      assert StackSize(Erase(q)[j.main]) == StackSize(q[j.main]);
    }
  }

  lemma StartErases(q: Program, j: Job)
    requires Ready(q, j)
    ensures Ready(Erase(q), j) && EraseConfig(Start(Erase(q), j)) == EraseConfig(Start(q, j))
  {
    EraseEntry(q, [], j.main, j.args, j.top);
    assert [] + [EntryFrame(q, j.main, j.args, j.top)] == [EntryFrame(q, j.main, j.args, j.top)];
    assert [] + [EntryFrame(Erase(q), j.main, j.args, j.top)] == [EntryFrame(Erase(q), j.main, j.args, j.top)];
    EraseStackTwice(Start(q, j).stack);
  }

  lemma BootInv(c: Setup, q: Program, j: Job)
    requires WellHooked(q) && Ready(q, j) && Speculation.SetupOk(c) && Apart(c, |j.mem|)
    ensures var s := Boot(q, j);
            MachineInv(c, q, s) && Resume(s) == Start(q, j)
  {
    hide WellHooked, Guarded, Charged, TailOnly, Count;
    EntryFrameOk(q, j.main, j.args, j.top);
  }

  /** Programs that look the same, but for the unused stack, go on looking the same. */
  lemma ExecObserved(p: Program, o: Config)
    requires Stacked(o.lo, |o.mem|, o.stack) && Erase(p) == p && Hookless(o.stack)
    ensures EraseConfig(Exec(p, EraseConfig(o), false)) == EraseConfig(Exec(p, o, false))
  {
    hide Exec, EraseConfig;
    if o.status == Running && o.stack != [] {
      EraseExec(p, o);
    } else {
      Stopped(p, o);
    }
  }

  lemma Stopped(p: Program, o: Config)
    requires o.status != Running || o.stack == []
    ensures EraseConfig(Exec(p, EraseConfig(o), false)) == EraseConfig(Exec(p, o, false))
  {
    EraseConfigTwice(o);
  }

  /** No hooks anywhere on the stack. */
  predicate Hookless(stack: seq<Frame>) {
    forall k :: 0 <= k < |stack| ==> PlainCode(stack[k].code) && !stack[k].term.SwapBr?
  }

  lemma PlainTail(code: seq<Instr>)
    requires PlainCode(code) && code != []
    ensures PlainCode(code[1..]) && !IsHook(code[0])
  {
    forall k | 0 <= k < |code[1..]| ensures !IsHook(code[1..][k]) {
      assert code[1..][k] == code[k + 1];
    }
  }

  lemma InstrHookless(p: Program, o: Config)
    requires Hookless(o.stack) && (forall j :: 0 <= j < |p| ==> PlainFunction(p[j]))
    requires o.stack != [] && o.stack[|o.stack| - 1].code != []
    ensures Hookless(ExecInstr(p, o).stack)
  {
    hide EnvOf, PlainCode, Write, Hookless, Room;
    var top := o.stack[|o.stack| - 1];
    var env := EnvOf(o.lo, top, o.mem);
    AdvanceHookless(o.stack, top.locals);
    AdvanceIsSetLocals(o.stack);
    match top.code[0]
    case Compute(f) => AdvanceHookless(o.stack, f(env));
    case Opaque(f, _) => AdvanceHookless(o.stack, f(env).locals);
    case External(f) => AdvanceHookless(o.stack, f(env).locals);
    case Call(k, args) => if Callable(p, k) { EntryHookless(p, Advance(o.stack), k, args(env), top.sp); }
    case _ =>
  }

  lemma AdvanceHookless(stack: seq<Frame>, locals: Locals)
    requires Hookless(stack) && stack != [] && stack[|stack| - 1].code != []
    ensures Hookless(SetLocals(Advance(stack), locals))
  {
    hide PlainCode;
    PlainTail(stack[|stack| - 1].code);
  }

  lemma EntryHookless(p: Program, stack: seq<Frame>, k: nat, args: Locals, sp: int)
    requires Hookless(stack) && (forall j :: 0 <= j < |p| ==> PlainFunction(p[j])) && Callable(p, k)
    ensures Hookless(stack + [EntryFrame(p, k, args, sp)])
  {
    hide PlainCode;
    assert PlainFunction(p[k]);
  }

  lemma TermHookless(p: Program, o: Config)
    requires Hookless(o.stack) && (forall j :: 0 <= j < |p| ==> PlainFunction(p[j])) && o.stack != []
    ensures Hookless(ExecTerm(p, o, false).stack)
  {
    hide EnvOf, PlainCode;
    var top := o.stack[|o.stack| - 1];
    if top.fn < |p| {
      assert PlainFunction(p[top.fn]);
    }
  }

  lemma ExecHookless(p: Program, o: Config)
    requires Hookless(o.stack) && forall j :: 0 <= j < |p| ==> PlainFunction(p[j])
    ensures Hookless(Exec(p, o, false).stack)
  {
    hide EnvOf, PlainCode, Write, ExecInstr, ExecTerm;
    if o.status == Running && o.stack != [] {
      if o.stack[|o.stack| - 1].code != [] {
        InstrHookless(p, o);
      } else {
        TermHookless(p, o);
      }
    }
  }

  /** The program `p` without hooks is at `o`, which is where the machine that runs `q` is. */
  ghost predicate Behind(p: Program, q: Program, s: State, o: Config)
    requires Shape(s.rt)
  {
    && Erase(q) == p && Erase(p) == p && (forall j :: 0 <= j < |p| ==> PlainFunction(p[j]))
    && Stacked(o.lo, |o.mem|, o.stack) && Hookless(o.stack)
    && EraseConfig(Resume(s)) == EraseConfig(o)
  }

  /** A step keeps the original program behind the machine, where it is or one step further. */
  lemma StepBehind(c: Setup, p: Program, q: Program, s: State, o: Config, ch: Choice)
    requires WellHooked(q) && MachineInv(c, q, s) && Behind(p, q, s, o)
    ensures MachineInv(c, q, Step(c, q, s, ch))
    ensures Behind(p, q, Step(c, q, s, ch), if Commits(c, s, ch) then Exec(p, o, false) else o)
  {
    hide WellHooked, Step, Resume, Commits, Stacked, Hookless, EraseConfig, Exec, Erase, StackOk, SpecOk,
         Speculation.Inv;
    StepTransparent(c, q, s, ch);
    if Commits(c, s, ch) {
      ExecStacked(p, o, false);
      ExecHookless(p, o);
      ExecObserved(p, o);
    }
  }

  lemma {:induction false} RunTransparent(c: Setup, p: Program, q: Program, s: State, o: Config, chs: seq<Choice>)
    requires WellHooked(q) && MachineInv(c, q, s) && Behind(p, q, s, o)
    ensures var s' := Run(c, q, s, chs);
            MachineInv(c, q, s') && Behind(p, q, s', Iterate(p, o, Committed(c, q, s, chs)))
  {
    hide WellHooked, StackOk, SpecOk, Speculation.Inv, Stacked, Step, Behind, Commits, Exec;
    if chs != [] {
      var n := |chs| - 1;
      RunTransparent(c, p, q, s, o, chs[..n]);
      StepBehind(c, p, q, Run(c, q, s, chs[..n]), Iterate(p, o, Committed(c, q, s, chs[..n])), chs[n]);
    }
  }

  lemma StartHookless(p: Program, j: Job)
    requires Ready(p, j) && PlainFunction(p[j.main])
    ensures var o := Start(p, j); Stacked(o.lo, |o.mem|, o.stack) && Hookless(o.stack)
  {
  }

  /** A source program: no hooks yet, and no harmful operation where the passes put no hook. */
  ghost predicate SourceProgram(p: Program) {
    forall j :: 0 <= j < |p| ==> PlainFunction(p[j]) && Tame(p[j])
  }

  /**
    * The instrumented run stands, without the hooks, where the original program is after the committed
    * steps: same control, registers and outcome, same memory and stack but for what lies below the stack pointer.
    */
  ghost predicate TransparentRun(c: Setup, order: seq<Pass>, p: Program, j: Job, chs: seq<Choice>)
    requires Ready(p, j)
  {
    var q := Instrument(order, p);
    && Ready(q, j)
    && EraseConfig(Resume(Run(c, q, Boot(q, j), chs)))
       == Observed(Iterate(p, Start(p, j), Committed(c, q, Boot(q, j), chs)))
  }

  lemma HooklessErase(o: Config)
    requires Hookless(o.stack)
    ensures EraseConfig(o) == Observed(o)
  {
    forall k | 0 <= k < |o.stack| ensures EraseFrame(o.stack[k]) == o.stack[k] {
      ErasePlainCode(o.stack[k].code);
    }
    assert EraseStack(o.stack) == o.stack;
  }

  /** At the start the original program is behind the instrumented one. */
  lemma BootBehind(c: Setup, order: seq<Pass>, p: Program, j: Job)
    requires Order(order) && SourceProgram(p) && Ready(p, j) && Speculation.SetupOk(c) && Apart(c, |j.mem|)
    ensures var q := Instrument(order, p);
            && WellHooked(q) && Ready(q, j) && MachineInv(c, q, Boot(q, j)) && Behind(p, q, Boot(q, j), Start(p, j))
  {
    hide WellHooked, MachineInv, Apart, Start, EraseConfig, Tame, Stacked, Hookless;
    var q := Instrument(order, p);
    InstrumentIsWellHooked(order, p);
    InstrumentErases(order, p);
    InstrumentErases([], p);
    assert Instrument([], p) == p;
    InstrumentReady(order, p, j);
    BootInv(c, q, j);
    StartErases(q, j);
    StartHookless(p, j);
  }

  /**
    * Transparency. Take any program, instrument it by the three passes in any order, and run it with
    * any interrupts, any decisions to take a checkpoint or to swap, any failures in the runtime, any
    * use of the stack by the runtime and any garbage below the stack pointer. At every moment the state
    * it would fall back to, without the hooks, is the state that the original program reaches in as many
    * steps as the run has committed.
    */
  lemma Transparent(c: Setup, order: seq<Pass>, p: Program, j: Job, chs: seq<Choice>)
    requires Order(order) && SourceProgram(p) && Ready(p, j)
    requires Speculation.SetupOk(c) && Apart(c, |j.mem|)
    ensures TransparentRun(c, order, p, j, chs)
  {
    hide WellHooked, MachineInv, Run, Resume, Iterate, Committed, Apart, Hookless, EraseConfig, Observed;
    var q := Instrument(order, p);
    BootBehind(c, order, p, j);
    RunTransparent(c, p, q, Boot(q, j), Start(p, j), chs);
    HooklessErase(Iterate(p, Start(p, j), Committed(c, q, Boot(q, j), chs)));
  }

  /**
    * Outside speculation nothing has to be rolled back: control, registers and the outcome are those of
    * the original program, and so is every byte of memory and of the stack in use, also in a panic.
    */
  lemma OutsideSpeculation(c: Setup, order: seq<Pass>, p: Program, j: Job, chs: seq<Choice>)
    requires Order(order) && SourceProgram(p) && Ready(p, j)
    requires Speculation.SetupOk(c) && Apart(c, |j.mem|)
    requires Ready(Instrument(order, p), j)
    requires !Run(c, Instrument(order, p), Boot(Instrument(order, p), j), chs).rt.inSpec
    ensures var q := Instrument(order, p);
            var s := Run(c, q, Boot(q, j), chs);
            var o := Iterate(p, Start(p, j), Committed(c, q, Boot(q, j), chs));
            && |s.rt.mem| == |o.mem|
            && (forall i :: 0 <= i < |o.mem| && !(o.lo <= i < Top(o)) ==> s.rt.mem[i] == o.mem[i])
            && EraseStack(s.stack) == o.stack
            && (s.status != Panicked ==> s.status == o.status)
            && (s.status == Panicked ==> o.status == Running)
  {
    hide Run, Iterate, Committed, Erase, Start;
    Transparent(c, order, p, j, chs);
    var q := Instrument(order, p);
    var s := Run(c, q, Boot(q, j), chs);
    var o := Iterate(p, Start(p, j), Committed(c, q, Boot(q, j), chs));
    SameLive(s.rt.mem, o.mem, o.lo, Top(o));
  }

  lemma SameLive(m: Mem, m': Mem, lo: int, sp: int)
    requires Live(m, lo, sp) == Live(m', lo, sp)
    ensures |m| == |m'| && forall i :: 0 <= i < |m| && !(lo <= i < sp) ==> m[i] == m'[i]
  {
    assert |Live(m, lo, sp)| == |Live(m', lo, sp)|;
    forall i | 0 <= i < |m| && !(lo <= i < sp) ensures m[i] == m'[i] {
      assert Live(m, lo, sp)[i] == Live(m', lo, sp)[i];
    }
  }
}
