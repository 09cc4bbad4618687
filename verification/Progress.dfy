/** An instrumented program still terminates: every speculation ends, and the original program then goes on. */
module Progress {
  import opened Options
  import opened Bytes
  import opened UndoLog
  import opened Runtime
  import opened Rollback
  import Speculation
  import opened Ir
  import opened Passes
  import opened Placement
  import opened Machine
  import opened Transparency

  // ----- Entering functions at no cost -----

  /** Functions whose entries are not counted. */
  predicate Uncounted(f: Function) {
    Visited(f) && NoSpec in f.cats
  }

  /** A call that costs nothing: the callee takes no stack, and its entry is not counted. */
  predicate Free(q: Program, k: nat) {
    Callable(q, k) && Uncounted(q[k]) && StackSize(q[k]) == 0
  }

  /** Before such an instruction the log grows in any case. */
  ghost predicate Logs(i: Instr) {
    i.Store? || (i.Copy? && forall env :: EnvOk(env) ==> |i.bytes(env)| > 0)
  }

  ghost predicate LogHook(i: Instr) {
    i.StoreHook? || (i.MemcpyHook? && forall env :: EnvOk(env) ==> |i.bytes(env)| > 0)
  }

  /** The first call in a block, if nothing is sure to be logged on the way to it. */
  ghost function FirstCall(code: seq<Instr>, hooked: bool): Option<nat> {
    if code == [] then None
    else if code[0].Call? then Some(code[0].callee)
    else if (if hooked then LogHook(code[0]) else Logs(code[0])) then None
    else FirstCall(code[1..], hooked)
  }

  /** A rank below `bound` for every function. */
  datatype Ranking = Ranking(rank: seq<nat>, bound: nat)

  ghost predicate CodeRanked(q: Program, k: Ranking, fn: nat, code: seq<Instr>, hooked: bool)
    requires fn < |q| == |k.rank|
  {
    var callee := FirstCall(code, hooked);
    Uncounted(q[fn]) && callee.Some? && Free(q, callee.value) ==> k.rank[callee.value] < k.rank[fn]
  }

  /**
    * No circle of functions that enter each other at no cost: the first call of an entry block comes
    * before any charge, so such a call has to go down in rank. Every later call has been paid for.
    */
  ghost predicate Ranked(q: Program, k: Ranking, hooked: bool) {
    && |k.rank| == |q|
    && (forall fn :: 0 <= fn < |q| ==> k.rank[fn] < k.bound)
    && (forall fn :: 0 <= fn < |q| && q[fn].blocks != [] ==> CodeRanked(q, k, fn, q[fn].blocks[0].code, hooked))
  }

  // ----- The measure of a speculation -----

  /** Whether the block of a frame has been charged. */
  function Flag(f: Frame): int {
    if Spent(f.code) then 1 else 0
  }

  /** A function between its entry and its entry hook, or between its return hook and its return. */
  function Slack(q: Program, f: Frame): int
    requires f.fn < |q|
  {
    if Speculates(q[f.fn]) then 1 - Weight(q, f) else 0
  }

  /** How many functions a frame can still enter at no cost, at most. */
  ghost function RankOf(q: Program, k: Ranking, f: Frame): nat
    requires f.fn < |q| == |k.rank|
  {
    if !Visited(q[f.fn]) then 0
    else if Uncounted(q[f.fn]) && CodeRanked(q, k, f.fn, f.code, true) then k.rank[f.fn] + 1
    else k.bound + 1
  }

  /** Instructions, log, stack, depth and uncounted functions left, and code left in the block. */
  datatype Measure = Measure(budget: int, log: int, stack: int, depth: int, rank: nat, code: nat) {
    predicate Below(m: Measure) {
      || budget < m.budget
      || (budget == m.budget && log < m.log)
      || (budget == m.budget && log == m.log && stack < m.stack)
      || (budget == m.budget && log == m.log && stack == m.stack && depth < m.depth)
      || (budget == m.budget && log == m.log && stack == m.stack && depth == m.depth && rank < m.rank)
      || (budget == m.budget && log == m.log && stack == m.stack && depth == m.depth && rank == m.rank && code < m.code)
    }

    predicate Bounded() {
      budget >= 0 && log >= 0 && stack >= 0 && depth >= 0
    }
  }

  ghost function FrameMeasure(c: Setup, q: Program, k: Ranking, lo: int, rt: Rt, f: Frame): Measure
    requires f.fn < |q| == |k.rank|
  {
    Measure(2 * (c.maxInstr - rt.instrCount) + Flag(f), SLOTS - |rt.log|, f.sp - lo,
            c.maxDepth - rt.callDepth - Slack(q, f), RankOf(q, k, f), |f.code|)
  }

  ghost function StateMeasure(c: Setup, q: Program, k: Ranking, s: State): Measure
    requires s.stack != [] && Known(q, s.stack) && |q| == |k.rank|
  {
    FrameMeasure(c, q, k, s.lo, s.rt, s.stack[|s.stack| - 1])
  }

  lemma ChargedIsNotSpent(code: seq<Instr>)
    requires Charged(code)
    ensures !Spent(code)
  {
    if !code[0].SpecLengthHook? {
      ChargedIsNotSpent(code[1..]);
    }
  }

  lemma HookFrame(q: Program, f: Frame)
    requires FrameOk(q, f) && TailGuarded(q, f) && f.code != [] && IsHook(f.code[0])
    ensures var f' := f.(code := f.code[1..]);
            && Slack(q, f') == Slack(q, f) - DepthChange(KindOf(f.code[0]))
            && (if f.code[0].SpecLengthHook? then Flag(f) == 0 && f.code[0].n >= 1 else Flag(f') == Flag(f))
  {
    HookWeight(q, f);
  }

  lemma PlainFrame(q: Program, f: Frame)
    requires FrameOk(q, f) && TailGuarded(q, f) && f.code != [] && !IsHook(f.code[0])
    ensures var f' := f.(code := f.code[1..]);
            Slack(q, f') == Slack(q, f) == 0 && Flag(f') == Flag(f) == 0
  {
    PlainWeight(q, f);
    StepFrameOk(q, f);
    ChargedIsNotSpent(f.code[1..]);
  }

  // ----- Hooks -----

  lemma LogAlignedGrows(c: Setup, s: Rt, a: int, w: Window)
    requires Shape(s) && InRange(s.mem, a, 8) && s.inSpec && !Exempt(c, a)
    ensures var r := LogAligned(c, s, a, w); r.exit == Continues ==> |r.s.log| > |s.log|
  {
    hide Restored, AllRestorable, AddRestart, AddTrace;
  }

  lemma WriteWlGrows(c: Setup, s: Rt, a: int, w: Window)
    requires Shape(s) && Loggable(s.mem, a) && s.inSpec && Apart(c, |s.mem|)
    ensures var r := WriteWl(c, s, a, w); r.exit == Continues ==> |r.s.log| > |s.log|
  {
    hide LogAligned;
    var r := if a % 8 == 0 then Outcome(s, Continues) else LogAligned(c, s, Align(a) + 8, w);
    if a % 8 != 0 {
      LogAlignedFaithful(c, s, Align(a) + 8, w);
    }
    if r.exit == Continues {
      LogAlignedGrows(c, r.s, Align(a), w);
    }
  }

  /** A copy of at least one byte logs at least one word. */
  lemma CopyGrows(c: Setup, s: Rt, a: int, n: int, w: Window)
    requires Shape(s) && s.inSpec && Apart(c, |s.mem|) && n > 0 && RangeLoggable(s.mem, CopyStart(a), a + n)
    ensures var r := HookMemcpy(c, s, a, n, w); r.exit == Continues && s.logEnabled ==> |r.s.log| > |s.log|
  {
    hide WriteWl, Loggable;
    var reg := CopyStart(a);
    WriteWlGrows(c, s, reg, w);
    WriteWlFaithful(c, s, reg, w);
    var r := WriteWl(c, s, reg, w);
    if r.exit == Continues {
      RangeLoggableSameSize(s.mem, r.s.mem, reg, a + n);
      LogRangeFaithful(c, r.s, reg + 8, a + n, w);
    }
  }

  /** How a hook that returns changes the counters and the log. */
  lemma HookCounts(c: Setup, lo: int, rt: Rt, f: Frame, ch: Choice, w: Window)
    requires RuntimeOk(c, rt) && f.code != [] && IsHook(f.code[0]) && EnvOk(EnvOf(lo, f, rt.mem))
    ensures var r := HookOutcome(c, rt, f.code[0], EnvOf(lo, f, rt.mem), ch, w);
            r.exit == Continues ==>
              && r.s.instrCount == rt.instrCount + (if f.code[0].SpecLengthHook? then f.code[0].n else 0)
              && (LogHook(f.code[0]) ==> |r.s.log| > |rt.log|)
  {
    hide Restored, AllRestorable, WriteWl, LogRange, AddRestart, AddTrace, EnvOf, EnvOk;
    var env := EnvOf(lo, f, rt.mem);
    match f.code[0]
    case StoreHook(a) =>
      if Loggable(rt.mem, a(env)) {
        Speculation.WriteWlOnlyLogs(c, rt, a(env), w);
        WriteWlGrows(c, rt, a(env), w);
      }
    case MemcpyHook(a, v) =>
      if RangeLoggable(rt.mem, CopyStart(a(env)), a(env) + |v(env)|) {
        Speculation.LogRangeOnlyLogs(c, rt, CopyStart(a(env)), a(env) + |v(env)|, w);
        if |v(env)| > 0 { CopyGrows(c, rt, a(env), |v(env)|, w); }
      }
    case _ =>
  }

  /** Passing anything but a call, or a hook that is sure to log, keeps the rank. */
  lemma RankPasses(q: Program, k: Ranking, f: Frame, f': Frame)
    requires f.fn < |q| == |k.rank| && f'.fn == f.fn && f.code != [] && f'.code == f.code[1..]
    requires !f.code[0].Call? && !LogHook(f.code[0])
    ensures RankOf(q, k, f') == RankOf(q, k, f)
  {
  }

  lemma HookDescends(c: Setup, q: Program, k: Ranking, s: State, ch: Choice)
    requires MachineInv(c, q, s) && s.status == Running && s.rt.inSpec && AtHook(s) && |k.rank| == |q|
    ensures var s' := ExecHook(c, s, ch);
            s'.rt.inSpec ==>
              && Known(q, s.stack) && s'.stack != [] && Known(q, s'.stack)
              && StateMeasure(c, q, k, s').Below(StateMeasure(c, q, k, s))
  {
    hide HookOutcome, SpecOk, StackOk, FrameOk, TailGuarded, Speculation.Inv, Slack, Flag, RankOf, HookDone, WindowAt,
         EnvOf, EnvOk, LogHook;
    StackFacts(q, s.stack);
    FrameEnvOk(s.lo, |s.rt.mem|, s.stack, s.rt.mem);
    var top := s.stack[|s.stack| - 1];
    var w := WindowAt(s, ch.window);
    var r := HookOutcome(c, s.rt, top.code[0], EnvOf(s.lo, top, s.rt.mem), ch, w);
    if top.code[0].SpecLengthHook? { ChargePositive(q, top); }
    HookOutcomeResult(c, s.lo, s.rt, top, ch, w);
    HookCounts(c, s.lo, s.rt, top, ch, w);
    HookFrame(q, top);
    if r.exit != Continues {
      NotInSpec(s.rt, r, w);
    } else {
      FlagIsBit(top.(code := top.code[1..]));
      if !LogHook(top.code[0]) {
        RankPasses(q, k, top, top.(code := top.code[1..]));
      }
    }
  }

  lemma NotInSpec(rt: Rt, r: Outcome, w: Window)
    requires Shape(rt) && rt.inSpec && Faithful(rt, r, w) && r.exit != Continues
    ensures !r.s.inSpec
  {
  }

  lemma FlagIsBit(f: Frame)
    ensures 0 <= Flag(f) <= 1
  {
  }

  // ----- Plain steps -----

  lemma EntryDescends(c: Setup, q: Program, k: Ranking, lo: int, rt: Rt, f: Frame, args: Locals)
    requires WellHooked(q) && Ranked(q, k, true) && FrameOk(q, f) && TailGuarded(q, f) && Visited(q[f.fn])
    requires f.code != [] && f.code[0].Call? && Callable(q, f.code[0].callee)
    ensures FrameMeasure(c, q, k, lo, rt, EntryFrame(q, f.code[0].callee, args, f.sp))
              .Below(FrameMeasure(c, q, k, lo, rt, f))
  {
    var callee := f.code[0].callee;
    var entry := EntryFrame(q, callee, args, f.sp);
    PlainFrame(q, f);
    EntryFacts(q, callee, args, f.sp);
    EntryFrameOk(q, callee, args, f.sp);
    EntrySlack(q, callee, args, f.sp);
    assert CodeRanked(q, k, callee, q[callee].blocks[0].code, true);
  }

  lemma EntrySlack(q: Program, k: nat, args: Locals, base: int)
    requires WellHooked(q) && Callable(q, k)
    ensures var f := EntryFrame(q, k, args, base); Flag(f) == 0 && Slack(q, f) == if Speculates(q[k]) then 1 else 0
  {
    assert Stage(q[k], true, true, true);
    assert BlockStage(q[k], true, q[k].blocks[0], true, true, true);
    ChargedIsNotSpent(q[k].blocks[0].code);
    EntryFacts(q, k, args, base);
  }

  /** Passing a plain instruction other than a call leaves less code and nothing else to pay. */
  lemma PassDescends(c: Setup, q: Program, k: Ranking, lo: int, rt: Rt, f: Frame, locals: Locals)
    requires f.fn < |q| == |k.rank| && FrameOk(q, f) && TailGuarded(q, f)
    requires f.code != [] && !IsHook(f.code[0]) && !f.code[0].Call?
    ensures var f' := f.(code := f.code[1..], locals := locals);
            FrameMeasure(c, q, k, lo, rt, f').Below(FrameMeasure(c, q, k, lo, rt, f))
  {
    hide FrameOk, TailGuarded, RankOf, Weight, Spent;
    var f' := f.(code := f.code[1..]);
    PlainFrame(q, f);
    LocalsDoNotWeigh(q, f', locals);
    RankPasses(q, k, f, f'.(locals := locals));
  }

  /** The top frame after an instruction that did not crash. */
  function AfterInstr(q: Program, c: Config, r: Config): Frame
    requires c.stack != [] && c.stack[|c.stack| - 1].code != [] && r.stack != []
  {
    var top := c.stack[|c.stack| - 1];
    if top.code[0].Call? && Callable(q, top.code[0].callee)
    then EntryFrame(q, top.code[0].callee, top.code[0].args(EnvOf(c.lo, top, c.mem)), top.sp)
    else top.(code := top.code[1..], locals := r.stack[|r.stack| - 1].locals)
  }

  lemma TopAfterInstr(q: Program, c: Config)
    requires c.stack != [] && c.stack[|c.stack| - 1].code != [] && ExecInstr(q, c).status != Crashed
    ensures var r := ExecInstr(q, c);
            && r.stack != [] && r.stack[|r.stack| - 1] == AfterInstr(q, c, r)
            && (c.stack[|c.stack| - 1].code[0].Call? ==> Callable(q, c.stack[|c.stack| - 1].code[0].callee))
  {
    hide Write, EnvOf, Room, Advance, SetLocals, Callable, EntryFrame;
    TopAdvances(c.stack);
    var top := c.stack[|c.stack| - 1];
    var env := EnvOf(c.lo, top, c.mem);
    match top.code[0]
    case Compute(f) => TopTakesLocals(Advance(c.stack), f(env));
    case Opaque(f, _) => TopTakesLocals(Advance(c.stack), f(env).locals);
    case External(f) => TopTakesLocals(Advance(c.stack), f(env).locals);
    case _ =>
  }

  lemma TopAdvances(stack: seq<Frame>)
    requires stack != [] && stack[|stack| - 1].code != []
    ensures var r, top := Advance(stack), stack[|stack| - 1];
            r != [] && r[|r| - 1] == top.(code := top.code[1..])
  {
  }

  lemma TopTakesLocals(stack: seq<Frame>, locals: Locals)
    requires stack != []
    ensures var r := SetLocals(stack, locals); r != [] && r[|r| - 1] == stack[|stack| - 1].(locals := locals)
  {
  }

  lemma InstrDescends(c: Setup, q: Program, k: Ranking, s: State, r: Config)
    requires s.stack != [] && s.stack[|s.stack| - 1].code != [] && !AtHook(s)
    requires r.stack != [] && r.stack[|r.stack| - 1] == AfterInstr(q, ConfigOf(s), r)
    requires s.stack[|s.stack| - 1].code[0].Call? ==> Callable(q, s.stack[|s.stack| - 1].code[0].callee)
    requires |k.rank| == |q| && Known(q, s.stack) && WellHooked(q) && Ranked(q, k, true)
    requires MachineInv(c, q, s) && s.rt.inSpec
    ensures r.stack[|r.stack| - 1].fn < |q|
    ensures FrameMeasure(c, q, k, s.lo, s.rt, r.stack[|r.stack| - 1]).Below(StateMeasure(c, q, k, s))
  {
    hide SpecOk, StackOk, FrameOk, TailGuarded, Speculation.Inv, WellHooked, Ranked, Stacked, FrameMeasure, EnvOf;
    StackFacts(q, s.stack);
    TopVisited(c, q, s);
    var top := s.stack[|s.stack| - 1];
    if top.code[0].Call? {
      EntryDescends(c, q, k, s.lo, s.rt, top, top.code[0].args(EnvOf(s.lo, top, s.rt.mem)));
    } else {
      PassDescends(c, q, k, s.lo, s.rt, top, r.stack[|r.stack| - 1].locals);
    }
  }

  lemma RankedSize(q: Program, k: Ranking)
    requires Ranked(q, k, true)
    ensures |k.rank| == |q|
  {
  }

  lemma GotoDescends(c: Setup, q: Program, k: Ranking, s: State, b: nat)
    requires WellHooked(q) && MachineInv(c, q, s) && |k.rank| == |q|
    requires var top := s.stack[|s.stack| - 1]; top.code == [] && 0 < b < |q[top.fn].blocks|
    ensures var st := Goto(q, ConfigOf(s), b).stack;
            && Known(q, s.stack) && st != [] && st[|st| - 1].fn < |q|
            && FrameMeasure(c, q, k, s.lo, s.rt, st[|st| - 1]).Below(StateMeasure(c, q, k, s))
  {
    hide SpecOk, StackOk, TailGuarded, Speculation.Inv, RankOf, Slack;
    StackFacts(q, s.stack);
    var top := s.stack[|s.stack| - 1];
    assert Stage(q[top.fn], true, true, true);
    assert BlockStage(q[top.fn], false, q[top.fn].blocks[b], true, true, true);
    ChargedIsNotSpent(q[top.fn].blocks[b].code);
  }

  lemma TermDescends(c: Setup, q: Program, k: Ranking, s: State)
    requires WellHooked(q) && MachineInv(c, q, s) && s.status == Running && s.rt.inSpec && |k.rank| == |q|
    requires s.stack[|s.stack| - 1].code == []
    requires ExecTerm(q, ConfigOf(s), s.rt.swap).status == Running
    ensures var st := ExecTerm(q, ConfigOf(s), s.rt.swap).stack;
            && Known(q, s.stack) && st != [] && st[|st| - 1].fn < |q|
            && FrameMeasure(c, q, k, s.lo, s.rt, st[|st| - 1]).Below(StateMeasure(c, q, k, s))
  {
    hide SpecOk, FrameOk, TailGuarded, WholeGuarded, Speculation.Inv, WellHooked, RankOf, Slack, FrameMeasure, EnvOf;
    StackFacts(q, s.stack);
    var n := |s.stack| - 1;
    var top := s.stack[n];
    var env := EnvOf(s.lo, top, s.rt.mem);
    match top.term
    case Br(cond, yes, no) => GotoDescends(c, q, k, s, if cond(env) then yes else no);
    case SwapBr(cond, yes, no) => GotoDescends(c, q, k, s, if cond(env) != s.rt.swap then yes else no);
    case Jump(b) => GotoDescends(c, q, k, s, b);
    case Ret(v) => ReturnDescends(c, q, k, s, s.stack[n - 1].locals[0 := v(env)]);
  }

  lemma ReturnDescends(c: Setup, q: Program, k: Ranking, s: State, locals: Locals)
    requires MachineInv(c, q, s) && |s.stack| > 1 && s.stack[|s.stack| - 1].code == [] && |k.rank| == |q|
    ensures var f := s.stack[|s.stack| - 2].(locals := locals);
            && Known(q, s.stack) && f.fn < |q|
            && FrameMeasure(c, q, k, s.lo, s.rt, f).Below(StateMeasure(c, q, k, s))
  {
    hide SpecOk, TailGuarded, WholeGuarded, Speculation.Inv, RankOf, Slack;
    StackFacts(q, s.stack);
    ChargedIsNotSpent(s.stack[|s.stack| - 2].code);
  }

  lemma PlainDescends(c: Setup, q: Program, k: Ranking, s: State, w: Window)
    requires |k.rank| == |q| && WellHooked(q) && Ranked(q, k, true)
    requires MachineInv(c, q, s) && s.status == Running && s.rt.inSpec && !AtHook(s)
    ensures var s' := ExecPlain(c, q, s, w);
            s'.rt.inSpec && s'.status == Running ==>
              && Known(q, s.stack) && s'.stack != [] && s'.stack[|s'.stack| - 1].fn < |q|
              && FrameMeasure(c, q, k, s.lo, s'.rt, s'.stack[|s'.stack| - 1]).Below(StateMeasure(c, q, k, s))
  {
    hide SpecOk, StackOk, Speculation.Inv, WellHooked, Ranked, ExecInstr, ExecTerm, Flag, Slack, RankOf, Stacked,
         AfterInstr;
    StackFacts(q, s.stack);
    var r := Exec(q, ConfigOf(s), s.rt.swap);
    if r.status == Crashed {
      assert Restart(c, s.rt, OnPageFault, w).s.inSpec == false;
    } else if s.stack[|s.stack| - 1].code != [] {
      TopAfterInstr(q, ConfigOf(s));
      InstrDescends(c, q, k, s, r);
    } else if r.status == Running {
      TermDescends(c, q, k, s);
    }
  }

  // ----- The measure of a run -----

  /** The code left, hooks included, in the frame the machine would fall back to. */
  function CodeLeft(s: State): nat
    requires Shape(s.rt)
  {
    var st := Resume(s).stack;
    if st == [] then 0 else |st[|st| - 1].code|
  }

  ghost function Inner(c: Setup, q: Program, k: Ranking, s: State): Measure
    requires |k.rank| == |q|
  {
    if s.rt.inSpec && s.stack != [] && s.stack[|s.stack| - 1].fn < |q|
    then FrameMeasure(c, q, k, s.lo, s.rt, s.stack[|s.stack| - 1])
    else Measure(0, 0, 0, 0, 0, 0)
  }

  ghost predicate Descends(c: Setup, q: Program, k: Ranking, s: State, s': State)
    requires Shape(s.rt) && Shape(s'.rt) && |k.rank| == |q|
  {
    || CodeLeft(s') < CodeLeft(s)
    || (CodeLeft(s') == CodeLeft(s) && s.rt.inSpec && !s'.rt.inSpec)
    || (CodeLeft(s') == CodeLeft(s) && s.rt.inSpec && s'.rt.inSpec && Inner(c, q, k, s').Below(Inner(c, q, k, s)))
  }

  lemma SameCodeLeft(s: State, s': State)
    requires Shape(s.rt) && Shape(s'.rt) && Observed(Resume(s')) == Observed(Resume(s))
    ensures CodeLeft(s') == CodeLeft(s)
  {
    assert Resume(s').stack == Resume(s).stack;
  }

  lemma StepKeepsLo(c: Setup, q: Program, s: State, ch: Choice)
    requires Shape(s.rt)
    ensures Proceed(c, q, s, ch).lo == s.lo
  {
    hide Land, Restart, Exec, HookOutcome, WindowAt, Panic, Advance, EnvOf;
    LandKeepsLo(s);
  }

  lemma LandKeepsLo(s: State)
    ensures forall r, next :: Land(s, r, next).lo == s.lo
  {
  }

  lemma InsideDescends(c: Setup, q: Program, k: Ranking, s: State, ch: Choice)
    requires |k.rank| == |q| && WellHooked(q) && Ranked(q, k, true)
    requires MachineInv(c, q, s) && s.status == Running && s.rt.inSpec
    ensures var s' := Proceed(c, q, s, ch);
            s'.status == Running ==> Descends(c, q, k, s, s')
  {
    hide WellHooked, Ranked, StackOk, SpecOk, FrameMeasure, Resume, ExecHook, ExecPlain, WindowAt, Stacked;
    InsideStep(c, q, s, ch);
    SameCodeLeft(s, Proceed(c, q, s, ch));
    StackFacts(q, s.stack);
    StepKeepsLo(c, q, s, ch);
    if ch.irq.Some? {
      assert !Restart(c, s.rt, RestartOf(ch.irq.value), WindowAt(s, ch.window)).s.inSpec;
    } else if AtHook(s) {
      HookDescends(c, q, k, s, ch);
    } else {
      PlainDescends(c, q, k, s, WindowAt(s, ch.window));
    }
  }

  lemma HookOutsideDescends(c: Setup, q: Program, s: State, ch: Choice)
    requires MachineInv(c, q, s) && s.status == Running && !s.rt.inSpec && AtHook(s)
    ensures CodeLeft(ExecHook(c, s, ch)) < CodeLeft(s)
  {
    hide StackOk, HookOutcome, Replay, WindowAt, Write;
    var top := s.stack[|s.stack| - 1];
    HookOutsideReturns(c, s.rt, top.code[0], EnvOf(s.lo, top, s.rt.mem), ch, WindowAt(s, ch.window));
  }

  lemma HookOutsideReturns(c: Setup, rt: Rt, i: Instr, env: Env, ch: Choice, w: Window)
    requires Shape(rt) && !rt.inSpec && !rt.logEnabled && IsHook(i) && 0 <= env.sp <= env.base <= |rt.mem|
    ensures var r := HookOutcome(c, rt, i, env, ch, w);
            r.exit == Continues && r.s.inSpec == (i.CheckpointHook? && TakesCheckpoint(rt, ch.admitted))
  {
  }

  /** Every step that does not commit comes closer to one that does. */
  lemma StepDescends(c: Setup, q: Program, k: Ranking, s: State, ch: Choice)
    requires |k.rank| == |q| && WellHooked(q) && Ranked(q, k, true) && MachineInv(c, q, s)
    requires s.status == Running && !Commits(c, s, ch)
    ensures var s' := Step(c, q, s, ch); s'.status == Running ==> Descends(c, q, k, s, s')
  {
    hide WellHooked, Ranked, StackOk, SpecOk, Speculation.Inv, Resume, Proceed, Stacked, Scribble, AfterAssert,
         CodeLeft, Inner, Observed;
    var s0 := Scribble(s, ch);
    ScribbleStep(c, q, s, ch);
    SameCodeLeft(s, s0);
    var s1 := AfterAssert(c, s0, ch);
    AssertStep(c, q, s0, ch);
    SameCodeLeft(s0, s1);
    if s1.status == Running {
      if s1.rt.inSpec {
        SameInner(c, q, k, s, s0);
        AssertKeepsMeasure(c, q, k, s0, ch);
        InsideDescends(c, q, k, s1, ch);
      } else {
        HookOutsideDescends(c, q, s1, ch);
        assert Proceed(c, q, s1, ch) == ExecHook(c, s1, ch) by { ProceedAtHook(c, q, s1, ch); }
      }
    }
  }

  lemma ProceedAtHook(c: Setup, q: Program, s: State, ch: Choice)
    requires Shape(s.rt) && !s.rt.inSpec && AtHook(s)
    ensures Proceed(c, q, s, ch) == ExecHook(c, s, ch)
  {
  }

  lemma SameInner(c: Setup, q: Program, k: Ranking, s: State, s': State)
    requires |k.rank| == |q| && s' == s.(rt := s.rt.(mem := s'.rt.mem))
    ensures Inner(c, q, k, s') == Inner(c, q, k, s)
  {
  }

  lemma AssertKeepsMeasure(c: Setup, q: Program, k: Ranking, s: State, ch: Choice)
    requires Shape(s.rt) && s.status == Running && |k.rank| == |q| && s.rt.inSpec
    ensures var s1 := AfterAssert(c, s, ch); s1.status == Running ==> Inner(c, q, k, s1) == Inner(c, q, k, s)
  {
    hide WindowAt, Restored, AllRestorable;
  }

  // ----- Termination -----

  /** `j` steps with the choices from index `i` on. */
  function RunFrom(c: Setup, q: Program, s: State, chs: nat -> Choice, i: nat, j: nat): State
    requires Shape(s.rt)
    decreases j
  {
    if j == 0 then s else RunFrom(c, q, Step(c, q, s, chs(i)), chs, i + 1, j - 1)
  }

  /** The machine comes to a stop under an endless sequence of choices. */
  ghost predicate RunStops(c: Setup, q: Program, j: Job, chs: nat -> Choice)
    requires Ready(q, j)
  {
    exists n :: RunFrom(c, q, Boot(q, j), chs, 0, n).status != Running
  }

  lemma {:induction false} IterateShift(p: Program, o: Config, n: nat)
    ensures Iterate(p, Exec(p, o, false), n) == Iterate(p, o, n + 1)
  {
    if n > 0 {
      IterateShift(p, o, n - 1);
    }
  }

  lemma InnerBounded(c: Setup, q: Program, k: Ranking, s: State)
    requires MachineInv(c, q, s) && |k.rank| == |q| && s.status == Running
    ensures Inner(c, q, k, s).Bounded()
  {
    hide StackOk, SpecOk, Spent;
  }

  /** The original program at `o`, which stops within `n` steps, is behind the machine. */
  ghost predicate Good(c: Setup, p: Program, q: Program, k: Ranking, s: State, o: Config, n: nat) {
    && |k.rank| == |q| && WellHooked(q) && Ranked(q, k, true) && MachineInv(c, q, s)
    && Behind(p, q, s, o) && Iterate(p, o, n).status != Running
  }

  /** A step stops the machine, or takes a step of the program behind it, or comes closer to one of these. */
  lemma StepOnce(c: Setup, p: Program, q: Program, k: Ranking, s: State, o: Config, ch: Choice, n: nat)
    returns (o': Config)
    requires Good(c, p, q, k, s, o, n) && s.status == Running
    ensures var s' := Step(c, q, s, ch);
            || s'.status != Running
            || (n > 0 && Good(c, p, q, k, s', o', n - 1))
            || (Good(c, p, q, k, s', o', n) && Descends(c, q, k, s, s') && Inner(c, q, k, s).Bounded())
  {
    hide WellHooked, Ranked, StackOk, SpecOk, Speculation.Inv, Step, Inner, Commits, Descends, Behind, Stacked, Exec;
    var s' := Step(c, q, s, ch);
    StepBehind(c, p, q, s, o, ch);
    InnerBounded(c, q, k, s);
    if Commits(c, s, ch) {
      o' := Exec(p, o, false);
      if n > 0 {
        IterateShift(p, o, n - 1);
      } else {
        NotStopped(p, q, s, o);
      }
    } else {
      o' := o;
      StepDescends(c, q, k, s, ch);
    }
  }

  /** Whatever the choices, the machine stops if the program behind it does. */
  lemma {:induction false} Stops(
    c: Setup, p: Program, q: Program, k: Ranking, s: State, o: Config, chs: nat -> Choice, i: nat, n: nat)
    returns (j: nat)
    requires |k.rank| == |q| && Shape(s.rt) && Good(c, p, q, k, s, o, n)
    ensures RunFrom(c, q, s, chs, i, j).status != Running
    decreases n, CodeLeft(s), if s.rt.inSpec then 1 else 0,
      Inner(c, q, k, s).budget, Inner(c, q, k, s).log, Inner(c, q, k, s).stack, Inner(c, q, k, s).depth,
      Inner(c, q, k, s).rank, Inner(c, q, k, s).code
  {
    hide Good, Step, Inner, CodeLeft;
    if s.status != Running {
      return 0;
    }
    var s' := Step(c, q, s, chs(i));
    var o' := StepOnce(c, p, q, k, s, o, chs(i), n);
    var rest: nat := 0;
    if s'.status == Running {
      if n > 0 && Good(c, p, q, k, s', o', n - 1) {
        rest := Stops(c, p, q, k, s', o', chs, i + 1, n - 1);
      } else {
        rest := Stops(c, p, q, k, s', o', chs, i + 1, n);
      }
    }
    j := rest + 1;
  }

  lemma NotStopped(p: Program, q: Program, s: State, o: Config)
    requires Shape(s.rt) && s.status == Running && Behind(p, q, s, o)
    ensures o.status == Running
  {
    assert EraseConfig(Resume(s)).status == Running;
  }

  // ----- Ranks in the source -----

  /** If every write has its hook right before it, a call before any such hook is before any such write. */
  lemma {:induction false} FirstCallErased(prev: Option<Instr>, code: seq<Instr>, nospec: bool)
    requires Guarded(prev, code, nospec) && (prev.Some? ==> !LogHook(prev.value)) && FirstCall(code, true).Some?
    ensures FirstCall(EraseCode(code), false) == FirstCall(code, true)
    decreases |code|
  {
    if !code[0].Call? {
      FirstCallErased(Some(code[0]), code[1..], nospec);
      if !IsHook(code[0]) {
        assert EraseCode(code)[1..] == EraseCode(code[1..]);
      }
    }
  }

  lemma EntryRanked(order: seq<Pass>, p: Program, k: Ranking, fn: nat)
    requires Order(order) && SourceProgram(p) && Ranked(p, k, false)
    requires var q := Instrument(order, p); fn < |q| && q[fn].blocks != []
    ensures var q := Instrument(order, p); CodeRanked(q, k, fn, q[fn].blocks[0].code, true)
  {
    hide FirstCall, Free;
    var q := Instrument(order, p);
    InstrumentIsWellHooked(order, p);
    InstrumentErases(order, p);
    assert Erase(q)[fn] == EraseFunction(q[fn]);
    var code := q[fn].blocks[0].code;
    if Uncounted(q[fn]) && FirstCall(code, true).Some? && Free(q, FirstCall(code, true).value) {
      assert Stage(q[fn], true, true, true);
      assert BlockStage(q[fn], true, q[fn].blocks[0], true, true, true);
      FirstCallErased(None, code, NoSpec in q[fn].cats);
      assert EraseFunction(q[fn]).blocks[0].code == EraseCode(code);
      SameFree(order, p, FirstCall(code, true).value);
      assert CodeRanked(p, k, fn, p[fn].blocks[0].code, false);
    }
  }

  lemma SameFree(order: seq<Pass>, p: Program, k: nat)
    requires SourceProgram(p)
    ensures Free(Instrument(order, p), k) <==> Free(p, k)
  {
    var q := Instrument(order, p);
    InstrumentErases(order, p);
    if k < |p| {
      assert Erase(q)[k] == EraseFunction(q[k]);
    }
  }

  lemma RankedAfterInstrument(order: seq<Pass>, p: Program, k: Ranking)
    requires Order(order) && SourceProgram(p) && Ranked(p, k, false)
    ensures Ranked(Instrument(order, p), k, true)
  {
    hide CodeRanked, SourceProgram;
    var q := Instrument(order, p);
    forall fn | 0 <= fn < |q| && q[fn].blocks != [] ensures CodeRanked(q, k, fn, q[fn].blocks[0].code, true) {
      EntryRanked(order, p, k, fn);
    }
  }

  /**
    * Progress. If the original program stops, then so does the instrumented one, under every endless
    * sequence of choices, although each branch may start a speculation down a path the original never takes.
    */
  lemma StillTerminates(c: Setup, order: seq<Pass>, p: Program, k: Ranking, j: Job, chs: nat -> Choice, n: nat)
    requires Order(order) && SourceProgram(p) && Ranked(p, k, false) && Ready(p, j)
    requires Speculation.SetupOk(c) && Apart(c, |j.mem|)
    requires Iterate(p, Start(p, j), n).status != Running
    ensures var q := Instrument(order, p); Ready(q, j) && RunStops(c, q, j, chs)
  {
    hide WellHooked, Ranked, MachineInv, RunFrom, Iterate, Resume, Behind, Apart;
    var q := Instrument(order, p);
    BootBehind(c, order, p, j);
    RankedAfterInstrument(order, p, k);
    RankedSize(q, k);
    var steps := Stops(c, p, q, k, Boot(q, j), Start(p, j), chs, 0, n);
  }

  /** Every function takes some stack, as its return address does. */
  predicate TakesStack(p: Program) {
    forall k :: 0 <= k < |p| ==> StackSize(p[k]) > 0
  }

  /** Where a call takes some stack no ranks are needed: a circle of calls runs out of it, and rolls back. */
  lemma StackSuffices(c: Setup, order: seq<Pass>, p: Program, j: Job, chs: nat -> Choice, n: nat)
    requires Order(order) && SourceProgram(p) && TakesStack(p) && Ready(p, j)
    requires Speculation.SetupOk(c) && Apart(c, |j.mem|)
    requires Iterate(p, Start(p, j), n).status != Running
    ensures var q := Instrument(order, p); Ready(q, j) && RunStops(c, q, j, chs)
  {
    var k := Ranking(seq(|p|, _ => 0), 1);
    assert Ranked(p, k, false) by { hide FirstCall, Uncounted; }
    StillTerminates(c, order, p, k, j, chs, n);
  }
}
