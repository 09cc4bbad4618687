/**
  * Why source programs must keep harmful operations out of where the passes put no hook, and why that
  * is all: for every operation there is a program that would run it unhooked, and a run of that program
  * that is transparent exactly if the operation keeps to the stack of its function. There are two such
  * places: an external call anywhere, and an opaque operation in a function on the no-speculation list.
  */
module Unguarded {
  import opened Bytes
  import opened Runtime
  import opened Ir
  import opened Passes
  import opened Placement
  import opened Machine
  import opened Transparency
  import opened Detour

  /** How the operation comes to stand unhooked. */
  datatype Place = OpaqueNoSpec(asm: bool) | ExternalNoSpec | ExternalOrdinary {
    function Op(f: Env -> Env): Instr {
      match this
      case OpaqueNoSpec(asm) => Opaque(f, asm)
      case _ => External(f)
    }

    function Cats(): set<Category> {
      if ExternalOrdinary? then {} else {NoSpec}
    }
  }

  function AtSp(env: Env): int { env.sp }

  function Filling(bytes: seq<Byte>): Env -> seq<Byte> { (env: Env) => bytes }

  /** The helper fills its frame, as the compiler does, and runs the operation. */
  function HelperCode(at: Place, f: Env -> Env, image: seq<Byte>): seq<Instr> {
    [Spill(AtSp, Filling(image)), at.Op(f)]
  }

  function HelperFn(at: Place, f: Env -> Env, image: seq<Byte>): Function {
    Function(at.Cats(), [Block(HelperCode(at, f, image), Ret(Nothing))], |image|, 0)
  }

  function Caller(at: Place, f: Env -> Env, image: seq<Byte>, l: Locals): Program {
    [MainFn(1, l), HelperFn(at, f, image)]
  }

  function Tail(at: Place): seq<Instr> {
    if at.ExternalOrdinary? then [RestartHook(OnReturn), SpecLengthHook(5)] else [SpecLengthHook(3)]
  }

  function HookedHelper(at: Place, f: Env -> Env, image: seq<Byte>): Function {
    var entry := if at.ExternalOrdinary? then [CallDepthHook] else [];
    Function(at.Cats(), [Block(entry + HelperCode(at, f, image) + Tail(at), Ret(Nothing))], |image|, 0)
  }

  lemma HookHelperCode(at: Place, f: Env -> Env, image: seq<Byte>)
    ensures !at.ExternalOrdinary? ==> HookCode(HelperCode(at, f, image), true) == HelperCode(at, f, image)
    ensures at.ExternalOrdinary? ==>
              HookCode([CallDepthHook] + HelperCode(at, f, image), false) == [CallDepthHook] + HelperCode(at, f, image)
  {
    var code, op, nospec := HelperCode(at, f, image), at.Op(f), !at.ExternalOrdinary?;
    assert code[1..] == [op] && [op][1..] == [];
    assert HookFor(op, nospec) == [] && HookFor(code[0], nospec) == [];
    assert HookCode([op], nospec) == [] + [op] + [];
    assert HookCode(code, nospec) == [] + [code[0]] + [op];
    if at.ExternalOrdinary? {
      assert ([CallDepthHook] + code)[1..] == code;
    }
  }

  lemma HookHelper(at: Place, f: Env -> Env, image: seq<Byte>)
    ensures ApplyAll(ORDER, HelperFn(at, f, image)) == HookedHelper(at, f, image)
  {
    var g := HelperFn(at, f, image);
    var code := HelperCode(at, f, image);
    HookHelperCode(at, f, image);
    var f1 := SpecPass(g);
    var f2 := RestartPass(f1);
    var f3 := LengthPass(f2);
    if at.ExternalOrdinary? {
      assert f1.blocks[0].code == [CallDepthHook] + code;
      assert f2.blocks[0].code == [CallDepthHook] + code + [RestartHook(OnReturn)];
      assert f3.blocks[0].code == [CallDepthHook] + code + [RestartHook(OnReturn)] + [SpecLengthHook(5)];
      assert f3.blocks[0].code == [CallDepthHook] + code + Tail(at);
    } else {
      assert f2.blocks[0].code == code;
      assert f3.blocks[0].code == code + [SpecLengthHook(3)];
      assert [] + code + Tail(at) == code + [SpecLengthHook(3)];
    }
    assert f3.blocks[0] == HookedHelper(at, f, image).blocks[0];
    assert f3.blocks == HookedHelper(at, f, image).blocks;
    InOrder(g);
  }

  function Hooked(at: Place, f: Env -> Env, image: seq<Byte>, l: Locals): Program {
    [HookedMain(1, l), HookedHelper(at, f, image)]
  }

  lemma HookCaller(at: Place, f: Env -> Env, image: seq<Byte>, l: Locals)
    ensures Instrument(ORDER, Caller(at, f, image, l)) == Hooked(at, f, image, l)
  {
    HookMain(1, l);
    HookHelper(at, f, image);
  }

  // ----- The run -----

  /** An operation, where it stands, and what it finds. */
  datatype Case = Case(at: Place, f: Env -> Env, env: Env) {
    predicate Ok() {
      EnvOk(env) && |After().mem| == |env.mem|
    }

    function After(): Env {
      f(env)
    }

    function Image(): seq<Byte>
      requires EnvOk(env)
    {
      env.mem[env.sp..env.base]
    }

    function Plan(): Plan {
      Detour.Plan(1, env.locals, env.mem, env.lo, env.base)
    }

    function Source(): Program
      requires EnvOk(env)
    {
      Caller(at, f, Image(), env.locals)
    }

    function Program(): Program
      requires EnvOk(env)
    {
      Hooked(at, f, Image(), env.locals)
    }

    /** The stack in speculation, with the given code left in the helper. */
    function Inside(code: seq<Instr>, locals: Locals): seq<Frame> {
      [MainFrame(Plan(), Wrong(1, env.locals)[1..], 2, map[]), Frame(1, code, Ret(Nothing), locals, env.sp, env.base)]
    }
  }

  /** In speculation, with the given code left in the helper, at the given depth. */
  ghost predicate In(k: Case, s: State, code: seq<Instr>, locals: Locals, count: int, depth: int, m: Mem) {
    Is(k.Plan(), s, k.Inside(code, locals), true, false, count, m) && s.rt.callDepth == depth
  }

  function Rest(k: Case): seq<Instr>
    requires EnvOk(k.env)
  {
    HelperCode(k.at, k.f, k.Image()) + Tail(k.at)
  }

  function Depth(k: Case): int {
    if k.at.ExternalOrdinary? then 1 else 0
  }

  lemma StepEntryHook(k: Case, s: State, m: Mem)
    requires k.Ok() && k.at.ExternalOrdinary? && In(k, s, [CallDepthHook] + Rest(k), k.env.locals, 3, 0, m)
    ensures In(k, Next(k.Program(), s), Rest(k), k.env.locals, 3, 1, m)
  {
    hide Rest;
    assert AtHook(s);
    assert ([CallDepthHook] + Rest(k))[1..] == Rest(k);
  }

  /** The frame is filled, and memory is what the operation is to find. */
  lemma StepSpill(k: Case, s: State)
    requires k.Ok() && In(k, s, Rest(k), k.env.locals, 3, Depth(k), Entered(k.Plan(), k.env.base - k.env.sp))
    ensures In(k, Next(k.Program(), s), [k.at.Op(k.f)] + Tail(k.at), k.env.locals, 3, Depth(k), k.env.mem)
  {
    var m := Entered(k.Plan(), k.env.base - k.env.sp);
    assert Write(m, k.env.sp, k.Image()) == k.env.mem;
    hide Write, EnvOf, Tail, Entered;
    assert Rest(k)[0] == Spill(AtSp, Filling(k.Image()));
    assert Rest(k)[1..] == [k.at.Op(k.f)] + Tail(k.at);
    assert !AtHook(s);
    assert AtSp(EnvOf(s.lo, s.stack[1], m)) == k.env.sp by { SpIs(s.lo, s.stack[1], m); }
  }

  lemma SpIs(lo: int, f: Frame, m: Mem)
    ensures AtSp(EnvOf(lo, f, m)) == f.sp
  {
  }

  /** The operation runs in speculation: no hook stands before it and nothing was logged. */
  lemma StepOp(k: Case, s: State)
    requires k.Ok() && In(k, s, [k.at.Op(k.f)] + Tail(k.at), k.env.locals, 3, Depth(k), k.env.mem)
    ensures In(k, Next(k.Program(), s), Tail(k.at), k.After().locals, 3, Depth(k), k.After().mem)
  {
    assert Live(k.env.mem, k.env.lo, k.env.sp) == k.env.mem;
    assert EnvOf(s.lo, s.stack[1], s.rt.mem) == k.env;
    hide EnvOf, Tail;
    assert ([k.at.Op(k.f)] + Tail(k.at))[1..] == Tail(k.at);
    assert !AtHook(s);
  }

  lemma StepReturnHook(k: Case, s: State, m: Mem, l: Locals)
    requires k.Ok() && k.at.ExternalOrdinary? && In(k, s, Tail(k.at), l, 3, 1, m)
    ensures In(k, Next(k.Program(), s), Tail(k.at)[1..], l, 3, 0, m)
  {
    assert AtHook(s);
  }

  lemma StepHelperLength(k: Case, s: State, n: int, m: Mem, l: Locals)
    requires k.Ok() && 0 <= n <= 5 && In(k, s, [SpecLengthHook(n)], l, 3, 0, m)
    ensures In(k, Next(k.Program(), s), [], l, 3 + n, 0, m)
  {
    assert AtHook(s);
    assert [SpecLengthHook(n)][1..] == [];
  }

  lemma StepHelperReturn(k: Case, s: State, n: int, m: Mem, l: Locals)
    requires k.Ok() && In(k, s, [], l, n, 0, m)
    ensures var s' := Next(k.Program(), s);
            && Is(k.Plan(), s', [MainFrame(k.Plan(), Wrong(1, k.env.locals)[1..], 2, map[0 := 0])], true, false, n, m)
            && s'.rt.callDepth == 0
  {
    assert !AtHook(s);
  }

  lemma StepRollback(k: Case, s: State, n: int, m: Mem)
    requires k.Ok() && s.rt.callDepth == 0
    requires Is(k.Plan(), s, [MainFrame(k.Plan(), Wrong(1, k.env.locals)[1..], 2, map[0 := 0])], true, false, n, m)
    ensures Is(k.Plan(), Next(k.Program(), s), [BranchFrame(k.Plan())], false, false, 0, m)
  {
    assert AtHook(s);
    assert Wrong(1, k.env.locals)[1..][0] == RestartHook(OnReturn);
  }

  /** The run: `n` steps of the instrumented program, all with the same choice. */
  ghost function At(k: Case, n: nat): (s: State)
    requires k.Ok()
    ensures Shape(s.rt) && |s.rt.mem| == |k.env.mem|
  {
    Run(SetupAbove(|k.env.mem|), k.Program(), Boot(k.Program(), k.Plan().Job()), seq(n, _ => CHOICE))
  }

  lemma AtNext(k: Case, n: nat)
    requires k.Ok()
    ensures At(k, n + 1) == Next(k.Program(), At(k, n))
  {
    var chs := seq(n + 1, _ => CHOICE);
    assert chs[..n] == seq(n, _ => CHOICE);
  }

  lemma AtFive(k: Case)
    requires k.Ok()
    ensures At(k, 5) == Five(k.Program(), Boot(k.Program(), k.Plan().Job()))
  {
    assert At(k, 0) == Boot(k.Program(), k.Plan().Job());
    hide At, Next, Boot;
    AtNext(k, 0);
    AtNext(k, 1);
    AtNext(k, 2);
    AtNext(k, 3);
    AtNext(k, 4);
  }

  lemma InHelper(k: Case)
    requires k.Ok()
    ensures In(k, At(k, 5), if k.at.ExternalOrdinary? then [CallDepthHook] + Rest(k) else Rest(k), k.env.locals, 3, 0,
               Entered(k.Plan(), k.env.base - k.env.sp))
  {
    hide At, Next, Is, Boot, Five, Entered, Rest, HelperCode, HookedHelper, HookedMain, Wrong, EntryFrame, StackSize,
         Callable;
    AtFive(k);
    HelperBlock(k);
    IntoTheCall(k.Plan(), k.Program());
  }

  lemma HelperBlock(k: Case)
    requires k.Ok()
    ensures var q := k.Program();
            var code := if k.at.ExternalOrdinary? then [CallDepthHook] + Rest(k) else Rest(k);
            && |q| == 2 && q[0] == HookedMain(1, k.env.locals) && Callable(q, 1)
            && StackSize(q[1]) == k.env.base - k.env.sp
            && EntryFrame(q, 1, k.env.locals, k.env.base)
               == Frame(1, code, Ret(Nothing), k.env.locals, k.env.sp, k.env.base)
  {
    hide HelperCode, Tail;
    var helper := HelperCode(k.at, k.f, k.Image());
    if k.at.ExternalOrdinary? {
      assert [CallDepthHook] + helper + Tail(k.at) == [CallDepthHook] + Rest(k);
    } else {
      assert [] + helper + Tail(k.at) == Rest(k);
    }
  }

  /** When the helper has returned and the speculation is over, memory is what the operation made of it. */
  function Steps(k: Case): nat {
    if k.at.ExternalOrdinary? then 12 else 10
  }

  lemma AtEnd(k: Case)
    requires k.Ok()
    ensures Is(k.Plan(), At(k, Steps(k)), [BranchFrame(k.Plan())], false, false, 0, k.After().mem)
  {
    hide Next, At, Is, Rest, Entered;
    InHelper(k);
    var m, l := k.After().mem, k.After().locals;
    if k.at.ExternalOrdinary? {
      AtNext(k, 5); StepEntryHook(k, At(k, 5), Entered(k.Plan(), k.env.base - k.env.sp));
      AtNext(k, 6); StepSpill(k, At(k, 6));
      AtNext(k, 7); StepOp(k, At(k, 7));
      AtNext(k, 8); StepReturnHook(k, At(k, 8), m, l);
      AtNext(k, 9); StepHelperLength(k, At(k, 9), 5, m, l);
      AtNext(k, 10); StepHelperReturn(k, At(k, 10), 8, m, l);
      AtNext(k, 11); StepRollback(k, At(k, 11), 8, m);
    } else {
      AtNext(k, 5); StepSpill(k, At(k, 5));
      AtNext(k, 6); StepOp(k, At(k, 6));
      AtNext(k, 7); StepHelperLength(k, At(k, 7), 3, m, l);
      AtNext(k, 8); StepHelperReturn(k, At(k, 8), 6, m, l);
      AtNext(k, 9); StepRollback(k, At(k, 9), 6, m);
    }
  }

  // ----- When it is seen -----

  lemma CallerReady(at: Place, f: Env -> Env, image: seq<Byte>, plan: Plan)
    requires plan.Fits() && plan.callee == 1
    ensures Ready(Caller(at, f, image, plan.l), plan.Job())
  {
  }

  /** All runs of the callers, with any frame, locals, memory, stack and choices. */
  ghost predicate CallerTransparent(at: Place, f: Env -> Env) {
    forall image: seq<Byte>, plan: Plan, chs: seq<Choice> :: RunOk(at, f, image, plan, chs)
  }

  ghost predicate RunOk(at: Place, f: Env -> Env, image: seq<Byte>, plan: Plan, chs: seq<Choice>) {
    plan.Fits() && plan.callee == 1 ==>
      && Ready(Caller(at, f, image, plan.l), plan.Job())
      && TransparentRun(SetupAbove(|plan.mem|), ORDER, Caller(at, f, image, plan.l), plan.Job(), chs)
  }

  lemma HarmfulIsSeen(k: Case)
    requires k.Ok() && !KeepsOutside(k.f, k.env)
    ensures Ready(k.Source(), k.Plan().Job())
    ensures !TransparentRun(SetupAbove(|k.env.mem|), ORDER, k.Source(), k.Plan().Job(), seq(Steps(k), _ => CHOICE))
  {
    hide Run, Iterate, Committed, HelperFn, HookedHelper;
    var p, q, plan := k.Source(), k.Program(), k.Plan();
    HookCaller(k.at, k.f, k.Image(), k.env.locals);
    AtEnd(k);
    var n := Committed(SetupAbove(|k.env.mem|), q, Boot(q, plan.Job()), seq(Steps(k), _ => CHOICE));
    OriginalReturns(p, plan, n);
    var i :| 0 <= i < |k.env.mem| && !(k.env.lo <= i < k.env.base) && k.f(k.env).mem[i] != k.env.mem[i];
    var s, o := At(k, Steps(k)), Iterate(p, Start(p, plan.Job()), n);
    assert EraseConfig(Resume(s)).mem[i] == k.After().mem[i];
    assert Observed(o).mem[i] == k.env.mem[i];
  }

  lemma CallerIsSource(at: Place, f: Env -> Env, image: seq<Byte>, l: Locals)
    requires Harmless(f)
    ensures SourceProgram(Caller(at, f, image, l))
  {
    hide Harmless;
    var p := Caller(at, f, image, l);
    assert PlainFunction(MainFn(1, l)) && Tame(MainFn(1, l));
    assert PlainFunction(HelperFn(at, f, image)) && Tame(HelperFn(at, f, image));
  }

  /**
    * An operation may stand unhooked, wherever the passes leave it so, exactly if it never changes
    * anything outside the stack of its function: then every run of the callers is transparent, and
    * otherwise one of them ends a speculation with a memory that the original program never has.
    */
  lemma TransparentIffHarmless(at: Place, f: Env -> Env)
    ensures CallerTransparent(at, f) <==> Harmless(f)
  {
    hide Caller, TransparentRun, Ready;
    if Harmless(f) {
      forall image: seq<Byte>, plan: Plan, chs: seq<Choice> ensures RunOk(at, f, image, plan, chs) {
        HarmlessRun(at, f, image, plan, chs);
      }
    } else {
      var env :| EnvOk(env) && |f(env).mem| == |env.mem| && !KeepsOutside(f, env);
      var k := Case(at, f, env);
      HarmfulIsSeen(k);
      assert !RunOk(at, f, k.Image(), k.Plan(), seq(Steps(k), _ => CHOICE));
    }
  }

  lemma HarmlessRun(at: Place, f: Env -> Env, image: seq<Byte>, plan: Plan, chs: seq<Choice>)
    requires Harmless(f)
    ensures RunOk(at, f, image, plan, chs)
  {
    hide Caller, TransparentRun, Ready, Harmless;
    if plan.Fits() && plan.callee == 1 {
      CallerIsSource(at, f, image, plan.l);
      CallerReady(at, f, image, plan);
      Transparent(SetupAbove(|plan.mem|), ORDER, Caller(at, f, image, plan.l), plan.Job(), chs);
    }
  }
}
