/** Where the hooks stand once the three passes have run, in whichever order. */
module Placement {
  import opened Options
  import opened Runtime
  import opened Ir
  import opened Passes

  /** An environment that can come up: a frame on the stack, and nothing known of the stack below it. */
  predicate EnvOk(env: Env) {
    && 0 <= env.lo <= env.sp <= env.base <= |env.mem|
    && forall i :: env.lo <= i < env.sp ==> env.mem[i] == 0
  }

  /** The operation leaves memory alone but for the frame of its function and the unused stack below. */
  ghost predicate KeepsOutside(f: Env -> Env, env: Env)
    requires |f(env).mem| == |env.mem|
  {
    forall i :: 0 <= i < |env.mem| && !(env.lo <= i < env.base) ==> f(env).mem[i] == env.mem[i]
  }

  /** An operation that never changes anything outside the stack it owns, nor anything where it cannot run. */
  ghost predicate Harmless(f: Env -> Env) {
    forall env :: EnvOk(env) && |f(env).mem| == |env.mem| ==> KeepsOutside(f, env)
  }

  /** Whether `i` may follow `prev`: a store, copy or opaque operation needs its own hook right before it. */
  ghost predicate GuardOk(prev: Option<Instr>, i: Instr, nospec: bool) {
    match i
    case Store(a, _) => prev == Some(StoreHook(a))
    case Copy(a, v) => prev == Some(MemcpyHook(a, v))
    case Opaque(f, asm) =>
      if nospec then Harmless(f) else prev == Some(RestartHook(if asm then OnInlineAsm else OnCallUndefined))
    case External(f) => Harmless(f)
    case _ => true
  }

  ghost predicate Guarded(prev: Option<Instr>, code: seq<Instr>, nospec: bool)
    decreases |code|
  {
    code == [] || (GuardOk(prev, code[0], nospec) && Guarded(Some(code[0]), code[1..], nospec))
  }

  /** The block has been charged already, and nothing but hooks is left of it. */
  predicate Spent(code: seq<Instr>) {
    Count(code, Plain) == 0 && Count(code, KLength) == 0
  }

  /** The block will be charged once, with at least one, after its last plain instruction. */
  predicate Charged(code: seq<Instr>) {
    code != [] &&
    if code[0].SpecLengthHook? then code[0].n >= 1 && Spent(code[1..]) else Charged(code[1..])
  }

  /** Once an instruction of kind `k` is reached, only hooks follow. */
  predicate TailOnly(code: seq<Instr>, k: Kind) {
    code == [] || ((KindOf(code[0]) == k ==> Count(code[1..], Plain) == 0) && TailOnly(code[1..], k))
  }

  /** The state of one block when the passes named by the three flags have run. */
  ghost predicate BlockStage(f: Function, entry: bool, b: Block, spec: bool, restart: bool, length: bool) {
    var on := spec && Speculates(f);
    && Count(b.code, KDepth) == (if on && entry then 1 else 0)
    && (on && entry ==> b.code[0].CallDepthHook?)
    && (if on then !b.term.Br? else !b.term.SwapBr?)
    && Count(b.code, KCheckpoint) == (if b.term.SwapBr? then 1 else 0)
    && Count(b.code, KReturn) == (if restart && Speculates(f) && b.term.Ret? then 1 else 0)
    && TailOnly(b.code, KCheckpoint) && TailOnly(b.code, KReturn)
    && (restart && Visited(f) ==> Guarded(None, b.code, NoSpec in f.cats))
    && (restart && Blacklist in f.cats && entry ==> b.code != [] && b.code[0] == RestartHook(OnBlacklist))
    && (if length then Charged(b.code) else Count(b.code, KLength) == 0)
  }

  ghost predicate Stage(f: Function, spec: bool, restart: bool, length: bool) {
    forall j :: 0 <= j < |f.blocks| ==> BlockStage(f, j == 0, f.blocks[j], spec, restart, length)
  }

  ghost predicate WellHooked(q: Program) {
    forall k :: 0 <= k < |q| ==> Stage(q[k], true, true, true)
  }

  /** The restart pass puts no hook before these operations. */
  predicate Unhooked(i: Instr, nospec: bool) {
    i.External? || (i.Opaque? && nospec)
  }

  ghost predicate AllHarmless(code: seq<Instr>, nospec: bool) {
    forall k :: 0 <= k < |code| && Unhooked(code[k], nospec) ==> Harmless(code[k].effect)
  }

  /** All operations that get no hook are harmless. */
  ghost predicate Tame(f: Function) {
    Visited(f) ==> forall j :: 0 <= j < |f.blocks| ==> AllHarmless(f.blocks[j].code, NoSpec in f.cats)
  }

  // ----- Small facts about inserting a hook -----

  lemma CountOne(i: Instr, k: Kind)
    ensures Count([i], k) == if KindOf(i) == k then 1 else 0
  {
    assert [i][1..] == [];
  }

  lemma CountInsert(i: Instr, code: seq<Instr>, k: Kind)
    ensures Count([i] + code, k) == (if KindOf(i) == k then 1 else 0) + Count(code, k)
    ensures Count(code + [i], k) == (if KindOf(i) == k then 1 else 0) + Count(code, k)
  {
    CountOne(i, k);
    CountAppend([i], code, k);
    CountAppend(code, [i], k);
  }

  lemma {:induction false} GuardedSnoc(prev: Option<Instr>, code: seq<Instr>, i: Instr, nospec: bool)
    requires Guarded(prev, code, nospec) && IsHook(i)
    ensures Guarded(prev, code + [i], nospec)
    decreases |code|
  {
    if code == [] {
      assert (code + [i])[1..] == [];
    } else {
      assert (code + [i])[1..] == code[1..] + [i];
      GuardedSnoc(Some(code[0]), code[1..], i, nospec);
    }
  }

  lemma {:induction false} ChargedSnoc(code: seq<Instr>, i: Instr)
    requires Charged(code) && IsHook(i) && !i.SpecLengthHook?
    ensures Charged(code + [i])
  {
    assert (code + [i])[1..] == code[1..] + [i];
    if code[0].SpecLengthHook? {
      CountInsert(i, code[1..], Plain);
      CountInsert(i, code[1..], KLength);
    } else {
      ChargedSnoc(code[1..], i);
    }
  }

  lemma {:induction false} ChargeLast(code: seq<Instr>, n: int)
    requires Count(code, KLength) == 0 && n >= 1
    ensures Charged(code + [SpecLengthHook(n)])
  {
    var i := SpecLengthHook(n);
    if code == [] {
      assert (code + [i])[1..] == [];
    } else {
      assert (code + [i])[1..] == code[1..] + [i];
      ChargeLast(code[1..], n);
    }
  }

  lemma {:induction false} TailSnoc(code: seq<Instr>, i: Instr, k: Kind)
    requires TailOnly(code, k) && IsHook(i)
    ensures TailOnly(code + [i], k)
  {
    if code == [] {
      assert (code + [i])[1..] == [];
    } else {
      assert (code + [i])[1..] == code[1..] + [i];
      CountInsert(i, code[1..], Plain);
      TailSnoc(code[1..], i, k);
    }
  }

  lemma {:induction false} TailOfNone(code: seq<Instr>, k: Kind)
    requires Count(code, k) == 0
    ensures TailOnly(code, k)
  {
    if code != [] {
      TailOfNone(code[1..], k);
    }
  }

  // ----- The restart pass on one block -----

  lemma {:induction false} HookCodeTail(code: seq<Instr>, nospec: bool, k: Kind)
    requires TailOnly(code, k) && (k == KCheckpoint || k == KReturn)
    ensures TailOnly(HookCode(code, nospec), k)
  {
    if code != [] {
      var h := HookFor(code[0], nospec);
      var rest := HookCode(code[1..], nospec);
      var all := HookCode(code, nospec);
      HookCodeTail(code[1..], nospec, k);
      CountHookCode(code[1..], nospec, Plain);
      if h == [] {
        assert all[1..] == rest;
      } else {
        assert all[1..] == [code[0]] + rest;
        assert all[1..][1..] == rest;
      }
    }
  }

  lemma {:induction false} CountHookCode(code: seq<Instr>, nospec: bool, k: Kind)
    requires k == Plain || k == KDepth || k == KLength || k == KCheckpoint || k == KReturn
    ensures Count(HookCode(code, nospec), k) == Count(code, k)
  {
    if code != [] {
      var h := HookFor(code[0], nospec);
      CountAppend(h + [code[0]], HookCode(code[1..], nospec), k);
      CountAppend(h, [code[0]], k);
      CountOne(code[0], k);
      if h != [] {
        CountOne(h[0], k);
        assert h == [h[0]];
      }
      CountHookCode(code[1..], nospec, k);
    }
  }

  lemma {:induction false} HookCodeOfHooks(code: seq<Instr>, nospec: bool)
    requires Count(code, Plain) == 0
    ensures HookCode(code, nospec) == code
  {
    if code != [] {
      HookCodeOfHooks(code[1..], nospec);
      assert HookFor(code[0], nospec) == [];
      assert HookCode(code, nospec) == [] + [code[0]] + code[1..];
    }
  }

  lemma {:induction false} HookCodeCharged(code: seq<Instr>, nospec: bool)
    requires Charged(code)
    ensures Charged(HookCode(code, nospec))
  {
    var h := HookFor(code[0], nospec);
    var rest := HookCode(code[1..], nospec);
    var all := HookCode(code, nospec);
    if code[0].SpecLengthHook? {
      HookCodeOfHooks(code[1..], nospec);
      assert all[1..] == code[1..];
    } else {
      HookCodeCharged(code[1..], nospec);
      if h == [] {
        assert all[1..] == rest;
      } else {
        assert all[1..] == [code[0]] + rest;
        assert all[1..][1..] == rest;
      }
    }
  }

  lemma {:induction false} HookCodeGuarded(prev: Option<Instr>, code: seq<Instr>, nospec: bool)
    requires AllHarmless(code, nospec)
    ensures Guarded(prev, HookCode(code, nospec), nospec)
    decreases |code|
  {
    if code != [] {
      var h := HookFor(code[0], nospec);
      var rest := HookCode(code[1..], nospec);
      var all := HookCode(code, nospec);
      HookCodeGuarded(Some(code[0]), code[1..], nospec);
      if h == [] {
        assert all[1..] == rest;
      } else {
        assert all[1..] == [code[0]] + rest;
        assert all[1..][1..] == rest;
      }
    }
  }

  lemma {:induction false} GuardedIsHarmless(prev: Option<Instr>, code: seq<Instr>, nospec: bool)
    requires PlainCode(code) && Guarded(prev, HookCode(code, nospec), nospec)
    ensures AllHarmless(code, nospec)
    decreases |code|
  {
    if code != [] {
      var h := HookFor(code[0], nospec);
      var rest := HookCode(code[1..], nospec);
      var all := HookCode(code, nospec);
      if h == [] {
        assert all[1..] == rest;
      } else {
        assert all[1..] == [code[0]] + rest;
        assert all[1..][1..] == rest;
      }
      GuardedIsHarmless(Some(code[0]), code[1..], nospec);
    }
  }

  /**
    * The restart pass guards every instruction of a block exactly if all the operations that it puts no
    * hook before are harmless: external calls, and on the no-speculation list all opaque operations.
    */
  lemma GuardedExactly(code: seq<Instr>, nospec: bool)
    requires PlainCode(code)
    ensures Guarded(None, HookCode(code, nospec), nospec) <==> AllHarmless(code, nospec)
  {
    if AllHarmless(code, nospec) {
      HookCodeGuarded(None, code, nospec);
    } else if Guarded(None, HookCode(code, nospec), nospec) {
      GuardedIsHarmless(None, code, nospec);
    }
  }

  lemma GuardedAnyPrev(prev: Option<Instr>, code: seq<Instr>, nospec: bool)
    requires Guarded(None, code, nospec)
    ensures Guarded(prev, code, nospec)
  {
  }

  // ----- Each pass does its part and keeps the parts of the others -----

  lemma SpecBlockStage(f: Function, entry: bool, b: Block, restart: bool, length: bool)
    requires Speculates(f) && BlockStage(f, entry, b, false, restart, length)
    ensures BlockStage(f, entry, SpecBlock(b, entry), true, restart, length)
  {
    var code := if entry then [CallDepthHook] + b.code else b.code;
    forall k: Kind ensures Count(code, k) == Count(b.code, k) + (if entry && k == KDepth then 1 else 0) {
      CountInsert(CallDepthHook, b.code, k);
    }
    assert entry ==> code[1..] == b.code;
    assert TailOnly(code, KCheckpoint) && TailOnly(code, KReturn);
    if restart {
      GuardedAnyPrev(Some(CallDepthHook), b.code, NoSpec in f.cats);
      assert Guarded(None, code, NoSpec in f.cats);
    }
    if b.term.Br? {
      forall k: Kind
        ensures Count(code + [CheckpointHook], k) == Count(code, k) + (if k == KCheckpoint then 1 else 0)
      {
        CountInsert(CheckpointHook, code, k);
      }
      TailSnoc(code, CheckpointHook, KCheckpoint);
      TailSnoc(code, CheckpointHook, KReturn);
      if restart { GuardedSnoc(None, code, CheckpointHook, NoSpec in f.cats); }
      if length { ChargedSnoc(code, CheckpointHook); }
    }
  }

  lemma RestartBlockStage(f: Function, entry: bool, b: Block, spec: bool, length: bool)
    requires Visited(f) && BlockStage(f, entry, b, spec, false, length)
    requires AllHarmless(b.code, NoSpec in f.cats)
    ensures BlockStage(f, entry, RestartBlock(b, NoSpec in f.cats), spec, true, length)
  {
    var nospec := NoSpec in f.cats;
    var code := HookCode(b.code, nospec);
    CountHookCode(b.code, nospec, KDepth);
    CountHookCode(b.code, nospec, KLength);
    CountHookCode(b.code, nospec, KCheckpoint);
    CountHookCode(b.code, nospec, KReturn);
    HookCodeGuarded(None, b.code, nospec);
    HookCodeTail(b.code, nospec, KCheckpoint);
    HookCodeTail(b.code, nospec, KReturn);
    if length { HookCodeCharged(b.code, nospec); }
    if b.term.Ret? && !nospec {
      var h := RestartHook(OnReturn);
      CountInsert(h, code, KDepth);
      CountInsert(h, code, KLength);
      CountInsert(h, code, KCheckpoint);
      CountInsert(h, code, KReturn);
      TailSnoc(code, h, KCheckpoint);
      TailSnoc(code, h, KReturn);
      GuardedSnoc(None, code, h, nospec);
      if length { ChargedSnoc(code, h); }
    }
  }

  lemma BlacklistBlockStage(f: Function, entry: bool, b: Block, spec: bool, length: bool)
    requires Blacklist in f.cats && BlockStage(f, entry, b, spec, false, length)
    ensures BlockStage(f, entry, BlacklistBlock(b, entry), spec, true, length)
  {
    var h := RestartHook(OnBlacklist);
    forall k: Kind ensures Count([h] + b.code, k) == Count(b.code, k) + (if k == KRestart then 1 else 0) {
      CountInsert(h, b.code, k);
    }
    assert ([h] + b.code)[1..] == b.code;
  }

  lemma LengthBlockStage(f: Function, entry: bool, b: Block, spec: bool, restart: bool)
    requires BlockStage(f, entry, b, spec, restart, false)
    ensures BlockStage(f, entry, LengthBlock(b), spec, restart, true)
  {
    var h := SpecLengthHook(|b.code| + 1);
    forall k: Kind ensures Count(b.code + [h], k) == Count(b.code, k) + (if k == KLength then 1 else 0) {
      CountInsert(h, b.code, k);
    }
    ChargeLast(b.code, |b.code| + 1);
    TailSnoc(b.code, h, KCheckpoint);
    TailSnoc(b.code, h, KReturn);
    if restart && Visited(f) { GuardedSnoc(None, b.code, h, NoSpec in f.cats); }
  }

  /** Which passes have run. */
  datatype Done = Done(spec: bool, restart: bool, length: bool) {
    predicate Has(p: Pass) {
      match p
      case SpecP => spec
      case RestartP => restart
      case LengthP => length
    }
    function With(p: Pass): Done {
      match p
      case SpecP => this.(spec := true)
      case RestartP => this.(restart := true)
      case LengthP => this.(length := true)
    }
  }

  lemma {:induction false} HookCodeHarmless(code: seq<Instr>, nospec: bool)
    requires AllHarmless(code, nospec)
    ensures AllHarmless(HookCode(code, nospec), nospec)
  {
    if code != [] {
      HookCodeHarmless(code[1..], nospec);
    }
  }

  lemma ApplyStage(p: Pass, f: Function, d: Done)
    requires Tame(f) && !d.Has(p) && Stage(f, d.spec, d.restart, d.length)
    ensures var g := Apply(p, f); var e := d.With(p);
            Tame(g) && g.cats == f.cats && Stage(g, e.spec, e.restart, e.length)
  {
    hide Count, Guarded, Charged, TailOnly;
    var g := Apply(p, f);
    var e := d.With(p);
    forall j | 0 <= j < |f.blocks| ensures BlockStage(g, j == 0, g.blocks[j], e.spec, e.restart, e.length) {
      var b := f.blocks[j];
      match p
      case SpecP => if Speculates(f) { SpecBlockStage(f, j == 0, b, d.restart, d.length); }
      case RestartP =>
        if Blacklist in f.cats {
          BlacklistBlockStage(f, j == 0, b, d.spec, d.length);
        } else if Visited(f) {
          RestartBlockStage(f, j == 0, b, d.spec, d.length);
        }
      case LengthP => LengthBlockStage(f, j == 0, b, d.spec, d.restart);
    }
    if Visited(f) {
      forall j | 0 <= j < |f.blocks| ensures AllHarmless(g.blocks[j].code, NoSpec in f.cats) {
        HookCodeHarmless(f.blocks[j].code, NoSpec in f.cats);
      }
    }
  }

  lemma PlainStage(f: Function)
    requires PlainFunction(f)
    ensures Stage(f, false, false, false)
  {
    forall j | 0 <= j < |f.blocks| ensures BlockStage(f, j == 0, f.blocks[j], false, false, false) {
      ErasePlainCode(f.blocks[j].code);
      TailOfNone(f.blocks[j].code, KCheckpoint);
      TailOfNone(f.blocks[j].code, KReturn);
    }
  }

  /** In every order, the three passes leave every function well hooked. */
  lemma InstrumentIsWellHooked(order: seq<Pass>, p: Program)
    requires Order(order)
    requires forall j :: 0 <= j < |p| ==> PlainFunction(p[j]) && Tame(p[j])
    ensures WellHooked(Instrument(order, p))
  {
    forall k | 0 <= k < |p| ensures Stage(ApplyAll(order, p[k]), true, true, true) {
      var f0 := p[k];
      PlainStage(f0);
      var d0 := Done(false, false, false);
      ApplyStage(order[0], f0, d0);
      var f1, d1 := Apply(order[0], f0), d0.With(order[0]);
      ApplyStage(order[1], f1, d1);
      var f2, d2 := Apply(order[1], f1), d1.With(order[1]);
      ApplyStage(order[2], f2, d2);
      InThreeSteps(order, f0);
    }
  }

  // ----- Entries and returns -----

  /** The kind of hook that an instruction needs; none on the no-speculation list for opaque operations. */
  function NeededBy(i: Instr, nospec: bool): Kind {
    match i
    case Store(_, _) => KStore
    case Copy(_, _) => KMemcpy
    case Opaque(_, _) => if nospec then Plain else KRestart
    case _ => Plain
  }

  /** How many instructions need a hook of kind `k`. */
  function Needs(code: seq<Instr>, nospec: bool, k: Kind): nat {
    if code == [] then 0 else (if NeededBy(code[0], nospec) == k then 1 else 0) + Needs(code[1..], nospec, k)
  }

  lemma {:induction false} NeedsAppend(a: seq<Instr>, b: seq<Instr>, nospec: bool, k: Kind)
    ensures Needs(a + b, nospec, k) == Needs(a, nospec, k) + Needs(b, nospec, k)
  {
    if a == [] {
      assert a + b == b;
    } else {
      assert (a + b)[1..] == a[1..] + b;
      NeedsAppend(a[1..], b, nospec, k);
    }
  }

  /** A hook needs no hook. */
  lemma NeedsInsert(i: Instr, code: seq<Instr>, nospec: bool, k: Kind)
    requires IsHook(i) && k != Plain
    ensures Needs([i] + code, nospec, k) == Needs(code + [i], nospec, k) == Needs(code, nospec, k)
  {
    NeedsAppend([i], code, nospec, k);
    NeedsAppend(code, [i], nospec, k);
    assert [i][1..] == [];
  }

  lemma {:induction false} HookCodeCounts(code: seq<Instr>, nospec: bool, k: Kind)
    requires k != Plain
    ensures Count(HookCode(code, nospec), k) == Count(code, k) + Needs(code, nospec, k)
  {
    if code != [] {
      var h, rest := HookFor(code[0], nospec), HookCode(code[1..], nospec);
      HookCodeCounts(code[1..], nospec, k);
      CountAppend(h + [code[0]], rest, k);
      CountAppend(h, [code[0]], k);
      CountOne(code[0], k);
      CountHookFor(code[0], nospec, k);
    }
  }

  lemma CountHookFor(i: Instr, nospec: bool, k: Kind)
    requires k != Plain
    ensures Count(HookFor(i, nospec), k) == if NeededBy(i, nospec) == k then 1 else 0
    ensures forall n: bool :: Needs(HookFor(i, nospec), n, k) == 0
  {
    var h := HookFor(i, nospec);
    if h != [] {
      assert h == [h[0]];
      CountOne(h[0], k);
    }
  }

  lemma {:induction false} HookCodeNeeds(code: seq<Instr>, nospec: bool, n: bool, k: Kind)
    requires k != Plain
    ensures Needs(HookCode(code, nospec), n, k) == Needs(code, n, k)
  {
    if code != [] {
      var h, rest := HookFor(code[0], nospec), HookCode(code[1..], nospec);
      HookCodeNeeds(code[1..], nospec, n, k);
      NeedsAppend(h + [code[0]], rest, n, k);
      NeedsAppend(h, [code[0]], n, k);
      CountHookFor(code[0], nospec, k);
      assert [code[0]][1..] == [];
    }
  }

  /** How many hooks of kind `k` a pass puts into block `j`. */
  function Adds(p: Pass, f: Function, j: nat, k: Kind): nat
    requires j < |f.blocks|
  {
    match p
    case SpecP =>
      if f.cats == {} && ((k == KDepth && j == 0) || (k == KCheckpoint && f.blocks[j].term.Br?)) then 1 else 0
    case RestartP =>
      if Blacklist in f.cats then (if k == KRestart && j == 0 then 1 else 0)
      else if Timer in f.cats || Exception in f.cats then 0
      else
        Needs(f.blocks[j].code, NoSpec in f.cats, k)
        + if k == KReturn && NoSpec !in f.cats && f.blocks[j].term.Ret? then 1 else 0
    case LengthP => if k == KLength then 1 else 0
  }

  lemma OnNoList(f: Function)
    ensures Speculates(f) <==> f.cats == {}
  {
    if Speculates(f) {
      forall c: Category ensures c !in f.cats {
        assert c == Blacklist || c == Timer || c == Exception || c == NoSpec;
      }
    }
  }

  /** A pass adds its own hooks, and leaves what the others need as it is. */
  lemma ApplyCount(p: Pass, f: Function, j: nat, k: Kind)
    requires j < |f.blocks| && k != Plain
    ensures var g := Apply(p, f);
            && g.cats == f.cats && |g.blocks| == |f.blocks|
            && g.blocks[j].term.Ret? == f.blocks[j].term.Ret?
            && (p != SpecP ==> g.blocks[j].term == f.blocks[j].term)
            && Count(g.blocks[j].code, k) == Count(f.blocks[j].code, k) + Adds(p, f, j, k)
            && forall n: bool :: Needs(g.blocks[j].code, n, k) == Needs(f.blocks[j].code, n, k)
  {
    hide Count, HookCode, Needs;
    OnNoList(f);
    var b := f.blocks[j];
    match p
    case SpecP => SpecBlockCounts(b, j == 0, k);
    case RestartP =>
      if Blacklist in f.cats {
        CountInsert(RestartHook(OnBlacklist), b.code, k);
        forall n: bool ensures Needs([RestartHook(OnBlacklist)] + b.code, n, k) == Needs(b.code, n, k) {
          NeedsInsert(RestartHook(OnBlacklist), b.code, n, k);
        }
      } else if Visited(f) {
        RestartBlockCounts(b, NoSpec in f.cats, k);
      }
    case LengthP =>
      CountInsert(SpecLengthHook(|b.code| + 1), b.code, k);
      forall n: bool ensures Needs(LengthBlock(b).code, n, k) == Needs(b.code, n, k) {
        NeedsInsert(SpecLengthHook(|b.code| + 1), b.code, n, k);
      }
  }

  lemma SpecBlockCounts(b: Block, entry: bool, k: Kind)
    requires k != Plain
    ensures var r := SpecBlock(b, entry);
            && Count(r.code, k) == Count(b.code, k) + (if k == KDepth && entry then 1 else 0)
                                   + (if k == KCheckpoint && b.term.Br? then 1 else 0)
            && forall n: bool :: Needs(r.code, n, k) == Needs(b.code, n, k)
  {
    hide Count, Needs;
    var code := if entry then [CallDepthHook] + b.code else b.code;
    CountInsert(CallDepthHook, b.code, k);
    CountInsert(CheckpointHook, code, k);
    forall n: bool ensures Needs(SpecBlock(b, entry).code, n, k) == Needs(b.code, n, k) {
      NeedsInsert(CallDepthHook, b.code, n, k);
      NeedsInsert(CheckpointHook, code, n, k);
    }
  }

  lemma RestartBlockCounts(b: Block, nospec: bool, k: Kind)
    requires k != Plain
    ensures var r := RestartBlock(b, nospec);
            && Count(r.code, k) == Count(b.code, k) + Needs(b.code, nospec, k)
                                   + (if k == KReturn && !nospec && b.term.Ret? then 1 else 0)
            && forall n: bool :: Needs(r.code, n, k) == Needs(b.code, n, k)
  {
    hide Count, Needs, HookCode;
    var code := HookCode(b.code, nospec);
    HookCodeCounts(b.code, nospec, k);
    CountInsert(RestartHook(OnReturn), code, k);
    forall n: bool ensures Needs(RestartBlock(b, nospec).code, n, k) == Needs(b.code, n, k) {
      HookCodeNeeds(b.code, nospec, n, k);
      NeedsInsert(RestartHook(OnReturn), code, n, k);
    }
  }

  /** In every order, each block gets exactly the hooks that the three passes add to it, of every kind. */
  lemma HooksAreCounted(order: seq<Pass>, f: Function, j: nat, k: Kind)
    requires Order(order) && j < |f.blocks| && k != Plain
    ensures var g := ApplyAll(order, f);
            && |g.blocks| == |f.blocks|
            && Count(g.blocks[j].code, k)
               == Count(f.blocks[j].code, k) + Adds(SpecP, f, j, k) + Adds(RestartP, f, j, k) + Adds(LengthP, f, j, k)
  {
    hide Count, Apply, Needs;
    var f1 := Apply(order[0], f);
    var f2 := Apply(order[1], f1);
    ApplyCount(order[0], f, j, k);
    ApplyCount(order[1], f1, j, k);
    ApplyCount(order[2], f2, j, k);
    InThreeSteps(order, f);
  }

  /**
    * The two passes agree, in every order and whatever else is in the function: it counts its entries
    * exactly if it counts its returns, and it does both at most once.
    */
  lemma EntryHookedIffReturnHooked(order: seq<Pass>, f: Function, j: nat)
    requires Order(order) && PlainFunction(f) && j < |f.blocks| && f.blocks[j].term.Ret?
    ensures var g := ApplyAll(order, f);
            && |g.blocks| == |f.blocks|
            && Count(g.blocks[0].code, KDepth) == Count(g.blocks[j].code, KReturn) == (if Speculates(f) then 1 else 0)
  {
    hide Count;
    OnNoList(f);
    ErasePlainCode(f.blocks[0].code);
    ErasePlainCode(f.blocks[j].code);
    HooksAreCounted(order, f, 0, KDepth);
    HooksAreCounted(order, f, j, KReturn);
    NothingNeeds(f.blocks[0].code, NoSpec in f.cats, KDepth);
    NothingNeeds(f.blocks[j].code, NoSpec in f.cats, KReturn);
  }

  lemma {:induction false} NothingNeeds(code: seq<Instr>, nospec: bool, k: Kind)
    requires k != Plain && k != KStore && k != KMemcpy && k != KRestart
    ensures Needs(code, nospec, k) == 0
  {
    if code != [] {
      NothingNeeds(code[1..], nospec, k);
    }
  }

  lemma InThreeSteps(order: seq<Pass>, f: Function)
    requires |order| == 3
    ensures ApplyAll(order, f) == Apply(order[2], Apply(order[1], Apply(order[0], f)))
  {
    var f1 := Apply(order[0], f);
    var f2 := Apply(order[1], f1);
    assert ApplyAll(order, f) == ApplyAll(order[1..], f1);
    assert ApplyAll(order[1..], f1) == ApplyAll(order[1..][1..], f2);
    assert ApplyAll(order[1..][1..], f2) == ApplyAll([], Apply(order[2], f2));
  }

  // ----- The charge -----

  ghost predicate HasCharge(code: seq<Instr>, min: int) {
    exists n: int :: n >= min && SpecLengthHook(n) in code
  }

  /** Block `b` came from a block of `size` instructions and has been charged for them, if at all. */
  ghost predicate ChargedFor(b: Block, size: nat, length: bool) {
    |b.code| >= size && (length ==> HasCharge(b.code, size + 1))
  }

  lemma {:induction false} HookCodeKeeps(code: seq<Instr>, nospec: bool, i: Instr)
    ensures |HookCode(code, nospec)| >= |code|
    ensures i in code ==> i in HookCode(code, nospec)
  {
    if code != [] {
      HookCodeKeeps(code[1..], nospec, i);
    }
  }

  lemma HookCodeKeepsCharge(code: seq<Instr>, nospec: bool, min: int)
    requires HasCharge(code, min)
    ensures HasCharge(HookCode(code, nospec), min)
  {
    var n :| n >= min && SpecLengthHook(n) in code;
    HookCodeKeeps(code, nospec, SpecLengthHook(n));
  }

  lemma ApplyCharges(p: Pass, f: Function, j: nat, size: nat, length: bool)
    requires j < |f.blocks| && ChargedFor(f.blocks[j], size, length)
    ensures var g := Apply(p, f); j < |g.blocks| && ChargedFor(g.blocks[j], size, length || p == LengthP)
  {
    var b, g := f.blocks[j], Apply(p, f);
    HookCodeKeeps(b.code, NoSpec in f.cats, CheckpointHook);
    if length {
      HookCodeKeepsCharge(b.code, NoSpec in f.cats, size + 1);
      var n :| n >= size + 1 && SpecLengthHook(n) in b.code;
      HookCodeKeeps(b.code, NoSpec in f.cats, SpecLengthHook(n));
      assert SpecLengthHook(n) in g.blocks[j].code;
    } else if p == LengthP {
      assert SpecLengthHook(|b.code| + 1) in g.blocks[j].code;
    }
  }

  lemma {:induction false} ApplyAllCharges(order: seq<Pass>, f: Function, j: nat, size: nat, length: bool)
    requires j < |f.blocks| && ChargedFor(f.blocks[j], size, length)
    ensures var g := ApplyAll(order, f); j < |g.blocks| && ChargedFor(g.blocks[j], size, length || LengthP in order)
  {
    if order != [] {
      ApplyCharges(order[0], f, j, size, length);
      ApplyAllCharges(order[1..], Apply(order[0], f), j, size, length || order[0] == LengthP);
    }
  }

  /** In every order, a block is charged for all its own instructions and its terminator at least. */
  lemma ChargeCoversBlock(order: seq<Pass>, f: Function, j: nat)
    requires LengthP in order && j < |f.blocks|
    ensures var g := ApplyAll(order, f); j < |g.blocks| && HasCharge(g.blocks[j].code, |f.blocks[j].code| + 1)
  {
    ApplyAllCharges(order, f, j, |f.blocks[j].code|, false);
  }

  /** Every charge is at least for `size` instructions and a terminator, and at most for all of the code. */
  ghost predicate FairCharges(code: seq<Instr>, size: nat) {
    |code| >= size && forall n :: SpecLengthHook(n) in code ==> size + 1 <= n <= |code|
  }

  lemma {:induction false} HookCodeAddsNoCharge(code: seq<Instr>, nospec: bool, n: int)
    requires SpecLengthHook(n) in HookCode(code, nospec)
    ensures SpecLengthHook(n) in code
  {
    if SpecLengthHook(n) in HookCode(code[1..], nospec) {
      HookCodeAddsNoCharge(code[1..], nospec, n);
    }
  }

  lemma ApplyIsFair(p: Pass, f: Function, j: nat, size: nat)
    requires j < |f.blocks| && FairCharges(f.blocks[j].code, size)
    ensures var g := Apply(p, f); |g.blocks| == |f.blocks| && FairCharges(g.blocks[j].code, size)
  {
    var b, g, nospec := f.blocks[j], Apply(p, f), NoSpec in f.cats;
    HookCodeKeeps(b.code, nospec, CheckpointHook);
    forall n | SpecLengthHook(n) in g.blocks[j].code ensures size + 1 <= n <= |g.blocks[j].code| {
      if SpecLengthHook(n) in HookCode(b.code, nospec) {
        HookCodeAddsNoCharge(b.code, nospec, n);
      }
      assert SpecLengthHook(n) in b.code || n == |b.code| + 1;
    }
  }

  /** In every order, a block is charged at most for all that is in it in the end. */
  lemma {:induction false} ChargeIsFair(order: seq<Pass>, f: Function, j: nat, size: nat)
    requires j < |f.blocks| && FairCharges(f.blocks[j].code, size)
    ensures var g := ApplyAll(order, f); |g.blocks| == |f.blocks| && FairCharges(g.blocks[j].code, size)
  {
    if order != [] {
      ApplyIsFair(order[0], f, j, size);
      ChargeIsFair(order[1..], Apply(order[0], f), j, size);
    }
  }
}
