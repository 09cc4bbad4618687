/** The three instrumentation passes, and what holds of a program once all of them have run in any order. */
module Passes {
  import opened Runtime
  import opened Ir

  /** The functions that speculation starts and is counted in: those on none of the lists. */
  predicate Speculates(f: Function) {
    Blacklist !in f.cats && Exception !in f.cats && Timer !in f.cats && NoSpec !in f.cats
  }

  /** The functions whose instructions the restart pass visits. */
  predicate Visited(f: Function) {
    Blacklist !in f.cats && Timer !in f.cats && Exception !in f.cats
  }

  // ----- The speculation pass: entry hooks, checkpoints and swapped branches -----

  function SpecBlock(b: Block, entry: bool): Block {
    var code := if entry then [CallDepthHook] + b.code else b.code;
    match b.term
    case Br(cond, yes, no) => Block(code + [CheckpointHook], SwapBr(cond, yes, no))
    case _ => Block(code, b.term)
  }

  function SpecPass(f: Function): Function {
    if !Speculates(f) then f
    else f.(blocks := seq(|f.blocks|, j requires 0 <= j < |f.blocks| => SpecBlock(f.blocks[j], j == 0)))
  }

  /** The pass as it walks over the blocks of a function. */
  method RunSpecPass(f: Function) returns (g: Function)
    ensures g == SpecPass(f)
  {
    g := f;
    if Blacklist in f.cats || Exception in f.cats || Timer in f.cats || NoSpec in f.cats {
      return;
    }
    var done: seq<Block> := [];
    for j := 0 to |f.blocks|
      invariant |done| == j
      invariant forall i :: 0 <= i < j ==> done[i] == SpecBlock(f.blocks[i], i == 0)
    {
      var b := f.blocks[j];
      if j == 0 {
        b := b.(code := [CallDepthHook] + b.code);
      }
      if b.term.Br? {
        b := Block(b.code + [CheckpointHook], SwapBr(b.term.cond, b.term.yes, b.term.no));
      }
      done := done + [b];
    }
    g := f.(blocks := done);
    assert g.blocks == SpecPass(f).blocks;
  }

  // ----- The restart pass: hooks before stores, copies, opaque operations and returns -----

  /** The hook that belongs right before an instruction. */
  function HookFor(i: Instr, nospec: bool): seq<Instr> {
    match i
    case Store(a, _) => [StoreHook(a)]
    case Copy(a, v) => [MemcpyHook(a, v)]
    case Opaque(_, asm) => if nospec then [] else [RestartHook(if asm then OnInlineAsm else OnCallUndefined)]
    case _ => []
  }

  function HookCode(code: seq<Instr>, nospec: bool): seq<Instr> {
    if code == [] then [] else HookFor(code[0], nospec) + [code[0]] + HookCode(code[1..], nospec)
  }

  function RestartBlock(b: Block, nospec: bool): Block {
    var code := HookCode(b.code, nospec);
    Block(if b.term.Ret? && !nospec then code + [RestartHook(OnReturn)] else code, b.term)
  }

  function BlacklistBlock(b: Block, entry: bool): Block {
    if entry then b.(code := [RestartHook(OnBlacklist)] + b.code) else b
  }

  function RestartPass(f: Function): Function {
    if Blacklist in f.cats then
      f.(blocks := seq(|f.blocks|, j requires 0 <= j < |f.blocks| => BlacklistBlock(f.blocks[j], j == 0)))
    else if !Visited(f) then f
    else
      f.(blocks := seq(|f.blocks|, j requires 0 <= j < |f.blocks| => RestartBlock(f.blocks[j], NoSpec in f.cats)))
  }

  lemma {:induction false} HookCodeSnoc(code: seq<Instr>, i: Instr, nospec: bool)
    ensures HookCode(code + [i], nospec) == HookCode(code, nospec) + HookFor(i, nospec) + [i]
  {
    if code == [] {
      assert [] + [i] == [i];
      assert [i][1..] == [];
    } else {
      assert (code + [i])[1..] == code[1..] + [i];
      HookCodeSnoc(code[1..], i, nospec);
    }
  }

  /** The visitor over the instructions of one block, inserting in front of each what it needs. */
  method VisitBlock(b: Block, nospec: bool) returns (r: Block)
    ensures r == RestartBlock(b, nospec)
  {
    var code: seq<Instr> := [];
    for k := 0 to |b.code|
      invariant code == HookCode(b.code[..k], nospec)
    {
      var i := b.code[k];
      if i.Store? {
        code := code + [StoreHook(i.addr)];
      } else if i.Copy? {
        code := code + [MemcpyHook(i.addr, i.bytes)];
      } else if i.Opaque? && !nospec {
        code := code + [RestartHook(if i.asm then OnInlineAsm else OnCallUndefined)];
      }
      code := code + [i];
      assert b.code[..k + 1] == b.code[..k] + [i];
      HookCodeSnoc(b.code[..k], i, nospec);
    }
    assert b.code[..|b.code|] == b.code;
    if b.term.Ret? && !nospec {
      code := code + [RestartHook(OnReturn)];
    }
    r := Block(code, b.term);
  }

  /** The pass over one function: a hook at the entry, nothing, or the visitor on every block. */
  method RunRestartPass(f: Function) returns (g: Function)
    ensures g == RestartPass(f)
  {
    hide RestartBlock;
    if Blacklist in f.cats {
      g := f;
      if f.blocks != [] {
        g := f.(blocks := f.blocks[0 := f.blocks[0].(code := [RestartHook(OnBlacklist)] + f.blocks[0].code)]);
      }
      assert g.blocks == RestartPass(f).blocks;
      return;
    }
    if Timer in f.cats || Exception in f.cats {
      return f;
    }
    var done: seq<Block> := [];
    for j := 0 to |f.blocks|
      invariant |done| == j
      invariant forall i :: 0 <= i < j ==> done[i] == RestartBlock(f.blocks[i], NoSpec in f.cats)
    {
      var b := VisitBlock(f.blocks[j], NoSpec in f.cats);
      done := done + [b];
    }
    g := f.(blocks := done);
    assert g.blocks == RestartPass(f).blocks;
  }

  // ----- The length pass: a charge at the end of every block -----

  function LengthBlock(b: Block): Block {
    b.(code := b.code + [SpecLengthHook(|b.code| + 1)])
  }

  function LengthPass(f: Function): Function {
    f.(blocks := seq(|f.blocks|, j requires 0 <= j < |f.blocks| => LengthBlock(f.blocks[j])))
  }

  /** The pass as it walks over the blocks; the count is taken before the hook is inserted. */
  method RunLengthPass(f: Function) returns (g: Function)
    ensures g == LengthPass(f)
  {
    var done: seq<Block> := [];
    for j := 0 to |f.blocks|
      invariant |done| == j
      invariant forall i :: 0 <= i < j ==> done[i] == LengthBlock(f.blocks[i])
    {
      var b := f.blocks[j];
      var count := |b.code| + 1;
      done := done + [b.(code := b.code + [SpecLengthHook(count)])];
    }
    g := f.(blocks := done);
    assert g.blocks == LengthPass(f).blocks;
  }

  // ----- The passes in any order -----

  datatype Pass = SpecP | RestartP | LengthP

  function Apply(pass: Pass, f: Function): Function {
    match pass
    case SpecP => SpecPass(f)
    case RestartP => RestartPass(f)
    case LengthP => LengthPass(f)
  }

  function ApplyAll(order: seq<Pass>, f: Function): Function {
    if order == [] then f else ApplyAll(order[1..], Apply(order[0], f))
  }

  function Instrument(order: seq<Pass>, p: Program): Program {
    seq(|p|, j requires 0 <= j < |p| => ApplyAll(order, p[j]))
  }

  /** Each of the three passes runs once. */
  predicate Order(order: seq<Pass>) {
    |order| == 3 && order[0] != order[1] && order[1] != order[2] && order[0] != order[2]
  }

  // ----- The passes only insert -----

  lemma {:induction false} EraseHookCode(code: seq<Instr>, nospec: bool)
    ensures EraseCode(HookCode(code, nospec)) == EraseCode(code)
  {
    if code != [] {
      var h := HookFor(code[0], nospec);
      EraseHookCode(code[1..], nospec);
      EraseAppend(h + [code[0]], HookCode(code[1..], nospec));
      EraseAppend(h, [code[0]]);
      assert EraseCode(h) == [];
      assert [code[0]][1..] == [];
    }
  }

  lemma EraseSingleHook(i: Instr)
    requires IsHook(i)
    ensures EraseCode([i]) == []
  {
    assert [i][1..] == [];
  }

  lemma EraseSpecBlock(b: Block, entry: bool)
    ensures EraseBlock(SpecBlock(b, entry)) == EraseBlock(b)
  {
    EraseSingleHook(CallDepthHook);
    EraseSingleHook(CheckpointHook);
    EraseAppend([CallDepthHook], b.code);
    EraseAppend(if entry then [CallDepthHook] + b.code else b.code, [CheckpointHook]);
  }

  lemma EraseRestartBlock(b: Block, nospec: bool)
    ensures EraseBlock(RestartBlock(b, nospec)) == EraseBlock(b)
  {
    EraseHookCode(b.code, nospec);
    EraseSingleHook(RestartHook(OnReturn));
    EraseAppend(HookCode(b.code, nospec), [RestartHook(OnReturn)]);
  }

  lemma EraseApply(pass: Pass, f: Function)
    ensures EraseFunction(Apply(pass, f)) == EraseFunction(f)
  {
    var g := Apply(pass, f);
    forall j | 0 <= j < |f.blocks| ensures EraseBlock(g.blocks[j]) == EraseBlock(f.blocks[j]) {
      var b := f.blocks[j];
      match pass
      case SpecP => EraseSpecBlock(b, j == 0);
      case RestartP =>
        EraseRestartBlock(b, NoSpec in f.cats);
        EraseSingleHook(RestartHook(OnBlacklist));
        EraseAppend([RestartHook(OnBlacklist)], b.code);
      case LengthP =>
        EraseSingleHook(SpecLengthHook(|b.code| + 1));
        EraseAppend(b.code, [SpecLengthHook(|b.code| + 1)]);
    }
    assert EraseFunction(g).blocks == EraseFunction(f).blocks;
  }

  lemma {:induction false} EraseApplyAll(order: seq<Pass>, f: Function)
    ensures EraseFunction(ApplyAll(order, f)) == EraseFunction(f)
  {
    if order != [] {
      EraseApply(order[0], f);
      EraseApplyAll(order[1..], Apply(order[0], f));
    }
  }

  /** Erasing the hooks of an instrumented program gives back the program, whatever passes ran on it. */
  lemma InstrumentErases(order: seq<Pass>, p: Program)
    requires forall j :: 0 <= j < |p| ==> PlainFunction(p[j])
    ensures Erase(Instrument(order, p)) == p
  {
    forall j | 0 <= j < |p| ensures EraseFunction(ApplyAll(order, p[j])) == p[j] {
      EraseApplyAll(order, p[j]);
      ErasePlainFunction(p[j]);
    }
  }
}
