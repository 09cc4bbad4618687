/** A small intermediate language: the instructions the passes look at, and the hooks they insert. */
module Ir {
  import opened Bytes
  import opened Runtime

  /** The values a function keeps in registers. */
  type Locals = map<nat, int>

  /** What an instruction sees: registers, memory, where the stack ends, and its own frame [sp, base) in it. */
  datatype Env = Env(locals: Locals, mem: Mem, lo: int, sp: int, base: int)

  /** What one store writes; the store hook is told the address only. */
  type Small = bytes: seq<Byte> | |bytes| <= 8

  datatype Instr =
    | Store(addr: Env -> int, val: Env -> Small)
    | Copy(addr: Env -> int, bytes: Env -> seq<Byte>) // a memory intrinsic: any length
    | Compute(eval: Env -> Locals)                    // anything that writes no memory
    | Spill(addr: Env -> int, bytes: Env -> seq<Byte>) // a write to its own frame that only the compiler knows of
    | Opaque(effect: Env -> Env, asm: bool)           // inline assembly, or a call through a pointer
    | External(effect: Env -> Env)  // a call to a function without a body, or assembly considered safe
    | Call(callee: nat, args: Env -> Locals)
    // inserted by the passes:
    | StoreHook(addr: Env -> int)
    | MemcpyHook(addr: Env -> int, bytes: Env -> seq<Byte>)
    | RestartHook(t: Reason)
    | CallDepthHook
    | SpecLengthHook(n: int)
    | CheckpointHook

  datatype Term =
    | Br(cond: Env -> bool, yes: nat, no: nat)
    | SwapBr(cond: Env -> bool, yes: nat, no: nat)    // a branch that the swap flag can turn around
    | Jump(target: nat)
    | Ret(val: Env -> int)

  datatype Block = Block(code: seq<Instr>, term: Term)

  datatype Category = Blacklist | Timer | Exception | NoSpec

  /**
    * The lists it is on, its code, the size of its frame, and how many bytes its call leaves above the
    * frame: the return address and the saved base pointer, which the function itself never writes.
    */
  datatype Function = Function(cats: set<Category>, blocks: seq<Block>, frame: nat, link: nat)

  function StackSize(f: Function): nat {
    f.frame + f.link
  }

  type Program = seq<Function>

  /** What the passes tell apart: the hooks by their purpose, everything else is plain. */
  datatype Kind = Plain | KStore | KMemcpy | KRestart | KReturn | KDepth | KLength | KCheckpoint

  function KindOf(i: Instr): Kind {
    match i
    case StoreHook(_) => KStore
    case MemcpyHook(_, _) => KMemcpy
    case RestartHook(t) => if t == OnReturn then KReturn else KRestart
    case CallDepthHook => KDepth
    case SpecLengthHook(_) => KLength
    case CheckpointHook => KCheckpoint
    case _ => Plain
  }

  predicate IsHook(i: Instr) {
    KindOf(i) != Plain
  }

  function Count(code: seq<Instr>, k: Kind): nat {
    if code == [] then 0 else (if KindOf(code[0]) == k then 1 else 0) + Count(code[1..], k)
  }

  lemma {:induction false} CountAppend(a: seq<Instr>, b: seq<Instr>, k: Kind)
    ensures Count(a + b, k) == Count(a, k) + Count(b, k)
  {
    if a == [] {
      assert a + b == b;
    } else {
      assert (a + b)[1..] == a[1..] + b;
      CountAppend(a[1..], b, k);
    }
  }

  // ----- Erasing the hooks -----

  function EraseCode(code: seq<Instr>): seq<Instr> {
    if code == [] then []
    else if IsHook(code[0]) then EraseCode(code[1..])
    else [code[0]] + EraseCode(code[1..])
  }

  function EraseTerm(t: Term): Term {
    match t
    case SwapBr(cond, yes, no) => Br(cond, yes, no)
    case _ => t
  }

  function EraseBlock(b: Block): Block {
    Block(EraseCode(b.code), EraseTerm(b.term))
  }

  function EraseFunction(f: Function): Function {
    f.(blocks := seq(|f.blocks|, j requires 0 <= j < |f.blocks| => EraseBlock(f.blocks[j])))
  }

  function Erase(p: Program): Program {
    seq(|p|, j requires 0 <= j < |p| => EraseFunction(p[j]))
  }

  lemma {:induction false} EraseAppend(a: seq<Instr>, b: seq<Instr>)
    ensures EraseCode(a + b) == EraseCode(a) + EraseCode(b)
  {
    if a == [] {
      assert a + b == b;
    } else {
      assert (a + b)[1..] == a[1..] + b;
      EraseAppend(a[1..], b);
    }
  }

  /** Source code: no pass has run on it. */
  predicate PlainCode(code: seq<Instr>) {
    forall k :: 0 <= k < |code| ==> !IsHook(code[k])
  }

  predicate PlainFunction(f: Function) {
    forall j :: 0 <= j < |f.blocks| ==> PlainCode(f.blocks[j].code) && !f.blocks[j].term.SwapBr?
  }

  lemma {:induction false} ErasePlainCode(code: seq<Instr>)
    requires PlainCode(code)
    ensures EraseCode(code) == code
    ensures forall k: Kind :: k != Plain ==> Count(code, k) == 0
  {
    if code != [] {
      assert !IsHook(code[0]);
      assert code == [code[0]] + code[1..];
      ErasePlainCode(code[1..]);
    }
  }

  lemma ErasePlainFunction(f: Function)
    requires PlainFunction(f)
    ensures EraseFunction(f) == f
  {
    forall j | 0 <= j < |f.blocks| ensures EraseBlock(f.blocks[j]) == f.blocks[j] {
      ErasePlainCode(f.blocks[j].code);
    }
    assert EraseFunction(f).blocks == f.blocks;
  }
}
