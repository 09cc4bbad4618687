/** Saving the registers at a checkpoint, and the two ways of getting them back. */
module Registers {

  /** The upper 52 bits of the flags register. */
  type High = n: int | 0 <= n < 0x10_0000_0000_0000

  /** The flags that the instructions modelled here keep. */
  datatype System = System(bit1: bool, bit3: bool, adjust: bool, bit5: bool, trap: bool, interrupt: bool,
                           direction: bool, high: High)

  /** The flags register: the arithmetic flags, and the rest. */
  datatype Flags = Flags(carry: bool, parity: bool, zero: bool, sign: bool, overflow: bool, system: System)

  /** The flags after a register was xored with itself. */
  function XorFlags(f: Flags): Flags {
    f.(carry := false, parity := true, zero := true, sign := false, overflow := false)
  }

  /** Whether the low `n` bits of a word have an even number of ones. */
  predicate Even(v: bv64, n: nat) {
    n == 0 || (Even(v >> 1, n - 1) <==> v & 1 == 0)
  }

  /** These are the flags that a logical instruction sets by its result, here that of any word with itself. */
  lemma XorFlagsByResult(f: Flags, v: bv64)
    ensures var r, g := v ^ v, XorFlags(f);
            && (g.zero <==> r == 0) && (g.sign <==> r >> 63 == 1) && (g.parity <==> Even(r, 8))
            && !g.carry && !g.overflow && g.system == f.system
  {
    assert v ^ v == 0;
    EvenZero(8);
  }

  lemma {:induction false} EvenZero(n: nat)
    ensures Even(0, n)
  {
    if n > 0 {
      assert (0 as bv64) >> 1 == 0;
      EvenZero(n - 1);
    }
  }

  datatype Regs = Regs(
    rax: int, rbx: int, rcx: int, rdx: int, rsi: int, rdi: int, rbp: int, rsp: int,
    r8: int, r9: int, r10: int, r11: int, r12: int, r13: int, r14: int, r15: int,
    rip: int, eflags: Flags)

  /** struct pt_regs: the layout of the save area and of the image an interrupt leaves on the stack. */
  datatype PtRegs = PtRegs(
    r15: int, r14: int, r13: int, r12: int, rbp: int, rbx: int, r11: int, r10: int, r9: int, r8: int,
    rax: int, rcx: int, rdx: int, rsi: int, rdi: int, origRax: int,
    rip: int, cs: int, eflags: Flags, rsp: int, ss: int)

  /** A word on the stack. */
  datatype Cell = Value(v: int) | FlagWord(f: Flags)

  // ----- Saving -----

  /** The save area after the general registers of `r` went in, in the order of the instructions. */
  method SaveGeneral(r: Regs, area0: PtRegs) returns (area: PtRegs)
    ensures area == area0.(rax := r.rax, rbx := r.rbx, rcx := r.rcx, rdx := r.rdx, rbp := r.rbp,
                           r8 := r.r8, r9 := r.r9, r10 := r.r10, r11 := r.r11,
                           r12 := r.r12, r13 := r.r13, r14 := r.r14, r15 := r.r15)
  {
    area := area0.(rax := r.rax);
    area := area.(rbx := r.rbx);
    area := area.(rcx := r.rcx);
    area := area.(rdx := r.rdx);
    area := area.(rbp := r.rbp);
    area := area.(r8 := r.r8);
    area := area.(r9 := r.r9);
    area := area.(r10 := r.r10);
    area := area.(r11 := r.r11);
    area := area.(r12 := r.r12);
    area := area.(r13 := r.r13);
    area := area.(r14 := r.r14);
    area := area.(r15 := r.r15);
  }

  /** What the save area holds after a save by a caller with registers `r` that will resume at `ret`. */
  predicate Saved(area: PtRegs, r: Regs, ret: int) {
    && area.r15 == r.r15 && area.r14 == r.r14 && area.r13 == r.r13 && area.r12 == r.r12
    && area.rbp == r.rbp && area.rbx == r.rbx && area.r11 == r.r11 && area.r10 == r.r10
    && area.r9 == r.r9 && area.r8 == r.r8 && area.rax == r.rax && area.rcx == r.rcx && area.rdx == r.rdx
    && area.rip == ret && area.rsp == r.rsp + 8 && area.eflags == XorFlags(r.eflags)
  }

  /** The slots that a save leaves as they were. */
  predicate SameUnsaved(a: PtRegs, b: PtRegs) {
    a.rsi == b.rsi && a.rdi == b.rdi && a.origRax == b.origRax && a.cs == b.cs && a.ss == b.ss
  }

  /** The registers when the save function has returned to its caller, which had `r` and resumes at `ret`. */
  predicate Returned(now: Regs, r: Regs, ret: int) {
    && now.rip == ret && now.rsp == r.rsp + 8 && now.eflags == XorFlags(r.eflags) && now.rax == 0
    && now.(rax := r.rax, rdx := r.rdx, rip := r.rip, rsp := r.rsp, eflags := r.eflags) == r
  }

  /**
    * kspecem_asm_save_registers: called with the return address `ret` on top of the stack and the
    * checkpoint's verdict in rsi as a signed number. The comparison's own flags are overwritten by
    * the xor that follows on every path.
    */
  method SaveRegisters(r0: Regs, ret: int, stack0: map<int, Cell>, area0: PtRegs)
    returns (r: Regs, stack: map<int, Cell>, area: PtRegs)
    requires r0.rsp in stack0 && stack0[r0.rsp] == Value(ret)
    ensures Returned(r, r0, ret)
    ensures r0.rsi <= -1 ==> area == area0 && stack == stack0 && r.rdx == r0.rdx
    ensures r0.rsi > -1 ==> Saved(area, r0, ret) && SameUnsaved(area, area0)
    ensures r0.rsi > -1 ==> stack == stack0[r0.rsp - 8 := FlagWord(XorFlags(r0.eflags))] && r.rdx == r0.rsp + 8
  {
    r, stack, area := r0, stack0, area0;
    if r.rsi > -1 {
      area := SaveGeneral(r, area);
      r := r.(rdx := r.rsp + 8);
      area := area.(rsp := r.rdx);
      r := r.(rax := stack[r.rsp].v);
      area := area.(rip := r.rax);
      r := r.(rax := 0, eflags := XorFlags(r.eflags));
      stack := stack[r.rsp - 8 := FlagWord(r.eflags)];
      area := area.(eflags := r.eflags);
    }
    r := r.(rax := 0, eflags := XorFlags(r.eflags));
    r := r.(rip := stack[r.rsp].v, rsp := r.rsp + 8);
  }

  // ----- The synchronous way back -----

  /** The registers after the synchronous way back, from a processor with registers `now`. */
  function SyncResume(area: PtRegs, now: Regs): Regs {
    Regs(area.rax, area.rbx, area.rcx, area.rip, now.rsi, now.rdi, area.rbp, area.rsp,
         area.r8, area.r9, area.r10, area.r11, area.r12, area.r13, area.r14, area.r15,
         area.rip, area.eflags)
  }

  /**
    * kspecem_asm_restore_registers, one assignment per instruction; the registers it does not name
    * are rsi and rdi. r8 and r9 first carry the stack and base pointers, and rax the flags.
    */
  method RestoreRegisters(area: PtRegs, now: Regs, stack0: map<int, Cell>) returns (r: Regs, stack: map<int, Cell>)
    ensures r == SyncResume(area, now)
    ensures stack == stack0[area.rsp - 8 := FlagWord(area.eflags)]
  {
    var r8 := area.rsp;
    var r9 := area.rbp;
    var rdx := area.rip;
    var rbx := area.rbx;
    var r10 := area.r10;
    var r11 := area.r11;
    var r12 := area.r12;
    var r13 := area.r13;
    var r14 := area.r14;
    var r15 := area.r15;
    var rcx := area.rcx;
    var rax := now.rsi % 0x1_0000_0000;
    var rsp := r8;
    var rbp := r9;
    r8 := area.r8;
    r9 := area.r9;
    rsp := rsp - 8;
    stack := stack0[rsp := FlagWord(area.eflags)];
    var eflags := stack[rsp].f;
    rsp := rsp + 8;
    rax := area.rax;
    r := Regs(rax, rbx, rcx, rdx, now.rsi, now.rdi, rbp, rsp, r8, r9, r10, r11, r12, r13, r14, r15, rdx, eflags);
  }

  // ----- The way back through an interrupt -----

  /** The copy an interrupt makes, slot by slot, so that its return leads to the checkpoint. */
  method CopyToImage(area: PtRegs, image0: PtRegs) returns (image: PtRegs)
    ensures image == area.(origRax := image0.origRax, cs := image0.cs, ss := image0.ss)
  {
    image := image0.(r15 := area.r15);
    image := image.(r14 := area.r14);
    image := image.(r13 := area.r13);
    image := image.(r12 := area.r12);
    image := image.(r11 := area.r11);
    image := image.(r10 := area.r10);
    image := image.(r9 := area.r9);
    image := image.(r8 := area.r8);
    image := image.(rbp := area.rbp);
    image := image.(rax := area.rax);
    image := image.(rbx := area.rbx);
    image := image.(rcx := area.rcx);
    image := image.(rdx := area.rdx);
    image := image.(rsi := area.rsi);
    image := image.(rdi := area.rdi);
    image := image.(eflags := area.eflags);
    image := image.(rip := area.rip);
    image := image.(rsp := area.rsp);
  }

  /** The registers after a return from an interrupt: everything is taken from the image. */
  function InterruptResume(image: PtRegs): Regs {
    Regs(image.rax, image.rbx, image.rcx, image.rdx, image.rsi, image.rdi, image.rbp, image.rsp,
         image.r8, image.r9, image.r10, image.r11, image.r12, image.r13, image.r14, image.r15,
         image.rip, image.eflags)
  }

  // ----- The two ways compared -----

  /** Every register but rdx, rsi and rdi. */
  predicate Agree(a: Regs, b: Regs) {
    b.(rdx := a.rdx, rsi := a.rsi, rdi := a.rdi) == a
  }

  /** The registers a call must preserve (section 3.2.1 of the System V AMD64 ABI), and where it returns to. */
  predicate SameCalleeSaved(a: Regs, b: Regs) {
    && a.rbx == b.rbx && a.rbp == b.rbp && a.rsp == b.rsp && a.r12 == b.r12 && a.r13 == b.r13
    && a.r14 == b.r14 && a.r15 == b.r15 && a.rip == b.rip
  }

  /**
    * A checkpoint by a caller with registers `r`, then a way back of each kind from processors with
    * any registers and any image. Both lead to where the save function first returned, with every
    * register a call must preserve, and they agree on all registers but rdx, rsi and rdi. They agree
    * on those exactly if the save area happens to hold what the synchronous way leaves there.
    * A caller can tell the second return from the first by rax, rdx, rsi and rdi alone, and by rax
    * only if it was not zero: the value that the restore passes in rax is overwritten.
    */
  method CheckpointTwice(r: Regs, ret: int, stack: map<int, Cell>, area0: PtRegs,
                         now: Regs, stackNow: map<int, Cell>, image0: PtRegs)
    returns (first: Regs, sync: Regs, interrupt: Regs)
    requires r.rsp in stack && stack[r.rsp] == Value(ret) && r.rsi > -1
    ensures Agree(sync, interrupt)
    ensures sync == interrupt <==> r.rdx == ret && area0.rsi == now.rsi && area0.rdi == now.rdi
    ensures SameCalleeSaved(first, sync) && SameCalleeSaved(first, interrupt)
    ensures first.rip == ret && first.rsp == r.rsp + 8
    ensures Agree(first.(rax := r.rax), sync)
    ensures Agree(first, sync) <==> r.rax == 0
  {
    var saved, area, image;
    first, saved, area := SaveRegisters(r, ret, stack, area0);
    sync, saved := RestoreRegisters(area, now, stackNow);
    image := CopyToImage(area, image0);
    interrupt := InterruptResume(image);
  }
}
