/**
  * An interrupt in speculation: the registers of the checkpoint go into the image that the handler will
  * return through, the speculation is rolled back, and the image is still what it was.
  */
module Interrupt {
  import opened Bytes
  import opened UndoLog
  import opened Runtime
  import Speculation
  import opened Registers

  // ----- The flags register as a word -----

  function Bit(b: bool): int {
    if b then 1 else 0
  }

  /** One more bit below a number, and what a number has as its lowest bit and above it. */
  function Below(b: bool, rest: int): int {
    Bit(b) + 2 * rest
  }

  predicate Odd(v: int) {
    v % 2 == 1
  }

  function Half(v: int): int {
    v / 2
  }

  lemma OddHalf(b: bool, rest: int, v: int)
    ensures Odd(Below(b, rest)) == b && Half(Below(b, rest)) == rest
    ensures Below(Odd(v), Half(v)) == v
  {
  }

  /** The bits from carry up to overflow, and the rest. */
  function Bits(f: Flags): int {
    var y := f.system;
    Below(f.carry, Below(y.bit1, Below(f.parity, Below(y.bit3, Below(y.adjust, Below(y.bit5, HighBits(f)))))))
  }

  function HighBits(f: Flags): int {
    var y := f.system;
    Below(f.zero, Below(f.sign, Below(y.trap, Below(y.interrupt, Below(y.direction, Below(f.overflow, y.high))))))
  }

  /** Where the flags are in the register (section 3.4.3 of the Intel 64 manual, volume 1). */
  lemma FlagPlaces(f: Flags)
    ensures var y := f.system;
            FlagsToWord(f) ==
              Bit(f.carry) + 2 * Bit(y.bit1) + 4 * Bit(f.parity) + 8 * Bit(y.bit3) + 16 * Bit(y.adjust)
              + 32 * Bit(y.bit5) + 64 * Bit(f.zero) + 128 * Bit(f.sign) + 256 * Bit(y.trap) + 512 * Bit(y.interrupt)
              + 1024 * Bit(y.direction) + 2048 * Bit(f.overflow) + 4096 * y.high
  {
    hide Bit;
  }

  lemma BelowBound(b: bool, rest: int, limit: int)
    requires 0 <= rest < limit
    ensures 0 <= Below(b, rest) < 2 * limit
  {
  }

  lemma SixBound(b0: bool, b1: bool, b2: bool, b3: bool, b4: bool, b5: bool, rest: int, limit: int)
    requires 0 <= rest < limit
    ensures 0 <= Below(b0, Below(b1, Below(b2, Below(b3, Below(b4, Below(b5, rest)))))) < 64 * limit
  {
    hide Below;
    var r1 := Below(b5, rest);
    var r2 := Below(b4, r1);
    var r3 := Below(b3, r2);
    var r4 := Below(b2, r3);
    BelowBound(b5, rest, limit);
    BelowBound(b4, r1, 2 * limit);
    BelowBound(b3, r2, 4 * limit);
    BelowBound(b2, r3, 8 * limit);
    BelowBound(b1, r4, 16 * limit);
    BelowBound(b0, Below(b1, r4), 32 * limit);
  }

  lemma BitsBound(f: Flags)
    ensures 0 <= Bits(f) < WORD_LIMIT
  {
    hide Below;
    var y := f.system;
    SixBound(f.zero, f.sign, y.trap, y.interrupt, y.direction, f.overflow, y.high, 0x10_0000_0000_0000);
    SixBound(f.carry, y.bit1, f.parity, y.bit3, y.adjust, y.bit5, HighBits(f), 64 * 0x10_0000_0000_0000);
  }

  function FlagsToWord(f: Flags): (v: int)
    ensures 0 <= v < WORD_LIMIT
  {
    BitsBound(f);
    Bits(f)
  }

  /** A number without its lowest six bits. */
  function Above(v: int): int {
    Half(Half(Half(Half(Half(Half(v))))))
  }

  lemma AboveBound(v: int)
    requires 0 <= v < WORD_LIMIT
    ensures 0 <= Above(Above(v)) < 0x10_0000_0000_0000
  {
    assert Above(v) == v / 64;
    assert Above(v / 64) == v / 64 / 64;
  }

  function WordToFlags(v: int): Flags
    requires 0 <= v < WORD_LIMIT
  {
    var u := Above(v);
    AboveBound(v);
    Flags(Odd(v), Odd(Half(Half(v))), Odd(u), Odd(Half(u)), Odd(Half(Half(Half(Half(Half(u)))))),
          System(Odd(Half(v)), Odd(Half(Half(Half(v)))), Odd(Half(Half(Half(Half(v))))),
                 Odd(Half(Half(Half(Half(Half(v)))))), Odd(Half(Half(u))), Odd(Half(Half(Half(u)))),
                 Odd(Half(Half(Half(Half(u))))), Above(u)))
  }

  lemma SplitSix(b0: bool, b1: bool, b2: bool, b3: bool, b4: bool, b5: bool, rest: int)
    ensures var r1 := Below(b5, rest); var r2 := Below(b4, r1); var r3 := Below(b3, r2); var r4 := Below(b2, r3);
            var r5 := Below(b1, r4); var v := Below(b0, r5);
            && Odd(v) == b0 && Half(v) == r5 && Odd(r5) == b1 && Half(r5) == r4 && Odd(r4) == b2 && Half(r4) == r3
            && Odd(r3) == b3 && Half(r3) == r2 && Odd(r2) == b4 && Half(r2) == r1 && Odd(r1) == b5 && Half(r1) == rest
  {
    var r1 := Below(b5, rest);
    var r2 := Below(b4, r1);
    var r3 := Below(b3, r2);
    var r4 := Below(b2, r3);
    var r5 := Below(b1, r4);
    hide Below, Odd, Half;
    OddHalf(b5, rest, 0);
    OddHalf(b4, r1, 0);
    OddHalf(b3, r2, 0);
    OddHalf(b2, r3, 0);
    OddHalf(b1, r4, 0);
    OddHalf(b0, r5, 0);
  }

  lemma JoinSix(v: int)
    ensures var h1 := Half(v); var h2 := Half(h1); var h3 := Half(h2); var h4 := Half(h3); var h5 := Half(h4);
            Below(Odd(v), Below(Odd(h1), Below(Odd(h2), Below(Odd(h3), Below(Odd(h4), Below(Odd(h5), Half(h5)))))))
            == v
  {
    hide Below, Odd, Half;
    var h1 := Half(v);
    var h2 := Half(h1);
    var h3 := Half(h2);
    var h4 := Half(h3);
    OddHalf(true, 0, v);
    OddHalf(true, 0, h1);
    OddHalf(true, 0, h2);
    OddHalf(true, 0, h3);
    OddHalf(true, 0, h4);
    OddHalf(true, 0, Half(h4));
  }

  /** Every value of the flags register is one word, and every word is one value. */
  lemma FlagsRoundTrip(f: Flags, v: int)
    requires 0 <= v < WORD_LIMIT
    ensures WordToFlags(FlagsToWord(f)) == f && FlagsToWord(WordToFlags(v)) == v
  {
    hide Below, Odd, Half;
    var y := f.system;
    SplitSix(f.carry, y.bit1, f.parity, y.bit3, y.adjust, y.bit5, HighBits(f));
    SplitSix(f.zero, f.sign, y.trap, y.interrupt, y.direction, f.overflow, y.high);
    JoinSix(v);
    JoinSix(Above(v));
  }

  // ----- The image in memory -----

  const IMAGE_SLOTS := 21

  /** struct pt_regs as words, in the order of their addresses. */
  function ToWords(i: PtRegs): (ws: seq<int>)
    ensures |ws| == IMAGE_SLOTS
  {
    [i.r15, i.r14, i.r13, i.r12, i.rbp, i.rbx, i.r11, i.r10, i.r9, i.r8, i.rax, i.rcx, i.rdx, i.rsi, i.rdi, i.origRax,
     i.rip, i.cs, FlagsToWord(i.eflags), i.rsp, i.ss]
  }

  function FromWords(ws: seq<int>): PtRegs
    requires |ws| == IMAGE_SLOTS && AreWords(ws)
  {
    PtRegs(ws[0], ws[1], ws[2], ws[3], ws[4], ws[5], ws[6], ws[7], ws[8], ws[9], ws[10], ws[11], ws[12], ws[13], ws[14],
           ws[15], ws[16], ws[17], WordToFlags(ws[18]), ws[19], ws[20])
  }

  predicate AreWords(ws: seq<int>) {
    forall j :: 0 <= j < |ws| ==> 0 <= ws[j] < WORD_LIMIT
  }

  function EncodeAll(ws: seq<int>): (bytes: seq<Byte>)
    ensures |bytes| == 8 * |ws|
  {
    if ws == [] then [] else EncodeAll(ws[..|ws| - 1]) + Encode(ws[|ws| - 1])
  }

  function DecodeAll(bytes: seq<Byte>): (ws: seq<int>)
    requires |bytes| % 8 == 0
    ensures 8 * |ws| == |bytes| && AreWords(ws)
  {
    if bytes == [] then [] else
    DecodeBound(bytes[|bytes| - 8..]);
    DecodeAll(bytes[..|bytes| - 8]) + [Decode(bytes[|bytes| - 8..])]
  }

  lemma {:induction false} DecodeEncodeAll(ws: seq<int>)
    requires AreWords(ws)
    ensures DecodeAll(EncodeAll(ws)) == ws
  {
    hide Encode, Decode;
    if ws != [] {
      var n := |ws| - 1;
      var bytes := EncodeAll(ws);
      assert bytes[..|bytes| - 8] == EncodeAll(ws[..n]) && bytes[|bytes| - 8..] == Encode(ws[n]);
      DecodeEncodeAll(ws[..n]);
      DecodeEncode(ws[n]);
    }
  }

  function ImageAt(m: Mem, p: int): PtRegs
    requires InRange(m, p, PT_REGS_SIZE)
  {
    FromWords(DecodeAll(m[p..p + PT_REGS_SIZE]))
  }

  function StoreImage(m: Mem, p: int, i: PtRegs): (r: Mem)
    requires InRange(m, p, PT_REGS_SIZE)
    ensures |r| == |m|
  {
    Write(m, p, EncodeAll(ToWords(i)))
  }

  /** An image reads back as it was stored. */
  lemma ImageStored(m: Mem, p: int, i: PtRegs)
    requires InRange(m, p, PT_REGS_SIZE) && AreWords(ToWords(i))
    ensures ImageAt(StoreImage(m, p, i), p) == i
  {
    hide EncodeAll, DecodeAll, FlagsToWord, WordToFlags;
    var ws := ToWords(i);
    DecodeEncodeAll(ws);
    FlagsRoundTrip(i.eflags, ws[18]);
    assert FromWords(ws) == i;
    assert StoreImage(m, p, i)[p..p + PT_REGS_SIZE] == EncodeAll(ws);
  }

  lemma {:induction false} DecodeAllAt(bytes: seq<Byte>, k: nat)
    requires |bytes| % 8 == 0 && 8 * k + 8 <= |bytes|
    ensures DecodeAll(bytes)[k] == Decode(bytes[8 * k..8 * k + 8])
    decreases |bytes|
  {
    hide Decode;
    var n := |bytes| - 8;
    if 8 * k < n {
      DecodeAllAt(bytes[..n], k);
      assert bytes[..n][8 * k..8 * k + 8] == bytes[8 * k..8 * k + 8];
    } else {
      assert bytes[8 * k..8 * k + 8] == bytes[n..];
    }
  }

  lemma SliceOfSlice(m: Mem, p: int, n: nat, a: nat)
    requires InRange(m, p, n) && a + 8 <= n
    ensures m[p..p + n][a..a + 8] == m[p + a..p + a + 8]
  {
    var whole, part := m[p..p + n], m[p + a..p + a + 8];
    forall k | 0 <= k < 8 ensures whole[a..a + 8][k] == part[k] {
      assert whole[a + k] == m[p + a + k];
    }
  }

  /** The word of memory at `a`. */
  function WordAt(m: Mem, a: int): int
    requires InRange(m, a, 8)
  {
    Decode(m[a..a + 8])
  }

  /** Where the slots of an image are: at the offsets that the handlers and the save and restore functions use. */
  lemma ImageLayout(m: Mem, p: int)
    requires InRange(m, p, PT_REGS_SIZE)
    ensures var i := ImageAt(m, p);
            && i.r15 == WordAt(m, p) && i.r14 == WordAt(m, p + 0x8) && i.r13 == WordAt(m, p + 0x10)
            && i.r12 == WordAt(m, p + 0x18) && i.rbp == WordAt(m, p + 0x20) && i.rbx == WordAt(m, p + 0x28)
            && i.r11 == WordAt(m, p + 0x30) && i.r10 == WordAt(m, p + 0x38) && i.r9 == WordAt(m, p + 0x40)
            && i.r8 == WordAt(m, p + 0x48) && i.rax == WordAt(m, p + 0x50) && i.rcx == WordAt(m, p + 0x58)
            && i.rdx == WordAt(m, p + 0x60) && i.rsi == WordAt(m, p + 0x68) && i.rdi == WordAt(m, p + 0x70)
            && i.origRax == WordAt(m, p + 0x78) && i.rip == WordAt(m, p + 0x80) && i.cs == WordAt(m, p + 0x88)
            && FlagsToWord(i.eflags) == WordAt(m, p + 0x90) && i.rsp == WordAt(m, p + 0x98)
            && i.ss == WordAt(m, p + 0xa0)
  {
    hide DecodeAll, Decode, FlagsToWord, WordToFlags;
    var ws := DecodeAll(m[p..p + PT_REGS_SIZE]);
    forall k: nat | k < IMAGE_SLOTS ensures ws[k] == WordAt(m, p + 8 * k) {
      DecodeAllAt(m[p..p + PT_REGS_SIZE], k);
      SliceOfSlice(m, p, PT_REGS_SIZE, 8 * k);
    }
    FlagsRoundTrip(ImageAt(m, p).eflags, ws[18]);
  }

  lemma SameBytesSameImage(m: Mem, m': Mem, p: int)
    requires InRange(m, p, PT_REGS_SIZE) && InRange(m', p, PT_REGS_SIZE)
    requires forall i :: p <= i < p + PT_REGS_SIZE ==> m[i] == m'[i]
    ensures ImageAt(m', p) == ImageAt(m, p)
  {
    assert m[p..p + PT_REGS_SIZE] == m'[p..p + PT_REGS_SIZE];
  }

  // ----- The handlers -----

  datatype Kind = TimerInterrupt | ExceptionInterrupt(pageFault: bool)

  function ReasonOf(kind: Kind): Reason {
    match kind
    case TimerInterrupt => OnTimer
    case ExceptionInterrupt(pageFault) => if pageFault then OnPageFault else OnException
  }

  /** One more rollback, in total and of the kind of the interrupt. */
  function CountedAs(st: Stats, kind: Kind): Stats {
    var more := st.(total := st.total + 1);
    match kind
    case TimerInterrupt => more.(onTimer := st.onTimer + 1)
    case ExceptionInterrupt(true) => more.(onPageFault := st.onPageFault + 1)
    case ExceptionInterrupt(false) => more.(onException := st.onException + 1)
  }

  /** The image is aligned and lies on the stack, below `top`. */
  predicate ImageBelow(w: Window, top: int) {
    w.regs.Some? && w.regs.value % 8 == 0 && 0 <= w.regs.value && w.regs.value + PT_REGS_SIZE <= top
  }

  /** A speculation is going on, the image lies below its frame, and the saved registers are words. */
  ghost predicate MayHandle(c: Setup, s: Rt, w: Window, area: PtRegs) {
    Shape(s) && Speculation.Inv(c, s) && s.inSpec && ImageBelow(w, s.stackAt) && AreWords(ToWords(area))
  }

  /** An interrupt may come at every moment of every speculation. */
  lemma MayAlwaysHandle(
    c: Setup, s: Rt, ck: Speculation.Event, ins: seq<Speculation.Input>, w: Window, area: PtRegs)
    requires Speculation.SetupOk(c) && Shape(s) && Speculation.Inv(c, s)
    requires Speculation.EventOk(s.mem, ck) && Speculation.Takes(s, ck) && Speculation.InputsOk(s.mem, ins)
    requires Speculation.StaysInSpec(c, Speculation.Step(c, s, ck, w).s, ins)
    requires ImageBelow(w, ck.rsp) && AreWords(ToWords(area))
    ensures MayHandle(c, Speculation.Run(c, Speculation.Step(c, s, ck, w).s, ins).s, w, area)
  {
    hide ToWords, AreWords, Speculation.Inv;
    Speculation.StepInv(c, s, ck, w);
    Speculation.SpecKeepsSnapshot(c, Speculation.Step(c, s, ck, w).s, ins);
  }

  /** The first checkpoint after the start, at a stack with room for an image, is such a moment. */
  lemma MayHandleFirst(c: Setup, m: Mem, base: int, rsp: int, w: Window, area: PtRegs)
    requires Speculation.SetupOk(c) && 0 <= rsp <= base <= |m| && ImageBelow(w, rsp) && AreWords(ToWords(area))
    ensures MayHandle(c, HookCheckpoint(Init(m), true, true, base, rsp), w, area)
  {
    hide ToWords, AreWords;
    MayAlwaysHandle(c, Init(m), Speculation.Checkpoint(true, true, base, rsp), [], w, area);
  }

  /**
    * The handler: it puts the saved registers into the image, restarts, and asserts that the image still
    * leads to the checkpoint. The assertion holds whatever has been logged; and the return through the
    * image leads where the synchronous way back would, with all registers but rdx, rsi and rdi the same.
    */
  method Handle(c: Setup, s: Rt, kind: Kind, w: Window, area: PtRegs)
    returns (r: Outcome, image: PtRegs, sound: bool)
    requires MayHandle(c, s, w, area)
    ensures Shape(r.s) && |r.s.mem| == |s.mem| && !r.s.inSpec
    ensures sound && image.rip == area.rip
    ensures image == ImageAt(r.s.mem, w.regs.value)
    ensures image == area.(origRax := image.origRax, cs := image.cs, ss := image.ss)
    ensures r.s.stats == if s.assertion then s.stats else CountedAs(s.stats, kind)
    ensures r.exit == if s.assertion || !AllRestorable(c, s.log, w) then Panics else Resumes
    ensures forall now: Regs :: Agree(SyncResume(area, now), InterruptResume(image))
    ensures forall i :: 0 <= i < |s.mem| && !(w.regs.value <= i < w.regs.value + PT_REGS_SIZE) ==>
              r.s.mem[i] == Restart(c, s, ReasonOf(kind), w).s.mem[i]
  {
    hide DecodeAll, EncodeAll, ToWords, FromWords, Restored, Speculation.Inv;
    var p := w.regs.value;
    image := ImageAt(s.mem, p);
    CopiedWords(area, DecodeAll(s.mem[p..p + PT_REGS_SIZE]), image);
    image := CopyToImage(area, image);
    var s1 := s.(mem := StoreImage(s.mem, p, image));
    ImageStored(s.mem, p, image);
    InvKeepsMem(c, s, s1);
    r := Restart(c, s1, ReasonOf(kind), w);
    forall i | p <= i < p + PT_REGS_SIZE ensures r.s.mem[i] == s1.mem[i] {
      Speculation.ImageSurvives(c, s1, ReasonOf(kind), w, i);
    }
    SameBytesSameImage(s1.mem, r.s.mem, p);
    image := ImageAt(r.s.mem, p);
    sound := image.rip == area.rip;
    forall i | 0 <= i < |s.mem| && !(p <= i < p + PT_REGS_SIZE)
      ensures r.s.mem[i] == Restart(c, s, ReasonOf(kind), w).s.mem[i]
    {
      RestoresElsewhere(c, s, s1.mem, ReasonOf(kind), w, i);
    }
  }

  lemma CopiedWords(area: PtRegs, ws: seq<int>, image: PtRegs)
    requires AreWords(ToWords(area)) && |ws| == IMAGE_SLOTS && AreWords(ws) && image == FromWords(ws)
    ensures AreWords(ToWords(area.(origRax := image.origRax, cs := image.cs, ss := image.ss)))
  {
    hide FlagsToWord, WordToFlags;
    var a := ToWords(area);
    assert ToWords(area.(origRax := image.origRax, cs := image.cs, ss := image.ss))
        == a[15 := ws[15]][17 := ws[17]][20 := ws[20]];
  }

  lemma InvKeepsMem(c: Setup, s: Rt, s1: Rt)
    requires Speculation.Inv(c, s) && s1 == s.(mem := s1.mem)
    ensures Speculation.Inv(c, s1)
  {
  }

  /** A byte that is the same before a restart is the same after it. */
  lemma RestoresElsewhere(c: Setup, s: Rt, m: Mem, t: Reason, w: Window, i: int)
    requires Shape(s) && s.inSpec && t != OnReturn && |m| == |s.mem| && 0 <= i < |m| && m[i] == s.mem[i]
    ensures Restart(c, s.(mem := m), t, w).s.mem[i] == Restart(c, s, t, w).s.mem[i]
  {
    hide AllRestorable, AddRestart, AddTrace, Replay;
    ReplayIgnoresCovered(s.mem, m, s.log, w, i);
    assert Restored(s.(mem := m), w)[i] == Restored(s, w)[i];
  }
}
