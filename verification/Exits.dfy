/**
  * When the hooks return and when they roll back: the exact conditions, told by what has happened since
  * the checkpoint, and what each of them leaves behind.
  */
module Exits {
  import opened Bytes
  import opened UndoLog
  import opened Runtime
  import opened Rollback
  import opened Speculation

  /** A checkpoint is taken, and after `ins` its speculation still goes on. */
  ghost predicate Speculating(c: Setup, s: Rt, ck: Event, ins: seq<Input>, w: Window) {
    && SetupOk(c) && Shape(s) && Inv(c, s) && EventOk(s.mem, ck) && Takes(s, ck)
    && InputsOk(s.mem, ins) && StaysInSpec(c, Step(c, s, ck, w).s, ins)
  }

  ghost function Now(c: Setup, s: Rt, ck: Event, ins: seq<Input>, w: Window): (r: Rt)
    requires Speculating(c, s, ck, ins, w)
    ensures Shape(r) && |r.mem| == |s.mem|
  {
    Run(c, Step(c, s, ck, w).s, ins).s
  }

  lemma NowFacts(c: Setup, s: Rt, ck: Event, ins: seq<Input>, w: Window)
    requires Speculating(c, s, ck, ins, w)
    ensures var r := Now(c, s, ck, ins, w);
            && Inv(c, r) && r.inSpec
            && r.callDepth == Entries(ins) - Returns(ins)
            && r.instrCount == Charges(ins)
            && (r.inRestart <==> Returns(ins) > 0)
  {
    hide StaysInSpec, Run, Inv;
    var s1 := Step(c, s, ck, w).s;
    CheckpointFacts(c, s, ck, w);
    BoundedWindow(c, s1, ins);
    StaleIffReturned(c, s1, ins);
    SpecKeepsSnapshot(c, s1, ins);
  }

  lemma CheckpointFacts(c: Setup, s: Rt, ck: Event, w: Window)
    requires SetupOk(c) && Shape(s) && Inv(c, s) && EventOk(s.mem, ck) && Takes(s, ck)
    ensures var r := Step(c, s, ck, w).s;
            && Inv(c, r) && r.inSpec && r.callDepth == 0 && r.instrCount == 0 && r.log == []
            && !r.inRestart && !r.assertion && r.trace == [NewCheckpoint] && r.mem == s.mem
            && (r.swap <==> ck.swapEnabled)
  {
    StepInv(c, s, ck, w);
  }

  // ----- Calls, returns and blocks -----

  /**
    * A return goes on if and only if more functions have been entered than left since the checkpoint and
    * no failed assertion is recorded. It leaves memory and the log alone.
    */
  lemma ReturnGoesOnIff(c: Setup, s: Rt, ck: Event, ins: seq<Input>, w: Window)
    requires Speculating(c, s, ck, ins, w)
    ensures var s2 := Now(c, s, ck, ins, w);
            var r := Step(c, s2, RestartHook(OnReturn), w);
            && (r.exit == Continues <==> !s2.assertion && Entries(ins) > Returns(ins))
            && (r.exit == Continues ==> r.s.inSpec && r.s.mem == s2.mem && r.s.log == s2.log && r.s.stats == s2.stats)
  {
    hide StaysInSpec, Run, Restored, AllRestorable;
    NowFacts(c, s, ck, ins, w);
  }

  /** Every other reason ends the speculation. */
  lemma OtherReasonsEnd(c: Setup, s: Rt, ck: Event, ins: seq<Input>, t: Reason, w: Window)
    requires Speculating(c, s, ck, ins, w) && t != OnReturn
    ensures Step(c, Now(c, s, ck, ins, w), RestartHook(t), w).exit != Continues
  {
    hide StaysInSpec, Run, Restored, AllRestorable;
    NowFacts(c, s, ck, ins, w);
  }

  /** An entry goes on if and only if the functions entered and not left, itself included, are below the limit. */
  lemma EntryGoesOnIff(c: Setup, s: Rt, ck: Event, ins: seq<Input>, w: Window)
    requires Speculating(c, s, ck, ins, w)
    ensures Step(c, Now(c, s, ck, ins, w), Enter, w).exit == Continues
            <==> Entries(ins) + 1 - Returns(ins) < c.maxDepth
  {
    hide StaysInSpec, Run, Restored, AllRestorable;
    NowFacts(c, s, ck, ins, w);
  }

  /** The end of a block goes on if and only if all charges since the checkpoint are below the limit, its own too. */
  lemma BlockGoesOnIff(c: Setup, s: Rt, ck: Event, ins: seq<Input>, n: int, w: Window)
    requires Speculating(c, s, ck, ins, w) && n >= 1
    ensures Step(c, Now(c, s, ck, ins, w), BlockEnd(n), w).exit == Continues <==> Charges(ins) + n < c.maxInstr
  {
    hide StaysInSpec, Run, Restored, AllRestorable;
    NowFacts(c, s, ck, ins, w);
  }

  /** A checkpoint hook and a branch in speculation change nothing but the trace and the swap flag. */
  lemma OthersGoOn(c: Setup, s: Rt, ck: Event, ins: seq<Input>, e: Event, w: Window)
    requires Speculating(c, s, ck, ins, w) && EventOk(s.mem, e) && (e.Checkpoint? || e.Branch?)
    ensures var s2 := Now(c, s, ck, ins, w);
            EventOk(s2.mem, e) && var r := Step(c, s2, e, w);
            && r.exit == Continues && r.s == s2.(trace := r.s.trace, swap := r.s.swap)
            && (r.s.swap <==> s2.swap && !e.Branch?)
  {
    hide StaysInSpec, Run;
    NowFacts(c, s, ck, ins, w);
  }

  // ----- The log -----

  /** An ordinary word: neither in the arrays nor one of the two exempt variables. */
  predicate Ordinary(c: Setup, b: int) {
    && !(c.addrs <= b < c.addrs + ARRAY_BYTES) && !(c.data <= b < c.data + ARRAY_BYTES)
    && b != c.position && b != c.enabled
  }

  /** All words that the hook of a write comes to are ordinary. */
  ghost predicate OrdinaryOp(c: Setup, op: Op) {
    match op
    case Store(a, _) => forall b :: b % 8 == 0 && a - 8 < b < a + 8 ==> Ordinary(c, b)
    case Copy(a, bytes) => forall b :: b % 8 == 0 && a - 8 < b < a + |bytes| + 8 ==> Ordinary(c, b)
    case Unlogged(_, _) => true
  }

  /** How many words the logging of an address takes. */
  function WordsAt(a: int): int {
    if a % 8 == 0 then 1 else 2
  }

  /** How many words the loop over [reg, end) takes. */
  function WordsIn(reg: int, end: int): int {
    if reg >= end then 0 else WordsAt(reg) * ((end - reg + 7) / 8)
  }

  function WordsOf(op: Op): int {
    match op
    case Store(a, _) => WordsAt(a)
    case Copy(a, bytes) => WordsIn(a - a % 4, a + |bytes|)
    case Unlogged(_, _) => 0
  }

  /** Whether a hook that logs `n` words finds room for them, and logs them. */
  ghost predicate TakesWords(c: Setup, s: Rt, r: Outcome, n: int) {
    && (r.exit == Continues <==> 8 * (|s.log| + n) <= ARRAY_BYTES)
    && (r.exit == Continues ==> |r.s.log| == |s.log| + n && r.s.inSpec && Inv(c, r.s))
  }

  lemma LogAlignedTakes(c: Setup, s: Rt, a: int, w: Window)
    requires Shape(s) && InRange(s.mem, a, 8) && a % 8 == 0 && Inv(c, s) && s.inSpec && Ordinary(c, a)
    ensures TakesWords(c, s, LogAligned(c, s, a, w), 1)
  {
    hide Inv, Restored, AllRestorable;
    LogAlignedInv(c, s, a, w);
  }

  lemma WriteWlTakes(c: Setup, s: Rt, a: int, w: Window)
    requires Shape(s) && Loggable(s.mem, a) && Inv(c, s) && s.inSpec
    requires Ordinary(c, Align(a)) && (a % 8 != 0 ==> Ordinary(c, Align(a) + 8))
    ensures TakesWords(c, s, WriteWl(c, s, a, w), WordsAt(a))
  {
    hide LogAligned, Inv, Ordinary;
    LogBound(c, s);
    if a % 8 != 0 {
      LogAlignedTakes(c, s, Align(a) + 8, w);
      var r := LogAligned(c, s, Align(a) + 8, w);
      if r.exit == Continues {
        LogAlignedTakes(c, r.s, Align(a), w);
      }
    } else {
      LogAlignedTakes(c, s, Align(a), w);
    }
  }

  lemma LogBound(c: Setup, s: Rt)
    requires Inv(c, s)
    ensures 8 * |s.log| <= ARRAY_BYTES
  {
  }

  lemma WordsInStep(reg: int, end: int)
    requires reg < end
    ensures WordsIn(reg, end) == WordsAt(reg) + WordsIn(reg + 8, end)
    ensures WordsIn(reg + 8, end) >= 0
  {
    assert WordsAt(reg + 8) == WordsAt(reg);
    if reg + 8 < end {
      assert (end - reg + 7) / 8 == 1 + (end - (reg + 8) + 7) / 8;
    } else {
      assert (end - reg + 7) / 8 == 1;
    }
  }

  lemma {:induction false} LogRangeTakes(c: Setup, s: Rt, reg: int, end: int, w: Window)
    requires Shape(s) && RangeLoggable(s.mem, reg, end) && Inv(c, s) && s.inSpec && reg % 4 == 0
    requires forall b :: b % 8 == 0 && reg - 8 < b < end + 8 ==> Ordinary(c, b)
    ensures TakesWords(c, s, LogRange(c, s, reg, end, w), WordsIn(reg, end))
    decreases end - reg
  {
    hide WriteWl, Inv, Ordinary, WordsIn, WordsAt, Align;
    LogBound(c, s);
    if reg < end {
      WordsInStep(reg, end);
      AlignFacts(reg);
      WriteWlTakes(c, s, reg, w);
      var r := WriteWl(c, s, reg, w);
      if r.exit == Continues {
        RangeLoggableSameSize(s.mem, r.s.mem, reg, end);
        LogRangeTakes(c, r.s, reg + 8, end, w);
      }
    } else {
      NoWords(reg, end);
    }
  }

  lemma NoWords(reg: int, end: int)
    requires reg >= end
    ensures WordsIn(reg, end) == 0
  {
  }

  lemma StoreTakes(c: Setup, s: Rt, a: int, w: Window)
    requires Shape(s) && Loggable(s.mem, a) && Inv(c, s) && s.inSpec
    requires forall b :: b % 8 == 0 && a - 8 < b < a + 8 ==> Ordinary(c, b)
    ensures TakesWords(c, s, HookStore(c, s, a, w), WordsAt(a))
  {
    hide WriteWl, Inv, Ordinary, WordsAt;
    LogFollowsSpec(c, s);
    assert Align(a) % 8 == 0 && a - 8 < Align(a) <= a;
    WriteWlTakes(c, s, a, w);
  }

  /** The first word of a copy overlaps its destination. */
  lemma FirstWord(a: int, b: int)
    requires b % 8 == 0 && a - a % 4 - 8 < b
    ensures a - 8 < b && (a - a % 4) % 4 == 0
  {
    var q := a / 4;
    assert a == 4 * q + a % 4;
    var k := b / 8;
    assert b == 8 * k;
  }

  lemma CopyTakes(c: Setup, s: Rt, a: int, n: nat, w: Window)
    requires Shape(s) && RangeLoggable(s.mem, CopyStart(a), a + n) && Inv(c, s) && s.inSpec
    requires forall b :: b % 8 == 0 && a - 8 < b < a + n + 8 ==> Ordinary(c, b)
    ensures TakesWords(c, s, HookMemcpy(c, s, a, n, w), WordsIn(a - a % 4, a + n))
  {
    hide LogRange, Inv, Ordinary, WordsIn, RangeLoggable;
    LogFollowsSpec(c, s);
    var start := a - a % 4;
    forall b | b % 8 == 0 && start - 8 < b < a + n + 8 ensures Ordinary(c, b) {
      FirstWord(a, b);
    }
    LogRangeTakes(c, s, start, a + n, w);
  }

  lemma OpTakes(c: Setup, s: Rt, op: Op, w: Window)
    requires Shape(s) && OpOk(s.mem, op) && Inv(c, s) && s.inSpec && OrdinaryOp(c, op)
    ensures TakesWords(c, s, DoOp(c, s, op, w), WordsOf(op))
  {
    hide HookStore, HookMemcpy, Inv, Ordinary, WordsIn, WordsAt, Write, Loggable, RangeLoggable;
    LogBound(c, s);
    MemoryInv(c, s, op, w);
    match op
    case Store(a, bytes) => StoreTakes(c, s, a, w);
    case Copy(a, bytes) => CopyTakes(c, s, a, |bytes|, w);
    case Unlogged(_, _) =>
  }

  /** The words that a run logs. */
  function Words(ins: seq<Input>): int {
    if ins == [] then 0 else (if ins[0].e.Memory? then WordsOf(ins[0].e.op) else 0) + Words(ins[1..])
  }

  ghost predicate AllOrdinary(c: Setup, ins: seq<Input>) {
    forall k :: 0 <= k < |ins| && ins[k].e.Memory? ==> OrdinaryOp(c, ins[k].e.op)
  }

  lemma {:induction false} RunTakes(c: Setup, s: Rt, ins: seq<Input>)
    requires Shape(s) && InputsOk(s.mem, ins) && SetupOk(c) && Inv(c, s) && StaysInSpec(c, s, ins)
    requires AllOrdinary(c, ins)
    ensures |Run(c, s, ins).s.log| == |s.log| + Words(ins)
    decreases |ins|
  {
    hide Step, Inv, OrdinaryOp, WordsOf;
    if ins != [] {
      var e, w := ins[0].e, ins[0].w;
      var r := Step(c, s, e, w);
      StepInv(c, s, e, w);
      StepTakes(c, s, e, w);
      InputsOkSameSize(s.mem, r.s.mem, ins);
      RunTakes(c, r.s, ins[1..]);
    }
  }

  lemma StepTakes(c: Setup, s: Rt, e: Event, w: Window)
    requires Shape(s) && EventOk(s.mem, e) && Inv(c, s) && s.inSpec && Step(c, s, e, w).exit == Continues
    requires e.Memory? ==> OrdinaryOp(c, e.op)
    ensures |Step(c, s, e, w).s.log| == |s.log| + if e.Memory? then WordsOf(e.op) else 0
  {
    hide OrdinaryOp, WordsOf, DoOp, Restored, AllRestorable;
    if e.Memory? {
      OpTakes(c, s, e.op, w);
    }
  }

  /**
    * A store or a copy goes on if and only if the slots of the arrays suffice for the words logged since
    * the checkpoint and its own. A store takes one word, or two at an unaligned address; a copy takes that
    * many for every eight bytes from the last multiple of four.
    */
  lemma WriteGoesOnIff(c: Setup, s: Rt, ck: Event, ins: seq<Input>, op: Op, w: Window)
    requires Speculating(c, s, ck, ins, w) && OpOk(s.mem, op) && AllOrdinary(c, ins) && OrdinaryOp(c, op)
    ensures OpOk(Now(c, s, ck, ins, w).mem, op)
    ensures Step(c, Now(c, s, ck, ins, w), Memory(op), w).exit == Continues
            <==> 8 * (Words(ins) + WordsOf(op)) <= ARRAY_BYTES
  {
    hide StaysInSpec, Run, Inv, OrdinaryOp, WordsOf, DoOp;
    var s2 := Now(c, s, ck, ins, w);
    SameSizeOpOk(s.mem, s2.mem, op);
    NowFacts(c, s, ck, ins, w);
    CheckpointFacts(c, s, ck, w);
    RunTakes(c, Step(c, s, ck, w).s, ins);
    OpTakes(c, s2, op, w);
  }

  lemma SameSizeOpOk(m: Mem, m': Mem, op: Op)
    requires |m| == |m'| && OpOk(m, op)
    ensures OpOk(m', op)
  {
    if op.Copy? {
      RangeLoggableSameSize(m, m', CopyStart(op.addr), op.addr + |op.bytes|);
    }
  }

  // ----- What is logged -----

  /** The words that the logging of an address takes, the last one first. */
  function AddrsAt(a: int): seq<int> {
    if a % 8 == 0 then [a] else [a - a % 8 + 8, a - a % 8]
  }

  /** The words of a range. */
  function AddrsIn(reg: int, end: int): seq<int>
    decreases end - reg
  {
    if reg >= end then [] else AddrsAt(reg) + AddrsIn(reg + 8, end)
  }

  function AddrsOf(op: Op): seq<int> {
    match op
    case Store(a, _) => AddrsAt(a)
    case Copy(a, bytes) => AddrsIn(a - a % 4, a + |bytes|)
    case Unlogged(_, _) => []
  }

  function LogAddrs(s: Rt): seq<int> {
    seq(|s.log|, k requires 0 <= k < |s.log| => s.log[k].addr)
  }

  lemma LogAlignedAppends(c: Setup, s: Rt, a: int, w: Window)
    requires Shape(s) && InRange(s.mem, a, 8) && s.inSpec && Ordinary(c, a)
    requires LogAligned(c, s, a, w).exit == Continues
    ensures LogAddrs(LogAligned(c, s, a, w).s) == LogAddrs(s) + [a]
  {
    hide Restored, AllRestorable;
  }

  lemma WriteWlAppends(c: Setup, s: Rt, a: int, w: Window)
    requires Shape(s) && Loggable(s.mem, a) && s.inSpec && Ordinary(c, Align(a))
    requires a % 8 != 0 ==> Ordinary(c, Align(a) + 8)
    requires WriteWl(c, s, a, w).exit == Continues
    ensures LogAddrs(WriteWl(c, s, a, w).s) == LogAddrs(s) + AddrsAt(a)
  {
    hide LogAligned, Ordinary, LogAddrs;
    if a % 8 != 0 {
      LogAlignedAppends(c, s, Align(a) + 8, w);
      LogAlignedOnlyLogs(c, s, Align(a) + 8, w);
      LogAlignedAppends(c, LogAligned(c, s, Align(a) + 8, w).s, Align(a), w);
      assert LogAddrs(s) + [Align(a) + 8] + [Align(a)] == LogAddrs(s) + AddrsAt(a);
    } else {
      LogAlignedAppends(c, s, Align(a), w);
    }
  }

  lemma {:induction false} LogRangeAppends(c: Setup, s: Rt, reg: int, end: int, w: Window)
    requires Shape(s) && RangeLoggable(s.mem, reg, end) && s.inSpec && reg % 4 == 0
    requires forall b :: b % 8 == 0 && reg - 8 < b < end + 8 ==> Ordinary(c, b)
    requires LogRange(c, s, reg, end, w).exit == Continues
    ensures LogAddrs(LogRange(c, s, reg, end, w).s) == LogAddrs(s) + AddrsIn(reg, end)
    decreases end - reg
  {
    hide WriteWl, Ordinary, LogAddrs, AddrsAt, Align, AddrsIn;
    if reg < end {
      AlignFacts(reg);
      AddrsInStep(reg, end);
      WriteWlAppends(c, s, reg, w);
      WriteWlOnlyLogs(c, s, reg, w);
      var r := WriteWl(c, s, reg, w);
      RangeLoggableSameSize(s.mem, r.s.mem, reg, end);
      LogRangeAppends(c, r.s, reg + 8, end, w);
      assert LogAddrs(s) + AddrsAt(reg) + AddrsIn(reg + 8, end) == LogAddrs(s) + AddrsIn(reg, end);
    } else {
      AddrsInNone(reg, end);
      assert LogAddrs(s) + [] == LogAddrs(s);
    }
  }

  lemma AlignFacts(a: int)
    ensures Align(a) % 8 == 0 && (Align(a) + 8) % 8 == 0 && a - 8 < Align(a) <= a
  {
  }

  lemma AddrsInStep(reg: int, end: int)
    requires reg < end
    ensures AddrsIn(reg, end) == AddrsAt(reg) + AddrsIn(reg + 8, end)
  {
  }

  lemma AddrsInNone(reg: int, end: int)
    requires reg >= end
    ensures AddrsIn(reg, end) == []
  {
  }

  /**
    * A store or a copy that goes on has logged exactly its words, in the order of the loop and of an
    * unaligned word the later half first, each with its contents before the write.
    */
  lemma LogIsExact(c: Setup, s: Rt, op: Op, w: Window)
    requires Shape(s) && OpOk(s.mem, op) && Inv(c, s) && s.inSpec && OrdinaryOp(c, op)
    requires DoOp(c, s, op, w).exit == Continues
    ensures var r := DoOp(c, s, op, w).s;
            && s.log <= r.log && LogAddrs(r) == LogAddrs(s) + AddrsOf(op)
            && forall k :: |s.log| <= k < |r.log| ==> r.log[k].data == ReadWord(s.mem, r.log[k].addr)
  {
    hide WriteWl, LogRange, Ordinary, LogAddrs, AddrsAt, AddrsIn;
    LogFollowsSpec(c, s);
    OpHookFaithful(c, s, op, w);
    match op
    case Store(a, bytes) =>
      assert Align(a) % 8 == 0 && a - 8 < Align(a) <= a;
      WriteWlAppends(c, s, a, w);
      SameLogAddrs(OpHook(c, s, op, w).s, DoOp(c, s, op, w).s);
    case Copy(a, bytes) =>
      CopyAppends(c, s, a, |bytes|, w);
      SameLogAddrs(OpHook(c, s, op, w).s, DoOp(c, s, op, w).s);
    case Unlogged(_, _) =>
      SameLogAddrs(s, DoOp(c, s, op, w).s);
  }

  lemma SameLogAddrs(s: Rt, s': Rt)
    requires s.log == s'.log
    ensures LogAddrs(s) == LogAddrs(s')
  {
  }

  lemma CopyAppends(c: Setup, s: Rt, a: int, n: nat, w: Window)
    requires Shape(s) && RangeLoggable(s.mem, CopyStart(a), a + n) && s.inSpec && s.logEnabled
    requires forall b :: b % 8 == 0 && a - 8 < b < a + n + 8 ==> Ordinary(c, b)
    requires HookMemcpy(c, s, a, n, w).exit == Continues
    ensures LogAddrs(HookMemcpy(c, s, a, n, w).s) == LogAddrs(s) + AddrsIn(a - a % 4, a + n)
  {
    hide LogRange, Ordinary, LogAddrs, AddrsIn, RangeLoggable;
    var start := a - a % 4;
    forall b | b % 8 == 0 && start - 8 < b < a + n + 8 ensures Ordinary(c, b) {
      FirstWord(a, b);
    }
    LogRangeAppends(c, s, start, a + n, w);
  }

  /** A word of one of the arrays. */
  predicate OfArrays(c: Setup, b: int) {
    c.addrs <= b < c.addrs + ARRAY_BYTES || c.data <= b < c.data + ARRAY_BYTES
  }

  /** The assertion fails: it is recorded if the in-restart flag is set, and panics if not. */
  ghost predicate Asserts(s: Rt, r: Outcome) {
    if s.inRestart then r.exit == Continues && r.s.assertion else r.exit == Panics
  }

  lemma LogAlignedHits(c: Setup, s: Rt, a: int, w: Window)
    requires Shape(s) && InRange(s.mem, a, 8) && s.inSpec && 8 * (|s.log| + 1) <= ARRAY_BYTES
    ensures var r := LogAligned(c, s, a, w);
            && (OfArrays(c, a) ==> Asserts(s, r))
            && (!OfArrays(c, a) ==> r.exit == Continues)
            && (r.exit == Continues ==> |r.s.log| <= |s.log| + 1)
  {
    hide Restored, AllRestorable;
  }

  lemma StoreHits(c: Setup, s: Rt, a: int, bytes: seq<Byte>, w: Window)
    requires Shape(s) && OpOk(s.mem, Op.Store(a, bytes)) && s.inSpec && Inv(c, s)
    requires 8 * (|s.log| + WordsAt(a)) <= ARRAY_BYTES
    requires OfArrays(c, Align(a)) || (a % 8 != 0 && OfArrays(c, Align(a) + 8))
    ensures Asserts(s, DoOp(c, s, Op.Store(a, bytes), w))
  {
    hide LogAligned, OfArrays;
    if a % 8 != 0 {
      LogAlignedHits(c, s, Align(a) + 8, w);
      LogAlignedOnlyLogs(c, s, Align(a) + 8, w);
      var r := LogAligned(c, s, Align(a) + 8, w);
      if r.exit == Continues {
        LogAlignedHits(c, r.s, Align(a), w);
        LogAlignedOnlyLogs(c, r.s, Align(a), w);
      }
    } else {
      LogAlignedHits(c, s, Align(a), w);
    }
  }

  /**
    * A store that touches the arrays, while there is room in them, panics with memory rolled back, unless a
    * nested call has returned since the checkpoint.
    */
  lemma StoreIntoArrays(c: Setup, s: Rt, ck: Event, ins: seq<Input>, a: int, bytes: seq<Byte>, i: int, w: Window)
    requires Speculating(c, s, ck, ins, w) && OpOk(s.mem, Op.Store(a, bytes)) && AllOrdinary(c, ins)
    requires c.addrs % 8 == 0 && c.data % 8 == 0 && a <= i < a + |bytes|
    requires OfArrays(c, i) && 8 * (Words(ins) + WordsAt(a)) <= ARRAY_BYTES
    ensures OpOk(Now(c, s, ck, ins, w).mem, Op.Store(a, bytes))
    ensures var s2 := Now(c, s, ck, ins, w);
            var r := Step(c, s2, Memory(Op.Store(a, bytes)), w);
            if Returns(ins) > 0 then r.exit == Continues && r.s.assertion
            else r.exit == Panics && r.s.mem == Restored(s2, w)
  {
    hide StaysInSpec, Run, Inv, DoOp, WriteWl;
    var s2 := Now(c, s, ck, ins, w);
    SameSizeOpOk(s.mem, s2.mem, Op.Store(a, bytes));
    NowFacts(c, s, ck, ins, w);
    CheckpointFacts(c, s, ck, w);
    RunTakes(c, Step(c, s, ck, w).s, ins);
    assert Align(i) == Align(a) || (a % 8 != 0 && Align(i) == Align(a) + 8);
    StoreHits(c, s2, a, bytes, w);
    ReturnsNotNegative(ins);
    if Returns(ins) == 0 {
      EndRestores(c, s2, Memory(Op.Store(a, bytes)), w);
    }
  }

  /** A write that went on is in memory, and nothing else has changed there. */
  lemma WriteTakesEffect(c: Setup, s: Rt, op: Op, w: Window, i: int)
    requires Shape(s) && OpOk(s.mem, op) && Inv(c, s) && 0 <= i < |s.mem| && DoOp(c, s, op, w).exit == Continues
    ensures DoOp(c, s, op, w).s.mem[i]
         == if op.addr <= i < op.addr + |op.bytes| then op.bytes[i - op.addr] else s.mem[i]
  {
    hide WriteWl, LogRange;
    if s.inSpec {
      OpHookFaithful(c, s, op, w);
    }
  }

  /** An address can be logged if and only if the words it takes lie in memory. */
  lemma LoggableIff(m: Mem, a: int)
    ensures Loggable(m, a) <==> forall b :: b % 8 == 0 && a - 8 < b < a + 8 ==> 0 <= b && b + 8 <= |m|
  {
    var b := a - a % 8;
    assert b % 8 == 0 && (b + 8) % 8 == 0 && a - 8 < b <= a;
  }

  /** If a word begins at `b`, it lies in memory. */
  predicate WordFits(m: Mem, b: int) {
    b % 8 == 0 ==> 0 <= b && b + 8 <= |m|
  }

  /** The words that the loop over a range takes lie in memory. */
  ghost predicate WordsFit(m: Mem, reg: int, end: int) {
    reg < end ==> forall b :: reg - 8 < b < end + reg % 8 ==> WordFits(m, b)
  }

  lemma WordsFitStep(m: Mem, reg: int, end: int)
    requires reg % 4 == 0 && reg < end
    ensures WordsFit(m, reg, end) <==> Loggable(m, reg) && WordsFit(m, reg + 8, end)
  {
    hide WordFits, Loggable, Align;
    AlignFacts(reg);
    LoggableByWords(m, reg);
    if Loggable(m, reg) && WordsFit(m, reg + 8, end) {
      forall b | reg - 8 < b < end + reg % 8 ensures WordFits(m, b) {
        WordsApart(m, reg, b);
      }
    }
  }

  lemma LoggableByWords(m: Mem, reg: int)
    requires reg % 4 == 0
    ensures Loggable(m, reg) <==> WordFits(m, Align(reg)) && (reg % 8 != 0 ==> WordFits(m, Align(reg) + 8))
    ensures reg % 8 != 0 ==> reg % 8 == 4 && Align(reg) == reg - 4
  {
    AlignFacts(reg);
  }

  lemma WordsApart(m: Mem, a: int, b: int)
    requires a - 8 < b && a % 4 == 0
    ensures b == Align(a) || (a % 8 != 0 && b == Align(a) + 8) || b > a || b % 8 != 0
    ensures b % 8 != 0 ==> WordFits(m, b)
  {
  }

  /** So can a range if and only if all the words that its loop takes do. */
  lemma {:induction false} RangeLoggableIff(m: Mem, reg: int, end: int)
    requires reg % 4 == 0
    ensures RangeLoggable(m, reg, end) <==> WordsFit(m, reg, end)
    decreases end - reg
  {
    hide Loggable, WordsFit;
    if reg < end {
      WordsFitStep(m, reg, end);
      RangeLoggableIff(m, reg + 8, end);
    } else {
      EmptyFits(m, reg, end);
    }
  }

  lemma EmptyFits(m: Mem, reg: int, end: int)
    requires reg >= end
    ensures WordsFit(m, reg, end)
  {
  }

  // ----- Outside speculation -----

  /** Outside speculation the hooks do nothing, and only a checkpoint that is admitted begins one. */
  lemma IdleOutside(c: Setup, s: Rt, e: Event, w: Window)
    requires Shape(s) && EventOk(s.mem, e) && Inv(c, s) && !s.inSpec
    ensures var r := Step(c, s, e, w);
            && (r.exit == if e.AssertFails? then Panics else Continues)
            && (r.s.inSpec <==> e.Checkpoint? && e.admitted)
            && (!r.s.inSpec ==> r.s == s.(mem := r.s.mem))
            && (!e.Memory? ==> r.s.mem == s.mem)
  {
  }

  predicate NoneAdmitted(ins: seq<Input>) {
    forall k :: 0 <= k < |ins| && ins[k].e.Checkpoint? ==> !ins[k].e.admitted
  }

  /** If the tests of the kernel admit no checkpoint, none is taken in the whole run, and nothing is speculated. */
  lemma {:induction false} NothingWithoutAdmission(c: Setup, s: Rt, ins: seq<Input>)
    requires Shape(s) && InputsOk(s.mem, ins) && SetupOk(c) && Inv(c, s) && !s.inSpec && NoneAdmitted(ins)
    ensures var r := Run(c, s, ins);
            !r.s.inSpec && Taken(c, s, ins) == 0 && r.s == s.(mem := r.s.mem)
    decreases |ins|
  {
    hide Step, Inv;
    if ins != [] {
      var e, w := ins[0].e, ins[0].w;
      IdleOutside(c, s, e, w);
      StepInv(c, s, e, w);
      var r := Step(c, s, e, w);
      NotTaken(s, e);
      if r.exit != Panics {
        InputsOkSameSize(s.mem, r.s.mem, ins);
        NothingWithoutAdmission(c, r.s, ins[1..]);
      }
    }
  }

  lemma NotTaken(s: Rt, e: Event)
    requires e.Checkpoint? ==> !e.admitted
    ensures !Takes(s, e)
  {
  }

  /** Outside speculation a checkpoint is taken if and only if the tests of the kernel admit it. */
  lemma TakenIffAdmitted(c: Setup, s: Rt, e: Event, w: Window)
    requires Shape(s) && EventOk(s.mem, e) && Inv(c, s) && SetupOk(c) && e.Checkpoint?
    ensures Takes(s, e) <==> e.admitted && !s.inSpec
    ensures Takes(s, e) ==>
              var r := Step(c, s, e, w).s;
              && r.inSpec && (r.swap <==> e.swapEnabled) && r.stackAt == e.rsp && |r.stack| == e.base - e.rsp
              && forall i :: e.rsp <= i < e.base ==> r.stack[i - e.rsp] == s.mem[i]
  {
  }

  // ----- The window of a replay -----

  /** The words of the library's own stack, and those of the register image. */
  predicate InUse(w: Window, a: int) {
    w.rsp < a <= w.frame || (w.regs.Some? && w.regs.value <= a < w.regs.value + PT_REGS_SIZE)
  }

  /** A restart leaves the stack that it runs on as it is, outside the saved frame. */
  lemma OwnStackUntouched(c: Setup, s: Rt, t: RestartType, w: Window, i: int)
    requires Shape(s) && Inv(c, s) && s.inSpec && t != OnReturn
    requires 0 <= i < |s.mem| && w.rsp < Align(i) <= w.frame && !(s.stackAt <= i < s.stackAt + |s.stack|)
    ensures Restart(c, s, t, w).s.mem[i] == s.mem[i]
  {
    SkippedWordUncovered(c, s, w, i);
    ReplayKeepsUncovered(s.mem, s.log, w, i);
  }

  /** The log position and the log switch are never rolled back, and not logged although a write may hit them. */
  lemma ExemptUntouched(c: Setup, s: Rt, t: RestartType, w: Window, i: int)
    requires Shape(s) && Inv(c, s) && s.inSpec && t != OnReturn
    requires 0 <= i < |s.mem| && (Align(i) == c.position || Align(i) == c.enabled)
    requires !(s.stackAt <= i < s.stackAt + |s.stack|)
    ensures Restart(c, s, t, w).s.mem[i] == s.mem[i]
  {
    assert forall k :: 0 <= k < |s.log| && Covers(s.log[k], w, i) ==> s.log[k].addr == Align(i);
    ReplayKeepsUncovered(s.mem, s.log, w, i);
  }

  /**
    * After any speculation: a byte outside the frame of the checkpoint is what it was just before the end
    * if its word is in use by the restart; if not, it is what it was at the checkpoint.
    */
  lemma WindowIsExact(c: Setup, s: Rt, ck: Event, ins: seq<Input>, last: Input, lo: int, i: int)
    requires Excursion(c, s, ck, ins, last) && AllConfined(ins, lo, ck.base) && 0 <= i < |s.mem|
    requires !(lo <= i < ck.base) && Align(i) != c.position && Align(i) != c.enabled
    ensures After(c, s, ck, ins, last).mem[i]
         == if InUse(last.w, Align(i)) && !(ck.rsp <= i < ck.base) then Before(c, s, ck, ins, last).mem[i] else s.mem[i]
  {
    RollbackIsExact(c, s, ck, ins, last, lo, i);
  }

  // ----- How a restart ends -----

  /** The bytes that a restart must not write: both arrays, the variables that point to them, and the log position. */
  predicate OfTheLog(c: Setup, i: int) {
    || OfArrays(c, i) || Within(i, c.addrsVar, 8) || Within(i, c.dataVar, 8) || Within(i, c.position, 8)
  }

  /** The test made when a word is restored fails exactly if it has such a byte. */
  lemma CanRestoreIff(c: Setup, a: int)
    ensures CanRestore(c, a) <==> forall i :: Within(i, a, 8) ==> !OfTheLog(c, i)
  {
    OverlapsMeansSharedByte(a, 8, c.addrs, ARRAY_BYTES);
    OverlapsMeansSharedByte(a, 8, c.data, ARRAY_BYTES);
    OverlapsMeansSharedByte(a, 8, c.addrsVar, 8);
    OverlapsMeansSharedByte(a, 8, c.dataVar, 8);
    OverlapsMeansSharedByte(a, 8, c.position, 8);
  }

  /** A logged word that holds one of the two array pointers. */
  ghost predicate PointerLogged(c: Setup, s: Rt, w: Window) {
    exists k :: 0 <= k < |s.log| && !InUse(w, s.log[k].addr) && HoldsPointer(c, s.log[k].addr)
  }

  predicate HoldsPointer(c: Setup, a: int) {
    Overlaps(a, 8, c.addrsVar, 8) || Overlaps(a, 8, c.dataVar, 8)
  }

  /**
    * With aligned arrays, a restart that ends a speculation goes back to the checkpoint if and only if no
    * failed assertion is recorded and no word with an array pointer has to be restored; otherwise it panics.
    */
  lemma ResumesIff(c: Setup, s: Rt, t: RestartType, w: Window)
    requires Shape(s) && Inv(c, s) && s.inSpec && t != OnReturn
    requires c.addrs % 8 == 0 && c.data % 8 == 0 && c.position % 8 == 0
    ensures Restart(c, s, t, w).exit == (if !s.assertion && !PointerLogged(c, s, w) then Resumes else Panics)
  {
    hide CanRestore, Restored;
    if !s.assertion {
      forall k | 0 <= k < |s.log| ensures CanRestore(c, s.log[k].addr) <==> !HoldsPointer(c, s.log[k].addr) {
        AdmittedIsRestorable(c, s.log[k].addr);
      }
    }
  }

  // ----- The trace -----

  /** What the trace has room for. */
  function First(h: seq<FuncType>): seq<FuncType> {
    if |h| <= TRACE_SIZE then h else h[..TRACE_SIZE]
  }

  /** What an event of a speculation that goes on leaves in the trace. */
  function TracedBy(e: Event): seq<FuncType> {
    match e
    case Enter => [CheckCallDepth]
    case RestartHook(t) => if t == OnReturn then [RestartReturn] else []
    case Checkpoint(admitted, _, _, _) => if admitted then [NewCheckpointInSpec] else []
    case _ => []
  }

  function Traced(ins: seq<Input>): seq<FuncType> {
    if ins == [] then [] else TracedBy(ins[0].e) + Traced(ins[1..])
  }

  lemma FirstThenAdd(h: seq<FuncType>, f: FuncType)
    ensures AddTrace(First(h), f) == First(h + [f])
  {
  }

  lemma StepTraces(c: Setup, s: Rt, e: Event, w: Window, h: seq<FuncType>)
    requires Shape(s) && EventOk(s.mem, e) && Inv(c, s) && s.inSpec && s.trace == First(h)
    requires Step(c, s, e, w).exit == Continues && !Step(c, s, e, w).s.assertion
    ensures Step(c, s, e, w).s.trace == First(h + TracedBy(e)) && !s.assertion
  {
    hide First, AddTrace, WriteWl, LogRange, Restored, AllRestorable;
    FirstThenAdd(h, CheckCallDepth);
    FirstThenAdd(h, RestartReturn);
    FirstThenAdd(h, NewCheckpointInSpec);
    assert h + [] == h;
    if e.Memory? {
      OpHookOnlyLogs(c, s, e.op, w);
    }
  }

  lemma {:induction false} RunTraces(c: Setup, s: Rt, ins: seq<Input>, h: seq<FuncType>)
    requires Shape(s) && InputsOk(s.mem, ins) && SetupOk(c) && Inv(c, s) && StaysInSpec(c, s, ins)
    requires s.trace == First(h) && !Run(c, s, ins).s.assertion
    ensures Run(c, s, ins).s.trace == First(h + Traced(ins)) && !s.assertion
    decreases |ins|
  {
    hide First, Step, Inv, TracedBy;
    if ins == [] {
      assert h + [] == h;
    } else {
      var e, w := ins[0].e, ins[0].w;
      var r := Step(c, s, e, w);
      StepInv(c, s, e, w);
      InputsOkSameSize(s.mem, r.s.mem, ins);
      StayUnasserted(c, r.s, ins[1..]);
      StepTraces(c, s, e, w, h);
      RunTraces(c, r.s, ins[1..], h + TracedBy(e));
      assert h + TracedBy(e) + Traced(ins[1..]) == h + Traced(ins);
    }
  }

  lemma StayUnasserted(c: Setup, s: Rt, ins: seq<Input>)
    requires Shape(s) && InputsOk(s.mem, ins) && SetupOk(c) && Inv(c, s) && StaysInSpec(c, s, ins)
    requires !Run(c, s, ins).s.assertion
    ensures !s.assertion
  {
    hide Inv, Step;
    BoundedWindow(c, s, ins);
    if s.assertion {
      DuePanicStays(c, s, ins);
    }
  }

  /**
    * While a speculation lasts in which no assertion has failed, the trace is the checkpoint and then its
    * entries, nested returns and further checkpoint hooks in order, as far as it has room; and when it
    * ends, the restart, after the entry that reached the limit.
    */
  lemma TraceIsHistory(c: Setup, s: Rt, ck: Event, ins: seq<Input>, last: Input)
    requires Speculating(c, s, ck, ins, last.w) && EventOk(s.mem, last.e) && !Now(c, s, ck, ins, last.w).assertion
    ensures var s2 := Now(c, s, ck, ins, last.w);
            && s2.trace == First([NewCheckpoint] + Traced(ins))
            && EventOk(s2.mem, last.e)
            && (Step(c, s2, last.e, last.w).exit == Resumes ==>
                  var h := [NewCheckpoint] + Traced(ins) + (if last.e.Enter? then [CheckCallDepth] else []);
                  Step(c, s2, last.e, last.w).s.trace == First(h + [Restarted]))
  {
    hide Inv, First, Step, StaysInSpec, Run, Traced;
    var s1, s2 := Step(c, s, ck, last.w).s, Now(c, s, ck, ins, last.w);
    CheckpointFacts(c, s, ck, last.w);
    NowFacts(c, s, ck, ins, last.w);
    InputsOkSameSize(s.mem, s2.mem, [last]);
    assert EventOk(s2.mem, [last][0].e);
    assert First([NewCheckpoint]) == [NewCheckpoint] by { ShortFirst(); }
    RunTraces(c, s1, ins, [NewCheckpoint]);
    if Step(c, s2, last.e, last.w).exit == Resumes {
      EndTraces(c, s2, last.e, last.w, [NewCheckpoint] + Traced(ins));
    }
  }

  lemma ShortFirst()
    ensures First([NewCheckpoint]) == [NewCheckpoint]
  {
  }

  lemma EndTraces(c: Setup, s: Rt, e: Event, w: Window, h: seq<FuncType>)
    requires Shape(s) && EventOk(s.mem, e) && Inv(c, s) && s.inSpec && s.trace == First(h)
    requires Step(c, s, e, w).exit == Resumes
    ensures Step(c, s, e, w).s.trace == First(h + (if e.Enter? then [CheckCallDepth] else []) + [Restarted])
  {
    hide First, AddTrace, WriteWl, LogRange, Restored, AllRestorable;
    FirstThenAdd(h, CheckCallDepth);
    FirstThenAdd(h + [CheckCallDepth], Restarted);
    FirstThenAdd(h, Restarted);
    assert h + [] == h;
    if e.Memory? {
      MemoryCounts(c, s, e.op, w);
    }
  }
}
