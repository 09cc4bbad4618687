/** What the undo log guarantees: every write is covered, and every rollback is exact. */
module Rollback {
  import opened Bytes
  import opened UndoLog
  import opened Runtime

  /** Some entry is the aligned word that holds byte `i`. */
  ghost predicate Logged(s: Rt, i: int) {
    exists k :: 0 <= k < |s.log| && s.log[k].addr == Align(i)
  }

  /** `s'` logged more words than `s`, each with its current contents. */
  ghost predicate Extends(s: Rt, s': Rt)
    requires Shape(s')
  {
    && s'.mem == s.mem
    && s.log <= s'.log
    && forall k :: |s.log| <= k < |s'.log| ==> s'.log[k].data == ReadWord(s'.mem, s'.log[k].addr)
  }

  /** Logging words with their current contents does not change what a replay restores. */
  lemma {:induction false} ExtendsKeepsReplay(s: Rt, s': Rt, w: Window)
    requires Shape(s) && Shape(s') && Extends(s, s')
    ensures Replay(s'.mem, s'.log, w) == Replay(s.mem, s.log, w)
    decreases |s'.log|
  {
    if |s'.log| > |s.log| {
      var last := |s'.log| - 1;
      var shorter := s'.(log := s'.log[..last]);
      assert s'.log == shorter.log + [s'.log[last]];
      assert s'.log[last] == Entry(s'.log[last].addr, ReadWord(s'.mem, s'.log[last].addr));
      ReplayAfterLogging(s'.mem, shorter.log, s'.log[last].addr, w);
      ExtendsKeepsReplay(s, shorter, w);
    } else {
      assert s'.log == s.log;
    }
  }

  /**
    * The contract shared by all hooks but the checkpoint hook. A hook that returns leaves memory
    * alone and at most logs words; one that does not return has rolled memory back to what a
    * replay of the log, as it was before the call, restores.
    */
  ghost predicate Faithful(s: Rt, r: Outcome, w: Window)
    requires Shape(s)
  {
    && Shape(r.s)
    && |r.s.mem| == |s.mem|
    && r.s.stackAt == s.stackAt && r.s.stack == s.stack
    && (r.exit == Continues ==> r.s.inSpec == s.inSpec && Extends(s, r.s))
    && (r.exit != Continues && s.inSpec ==> !r.s.inSpec && r.s.log == [] && r.s.mem == Restored(s, w))
  }

  lemma FaithfulChain(s: Rt, r1: Outcome, r2: Outcome, w: Window)
    requires Shape(s) && Faithful(s, r1, w) && r1.exit == Continues && Faithful(r1.s, r2, w)
    ensures Faithful(s, r2, w)
  {
    ExtendsKeepsReplay(s, r1.s, w);
  }

  lemma RestartFaithful(c: Setup, s: Rt, t: RestartType, w: Window)
    requires Shape(s)
    ensures Faithful(s, Restart(c, s, t, w), w)
  {
  }

  lemma LogAlignedFaithful(c: Setup, s: Rt, a: int, w: Window)
    requires Shape(s) && InRange(s.mem, a, 8) && a % 8 == 0
    ensures Faithful(s, LogAligned(c, s, a, w), w)
    ensures var r := LogAligned(c, s, a, w);
            r.exit == Continues && !Exempt(c, a) && s.inSpec ==> forall i :: Align(i) == a ==> Logged(r.s, i)
  {
    hide Replay, Write, AllRestorable, AddRestart, AddTrace;
    var r := LogAligned(c, s, a, w);
    if r.exit == Continues && |s.log| < SLOTS && !Exempt(c, a) {
      assert r.s.log[|s.log|].addr == a;
    }
  }

  /** How many bytes from `a` on the store hook protects. */
  function Span(a: int): int {
    if a % 8 == 0 then 8 else 16 - a % 8
  }

  lemma SpanFacts(a: int)
    ensures Align(a) <= a && Span(a) >= 8
  {
  }

  /** The protected bytes are those of the word at `a` and, for an unaligned `a`, of the next word. */
  lemma SpanWords(a: int, i: int)
    ensures Align(a) <= i < a + Span(a) <==> Align(i) == Align(a) || (a % 8 != 0 && Align(i) == Align(a) + 8)
  {
  }

  lemma LoggedByExtension(s: Rt, s': Rt, i: int)
    requires Shape(s') && Extends(s, s') && Logged(s, i)
    ensures Logged(s', i)
  {
    var k :| 0 <= k < |s.log| && s.log[k].addr == Align(i);
    assert s'.log[k] == s.log[k];
  }

  lemma WriteWlFaithful(c: Setup, s: Rt, a: int, w: Window)
    requires Shape(s) && Loggable(s.mem, a)
    ensures Faithful(s, WriteWl(c, s, a, w), w)
    ensures var r := WriteWl(c, s, a, w);
            r.exit == Continues && s.inSpec ==>
              forall i :: Align(a) <= i < a + Span(a) && !Exempt(c, Align(i)) ==> Logged(r.s, i)
  {
    var r := WriteWl(c, s, a, w);
    var r1 := if a % 8 == 0 then Outcome(s, Continues) else LogAligned(c, s, Align(a) + 8, w);
    if a % 8 != 0 {
      LogAlignedFaithful(c, s, Align(a) + 8, w);
    }
    if r1.exit == Continues {
      LogAlignedFaithful(c, r1.s, Align(a), w);
      FaithfulChain(s, r1, r, w);
    }
    forall i | r.exit == Continues && s.inSpec && Align(a) <= i < a + Span(a) && !Exempt(c, Align(i))
      ensures Logged(r.s, i)
    {
      SpanWords(a, i);
      if Align(i) != Align(a) { LoggedByExtension(r1.s, r.s, i); }
    }
  }

  lemma {:induction false} LogRangeFaithful(c: Setup, s: Rt, reg: int, end: int, w: Window)
    requires Shape(s) && RangeLoggable(s.mem, reg, end)
    ensures Faithful(s, LogRange(c, s, reg, end, w), w)
    ensures var r := LogRange(c, s, reg, end, w);
            r.exit == Continues && s.inSpec ==>
              forall i :: reg <= i < end && !Exempt(c, Align(i)) ==> Logged(r.s, i)
    decreases end - reg
  {
    hide WriteWl, Span, Align, Loggable, Exempt;
    if reg < end {
      SpanFacts(reg);
      WriteWlFaithful(c, s, reg, w);
      var r1 := WriteWl(c, s, reg, w);
      if r1.exit == Continues {
        RangeLoggableSameSize(s.mem, r1.s.mem, reg, end);
        LogRangeFaithful(c, r1.s, reg + 8, end, w);
        var r := LogRange(c, r1.s, reg + 8, end, w);
        FaithfulChain(s, r1, r, w);
        forall i | r.exit == Continues && s.inSpec && reg <= i < end && !Exempt(c, Align(i))
          ensures Logged(r.s, i)
        {
          if i < reg + 8 { LoggedByExtension(r1.s, r.s, i); }
        }
      }
    }
  }

  // ----- Coverage -----

  /** The block-copy hook logs, with its contents, every word that holds a byte of the destination. */
  lemma CopyCoverage(c: Setup, s: Rt, a: int, n: int, w: Window)
    requires Shape(s) && s.inSpec && s.logEnabled && RangeLoggable(s.mem, CopyStart(a), a + n)
    ensures var r := HookMemcpy(c, s, a, n, w);
            && Faithful(s, r, w)
            && (r.exit == Continues ==>
                  forall i :: a <= i < a + n && !Exempt(c, Align(i)) ==> Logged(r.s, i))
  {
    hide LogRange, RangeLoggable, Align, Exempt;
    LogRangeFaithful(c, s, CopyStart(a), a + n, w);
  }

  /**
    * The store hook knows the address but not the width. On a fresh log it protects exactly
    * the widths up to `Span(a)`, which is at least eight for every address.
    */
  lemma StoreCoverage(c: Setup, s: Rt, a: int, n: int, w: Window)
    requires Shape(s) && s.inSpec && s.logEnabled && Loggable(s.mem, a) && n > 0
    requires s.log == [] && !Exempt(c, Align(a)) && !Exempt(c, Align(a) + 8)
    requires HookStore(c, s, a, w).exit == Continues
    ensures var r := HookStore(c, s, a, w);
            && Extends(s, r.s)
            && ((forall i :: a <= i < a + n ==> Logged(r.s, i)) <==> n <= Span(a))
    ensures Span(a) >= 8
  {
    WriteWlFaithful(c, s, a, w);
    var r := HookStore(c, s, a, w);
    if n <= Span(a) {
      forall i | a <= i < a + n ensures Logged(r.s, i) {
        SpanWords(a, i);
      }
    } else {
      var i := a + Span(a);
      SpanWords(a, i);
      assert !Logged(r.s, i);
    }
  }

  // ----- Admission implies restorability -----

  /**
    * A word that passes the range test made when it is logged overlaps neither log array, for
    * every aligned word, exactly if the array starts on a word boundary.
    */
  lemma AdmissionIsExact(start: int)
    requires start > 8
    ensures (forall a :: a % 8 == 0 && !(start <= a < start + ARRAY_BYTES) ==> !Overlaps(a, 8, start, ARRAY_BYTES))
            <==> start % 8 == 0
  {
    if start % 8 != 0 {
      var a := Align(start);
      assert a % 8 == 0 && !(start <= a < start + ARRAY_BYTES) && Overlaps(a, 8, start, ARRAY_BYTES);
    }
  }

  /**
    * With aligned arrays, a word that was admitted to the log fails the test made before it is
    * restored only if it holds one of the two array pointers, which the first test forgets.
    */
  lemma AdmittedIsRestorable(c: Setup, a: int)
    requires a % 8 == 0 && c.addrs % 8 == 0 && c.data % 8 == 0 && c.position % 8 == 0
    requires !InArrays(c, a) && !Exempt(c, a)
    ensures CanRestore(c, a) <==> !Overlaps(a, 8, c.addrsVar, 8) && !Overlaps(a, 8, c.dataVar, 8)
  {
  }

  // ----- Exactness of the rollback -----

  /** A step of a speculation, as far as memory is concerned. */
  datatype Op =
    | Store(addr: int, bytes: seq<Byte>)     // an instrumented store: its hook, then the write
    | Copy(addr: int, bytes: seq<Byte>)      // an instrumented block copy or fill
    | Unlogged(addr: int, bytes: seq<Byte>)  // a write the compiler made without a hook

  predicate OpOk(m: Mem, op: Op) {
    && InRange(m, op.addr, |op.bytes|)
    && match op
       case Store(a, bytes) => |bytes| <= 8 && Loggable(m, a)
       case Copy(a, bytes) => RangeLoggable(m, CopyStart(a), a + |bytes|)
       case Unlogged(_, _) => true
  }

  function OpHook(c: Setup, s: Rt, op: Op, w: Window): (r: Outcome)
    requires Shape(s) && OpOk(s.mem, op)
    ensures Shape(r.s) && |r.s.mem| == |s.mem|
  {
    match op
    case Store(a, _) => HookStore(c, s, a, w)
    case Copy(a, bytes) => HookMemcpy(c, s, a, |bytes|, w)
    case Unlogged(_, _) => Outcome(s, Continues)
  }

  /** The hook and then, if it returned, the write. */
  function DoOp(c: Setup, s: Rt, op: Op, w: Window): (r: Outcome)
    requires Shape(s) && OpOk(s.mem, op)
    ensures Shape(r.s) && |r.s.mem| == |s.mem|
  {
    var r := OpHook(c, s, op, w);
    if r.exit != Continues then r
    else Outcome(r.s.(mem := Write(r.s.mem, op.addr, op.bytes)), Continues)
  }

  /** Whether byte `i` may be written without a hook: it is in the range the frame snapshot and dead stack take. */
  predicate Confined(op: Op, lo: int, hi: int) {
    op.Unlogged? ==> lo <= op.addr && op.addr + |op.bytes| <= hi
  }

  lemma OpHookFaithful(c: Setup, s: Rt, op: Op, w: Window)
    requires Shape(s) && OpOk(s.mem, op) && s.inSpec && s.logEnabled
    ensures Faithful(s, OpHook(c, s, op, w), w)
    ensures var r := OpHook(c, s, op, w);
            r.exit == Continues && !op.Unlogged? ==>
              forall i :: op.addr <= i < op.addr + |op.bytes| && !Exempt(c, Align(i)) ==> Logged(r.s, i)
  {
    hide WriteWl, LogRange;
    match op
    case Store(a, bytes) =>
      WriteWlFaithful(c, s, a, w);
      SpanFacts(a);
    case Copy(a, bytes) => CopyCoverage(c, s, a, |bytes|, w);
    case Unlogged(_, _) =>
  }

  /** A write does not change what a later replay restores outside [lo, hi), the skipped and the exempt words. */
  lemma DoOpKeepsReplay(c: Setup, s: Rt, op: Op, w: Window, lo: int, hi: int, w': Window, i: int)
    requires Shape(s) && OpOk(s.mem, op) && s.inSpec && s.logEnabled && Confined(op, lo, hi)
    requires DoOp(c, s, op, w).exit == Continues
    requires 0 <= i < |s.mem| && !(lo <= i < hi) && !w'.Skips(Align(i)) && !Exempt(c, Align(i))
    ensures var s' := DoOp(c, s, op, w).s; Replay(s'.mem, s'.log, w')[i] == Replay(s.mem, s.log, w')[i]
  {
    OpHookFaithful(c, s, op, w);
    var r := OpHook(c, s, op, w);
    var s' := DoOp(c, s, op, w).s;
    ExtendsKeepsReplay(s, r.s, w');
    if s'.mem[i] != r.s.mem[i] {
      assert Logged(r.s, i);
      var k :| 0 <= k < |r.s.log| && r.s.log[k].addr == Align(i);
      assert Covers(r.s.log[k], w', i);
    }
    ReplayIgnoresCovered(r.s.mem, s'.mem, r.s.log, w', i);
  }
}
