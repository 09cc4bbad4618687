/**
  * The library at work, with its log in the memory it protects: whole runs of hooks and writes, and a
  * restart with everything that goes with it.
  */
module Session {
  import opened Bytes
  import opened UndoLog
  import Runtime
  import Rollback
  import Speculation
  import opened LogArrays
  import opened Kspecem
  import Reports
  import Frequency

  // ----- Whole runs -----

  /** The words that the hook of a write logs are words of the program. */
  ghost predicate HookClear(c: Runtime.Setup, op: Rollback.Op) {
    match op
    case Store(a, _) => !Runtime.InArrays(c, Align(a)) && (a % 8 != 0 ==> !Runtime.InArrays(c, Align(a) + 8))
    case Copy(a, bytes) => WordsClear(c, Runtime.CopyStart(a), a + |bytes|)
    case Unlogged(_, _) => true
  }

  /**
    * What may be written: if it comes to the write at all, no byte of the arrays. The hook sees to that in
    * speculation, where it panics; but once a nested call has returned it only records that it should have.
    */
  ghost predicate OpClear(c: Runtime.Setup, s: Runtime.Rt, op: Rollback.Op, w: Window)
    requires Runtime.Shape(s) && Rollback.OpOk(s.mem, op)
  {
    && (s.inSpec && s.inRestart ==> HookClear(c, op))
    && (Rollback.OpHook(c, s, op, w).exit == Runtime.Continues ==> Clear(c, op.addr, |op.bytes|))
  }

  /** Besides, a frame that is saved is clear of the arrays and fits the buffer. */
  ghost predicate EventClear(c: Runtime.Setup, s: Runtime.Rt, e: Speculation.Event, w: Window)
    requires Runtime.Shape(s) && Speculation.EventOk(s.mem, e)
  {
    match e
    case Checkpoint(_, _, base, rsp) =>
      Speculation.Takes(s, e) ==> Clear(c, rsp, base - rsp) && base - rsp <= Runtime.STACKLOG_MAXLEN
    case Memory(op) => OpClear(c, s, op, w)
    case _ => true
  }

  /** All that happens in a run is clear of the arrays. */
  ghost predicate RunClear(c: Runtime.Setup, s: Runtime.Rt, ins: seq<Speculation.Input>)
    requires Runtime.Shape(s) && Speculation.InputsOk(s.mem, ins)
    decreases |ins|
  {
    ins == [] ||
    (&& EventClear(c, s, ins[0].e, ins[0].w)
     && var r := Speculation.Step(c, s, ins[0].e, ins[0].w);
        (r.exit != Runtime.Panics ==>
           (Speculation.InputsOkSameSize(s.mem, r.s.mem, ins); RunClear(c, r.s, ins[1..]))))
  }

  /** A hooked or unhooked write. */
  method Perform(lib: Library, op: Rollback.Op, w: Window) returns (exit: Runtime.Exit)
    requires lib.Valid() && Rollback.OpOk(lib.View().mem, op) && OpClear(lib.c, lib.View(), op, w)
    modifies lib
    ensures lib.Valid() && Runtime.Outcome(lib.View(), exit) == Rollback.DoOp(lib.c, old(lib.View()), op, w)
  {
    hide Entries, EntriesClear, Mask, Placed, Clear, Runtime.HookStore, Runtime.HookMemcpy, Write, WordsClear;
    ghost var before := lib.View();
    exit := Runtime.Continues;
    match op {
      case Store(a, bytes) =>
        assert lib.inSpec ==> lib.MayLog(Align(a)) && (a % 8 != 0 ==> lib.MayLog(Align(a) + 8));
        exit := lib.HookStore(a, w);
      case Copy(a, bytes) =>
        exit := lib.HookMemcpy(a, |bytes|, w);
      case Unlogged(_, _) =>
    }
    assert Runtime.Outcome(lib.View(), exit) == Rollback.OpHook(lib.c, before, op, w);
    if exit == Runtime.Continues {
      WriteClear(lib.c, lib.mem, op.addr, op.bytes, lib.position);
      SameClear(lib.c, lib.mem, Write(lib.mem, op.addr, op.bytes), Entries(lib.c, lib.mem, lib.position));
      lib.mem := Write(lib.mem, op.addr, op.bytes);
    }
  }

  lemma SameClear(c: Runtime.Setup, m: Mem, m': Mem, log: seq<Entry>)
    requires |m| == |m'| && EntriesClear(c, m, log)
    ensures EntriesClear(c, m', log)
  {
  }

  /** One event, handled by the library. */
  method Handle(lib: Library, e: Speculation.Event, w: Window) returns (exit: Runtime.Exit)
    requires lib.Valid() && Speculation.EventOk(lib.View().mem, e) && EventClear(lib.c, lib.View(), e, w)
    modifies lib
    ensures lib.Valid() && Runtime.Outcome(lib.View(), exit) == Speculation.Step(lib.c, old(lib.View()), e, w)
  {
    hide Entries, EntriesClear, Mask, Placed, Runtime.Restart, Rollback.DoOp, Clear;
    exit := Runtime.Continues;
    match e {
      case Checkpoint(admitted, swapEnabled, base, rsp) =>
        var _, end := lib.NewCheckpoint(admitted, swapEnabled, base, rsp, seq(base - rsp, _ => 0), w);
      case Memory(op) => exit := Perform(lib, op, w);
      case Branch => lib.swap := false;
      case BlockEnd(n) => exit := lib.CheckSpecLength(n, w);
      case Enter => exit := lib.CheckCallDepth(w);
      case RestartHook(t) => exit := lib.Restart(t, w);
      case AssertFails => exit := lib.Panic(w);
    }
  }

  /** A run of events, up to its end or its panic. */
  method Drive(lib: Library, ins: seq<Speculation.Input>) returns (exit: Runtime.Exit)
    requires lib.Valid() && Speculation.InputsOk(lib.View().mem, ins) && RunClear(lib.c, lib.View(), ins)
    modifies lib
    ensures lib.Valid() && |lib.mem| == old(|lib.mem|)
    ensures Runtime.Outcome(lib.View(), exit) == Speculation.Run(lib.c, old(lib.View()), ins)
  {
    hide Entries, EntriesClear, Mask, Placed, Speculation.Step, Speculation.EventOk, EventClear;
    exit := Runtime.Continues;
    ghost var all := Speculation.Run(lib.c, lib.View(), ins);
    var k := 0;
    assert ins[0..] == ins;
    while k < |ins|
      invariant 0 <= k <= |ins| && lib.Valid() && exit != Runtime.Panics && |lib.View().mem| == old(|lib.View().mem|)
      invariant Speculation.InputsOk(lib.View().mem, ins[k..])
      invariant RunClear(lib.c, lib.View(), ins[k..]) && Speculation.Run(lib.c, lib.View(), ins[k..]) == all
    {
      ghost var before := lib.View();
      assert ins[k..][0] == ins[k] && ins[k..][1..] == ins[k + 1..];
      Speculation.InputsOkSameSize(before.mem, before.mem, ins[k..]);
      assert Speculation.EventOk(before.mem, ins[k..][0].e);
      exit := Handle(lib, ins[k].e, ins[k].w);
      if exit == Runtime.Panics {
        return;
      }
      Speculation.InputsOkSameSize(before.mem, lib.View().mem, ins[k..]);
      assert Speculation.InputsOk(lib.View().mem, ins[k + 1..]) by { InputsTail(lib.View().mem, ins[k..]); }
      k := k + 1;
    }
    exit := Runtime.Continues;
    assert ins[k..] == [];
  }

  lemma InputsTail(m: Mem, ins: seq<Speculation.Input>)
    requires Speculation.InputsOk(m, ins) && ins != []
    ensures Speculation.InputsOk(m, ins[1..])
  {
    forall k | 0 <= k < |ins[1..]| ensures Speculation.EventOk(m, ins[1..][k].e) {
      assert ins[1..][k] == ins[k + 1];
    }
  }

  /** All that happens from a checkpoint to the end of its speculation is clear of the arrays. */
  ghost predicate ExcursionClear(c: Runtime.Setup, s: Runtime.Rt, ck: Speculation.Event,
                                 ins: seq<Speculation.Input>, last: Speculation.Input)
    requires Speculation.Excursion(c, s, ck, ins, last)
  {
    && EventClear(c, s, ck, last.w)
    && RunClear(c, Speculation.Step(c, s, ck, last.w).s, ins)
    && EventClear(c, Speculation.Before(c, s, ck, ins, last), last.e, last.w)
  }

  /**
    * A whole speculation, with the log in the memory that the program writes to. Wherever the program
    * writes, clear of the arrays, the log does not corrupt itself, and afterwards every byte of memory
    * outside the arrays is what it was at the checkpoint, but for the unused stack from `lo` to the saved
    * stack pointer, the words that the replay skips and the two exempt words.
    */
  method Speculate(lib: Library, ck: Speculation.Event, ins: seq<Speculation.Input>, last: Speculation.Input,
                   ghost lo: int)
    requires lib.Valid() && Speculation.Excursion(lib.c, lib.View(), ck, ins, last)
    requires Speculation.AllConfined(ins, lo, ck.base)
    requires ExcursionClear(lib.c, lib.View(), ck, ins, last)
    modifies lib
    ensures lib.Valid() && !lib.inSpec && |lib.mem| == old(|lib.mem|)
    ensures forall i :: 0 <= i < |lib.mem| && !Runtime.InArrays(lib.c, i) ==>
              (|| ck.rsp <= i < ck.base
               || (!(lo <= i < ck.base) && !last.w.Skips(Align(i)) && !Runtime.Exempt(lib.c, Align(i)))
               ==> lib.mem[i] == old(lib.mem)[i])
  {
    hide Entries, EntriesClear, Placed, Speculation.Step, Speculation.Run, Clear, Speculation.Inv,
         Speculation.StaysInSpec, Speculation.EventOk;
    ghost var s := lib.View();
    var exit := Handle(lib, ck, last.w);
    Speculation.InputsOkSameSize(s.mem, lib.View().mem, ins);
    ghost var s1 := lib.View();
    exit := Drive(lib, ins);
    StaysRunning(lib.c, s1, ins);
    exit := Handle(lib, last.e, last.w);
    forall i | 0 <= i < |lib.mem| && !Runtime.InArrays(lib.c, i)
      ensures (|| ck.rsp <= i < ck.base
               || (!(lo <= i < ck.base) && !last.w.Skips(Align(i)) && !Runtime.Exempt(lib.c, Align(i)))
               ==> lib.mem[i] == old(lib.mem)[i])
    {
      Speculation.RollbackIsExact(lib.c, s, ck, ins, last, lo, i);
      assert lib.View().mem[i] == lib.mem[i] && s.mem[i] == old(lib.mem)[i];
    }
    ArraysTakeMemory(lib.c, lib.mem);
    Speculation.RollbackIsExact(lib.c, s, ck, ins, last, lo, 0);
  }

  lemma ArraysTakeMemory(c: Runtime.Setup, m: Mem)
    requires Placed(c, m)
    ensures |m| > 0
  {
  }

  lemma {:induction false} StaysRunning(c: Runtime.Setup, s: Runtime.Rt, ins: seq<Speculation.Input>)
    requires Runtime.Shape(s) && Speculation.InputsOk(s.mem, ins) && Speculation.StaysInSpec(c, s, ins)
    ensures Speculation.Run(c, s, ins).exit == Runtime.Continues
    decreases |ins|
  {
    if ins != [] {
      var r := Speculation.Step(c, s, ins[0].e, ins[0].w);
      Speculation.InputsOkSameSize(s.mem, r.s.mem, ins);
      StaysRunning(c, r.s, ins[1..]);
    }
  }

  // ----- A restart with all that goes with it -----

  /**
    * The whole restart: the speculation is rolled back and counted, inline assembly also in the list of
    * its addresses, and pending reports are printed once memory is back, unless an interrupt is being
    * handled. A panic that is due comes after that; a report from outside the text is a reason for one.
    */
  method FullRestart(lib: Library, asm: Frequency.FrequencyList, reporter: Reports.Reporter,
                     t: Runtime.RestartType, ip: int, listEnabled: bool, w: Window) returns (exit: Runtime.Exit)
    requires lib.Valid() && asm.Valid() && reporter.Valid()
    requires (asm.stats as object) != reporter.bugs
    requires forall k :: 0 <= k < |reporter.blocks| ==> reporter.blocks[k] as object != asm.stats
    modifies lib, asm`size, asm.stats, reporter`next, reporter`out, reporter`seen, reporter.bugs, reporter.blocks
    ensures lib.Valid() && asm.Valid() && reporter.Valid()
    ensures var s := old(lib.View());
            var counted := lib.stats.onInlineAsm > s.stats.onInlineAsm;
            var prints := s.inSpec && !lib.inSpec && t != Runtime.OnTimer && t != Runtime.OnException;
            && lib.View() == Runtime.Restart(lib.c, s, t, w).s
            && asm.Contents() == (if counted && listEnabled
                                  then Frequency.Add(old(asm.Contents()), ip) else old(asm.Contents()))
            && (if prints then
                  var r := Reports.Flush(reporter.text, old(reporter.View()));
                  && reporter.View() == r.log
                  && exit == if r.verdict != Reports.Fine then Runtime.Panics else Runtime.Restart(lib.c, s, t, w).exit
                else
                  reporter.View() == old(reporter.View()) && exit == Runtime.Restart(lib.c, s, t, w).exit)
  {
    hide Entries, EntriesClear, Mask, Placed, Frequency.Add, Reports.Flush, Runtime.Restart, Clear, Runtime.Shape,
         Reports.Reporter.MapValid, Reports.Reporter.At;
    var inSpec, due := lib.inSpec, lib.assertion;
    var ends := inSpec && (due || !(t == Runtime.OnReturn && lib.callDepth > 0));
    ghost var s := lib.View();
    exit := lib.Restart(t, w);
    RestartTells(lib.c, s, t, w);
    if ends && !due && t == Runtime.OnInlineAsm && listEnabled {
      asm.AddRestart(ip);
    }
    if ends && t != Runtime.OnTimer && t != Runtime.OnException {
      var verdict := reporter.PrintAndClear();
      if verdict != Reports.Fine {
        exit := Runtime.Panics;
      }
    }
  }

  /** What a restart counts, and whether it ends a speculation. */
  lemma RestartTells(c: Runtime.Setup, s: Runtime.Rt, t: Runtime.RestartType, w: Window)
    requires Runtime.Shape(s)
    ensures var r := Runtime.Restart(c, s, t, w).s;
            var ends := s.inSpec && (s.assertion || !(t == Runtime.OnReturn && s.callDepth > 0));
            && (s.inSpec && !r.inSpec <==> ends)
            && (r.stats.onInlineAsm > s.stats.onInlineAsm <==> ends && !s.assertion && t == Runtime.OnInlineAsm)
  {
    hide Runtime.Restored, Runtime.AllRestorable;
  }
}
