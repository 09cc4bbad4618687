/**
  * The static library itself: its globals as fields, its functions as methods. The log lives in
  * the memory it protects, so every method also has to keep the log from corrupting itself.
  */
module Kspecem {
  import opened Bytes
  import opened UndoLog
  import Runtime
  import opened LogArrays

  /** One turn of the replay loop: the newest entry is taken off the log and written back. */
  function PopEntry(c: Runtime.Setup, s: Runtime.Rt, w: Window): (r: Runtime.Rt)
    requires Runtime.Shape(s) && s.log != []
    ensures Runtime.Shape(r)
  {
    var n := |s.log| - 1;
    var e := s.log[n];
    s.(mem := RestoreEntry(s.mem, e, w), log := s.log[..n],
       assertion := s.assertion || (!w.Skips(e.addr) && !Runtime.CanRestore(c, e.addr)))
  }

  /** What the whole replay has to achieve. */
  function RestoreLog(c: Runtime.Setup, s: Runtime.Rt, w: Window): Runtime.Rt
    requires Runtime.Shape(s)
  {
    s.(mem := Replay(s.mem, s.log, w), log := [], assertion := s.assertion || !Runtime.AllRestorable(c, s.log, w))
  }

  lemma LastRestorable(c: Runtime.Setup, log: seq<Entry>, w: Window)
    requires log != []
    ensures var n := |log| - 1;
            Runtime.AllRestorable(c, log, w)
            <==> Runtime.AllRestorable(c, log[..n], w) && (w.Skips(log[n].addr) || Runtime.CanRestore(c, log[n].addr))
  {
    hide Runtime.CanRestore;
    var n := |log| - 1;
    assert log == log[..n] + [log[n]];
    if !Runtime.AllRestorable(c, log, w) {
      var k :| 0 <= k < |log| && !w.Skips(log[k].addr) && !Runtime.CanRestore(c, log[k].addr);
      assert k < n ==> log[..n][k] == log[k];
    }
  }

  /** Taking entries off one by one achieves the whole replay. */
  lemma PopThenRestore(c: Runtime.Setup, s: Runtime.Rt, w: Window)
    requires Runtime.Shape(s) && s.log != []
    ensures RestoreLog(c, PopEntry(c, s, w), w) == RestoreLog(c, s, w)
  {
    hide Runtime.AllRestorable, Runtime.CanRestore, Write;
    LastRestorable(c, s.log, w);
    assert Replay(s.mem, s.log, w) == Replay(PopEntry(c, s, w).mem, PopEntry(c, s, w).log, w);
  }

  /** The words that a block copy logs from `reg`, a multiple of four, up to `end` are words of the program. */
  ghost predicate WordsClear(c: Runtime.Setup, reg: int, end: int) {
    forall b :: b % 8 == 0 && reg - 8 < b < end + reg % 8 ==> !Runtime.InArrays(c, b)
  }

  class Library {
    const c: Runtime.Setup
    var mem: Mem
    var position: nat
    var logEnabled: bool
    var inSpec: bool
    var swap: bool
    var inRestart: bool
    var instrCount: int
    var callDepth: int
    var assertion: bool
    var stackAt: int
    var stack: seq<Byte>
    var trace: seq<Runtime.FuncType>
    var stats: Runtime.Stats

    /** The log fits its arrays, and neither a logged word nor the saved frame overlaps them. */
    ghost predicate Valid()
      reads this
    {
      && Placed(c, mem)
      && position <= Runtime.SLOTS
      && EntriesClear(c, mem, Entries(c, mem, position))
      && InRange(mem, stackAt, |stack|) && Clear(c, stackAt, |stack|)
      && logEnabled == inSpec && (inRestart ==> inSpec)
    }

    /** The state of the library, with the log taken out of memory. */
    ghost function View(): (s: Runtime.Rt)
      requires Valid()
      reads this
      ensures Runtime.Shape(s)
    {
      Runtime.Rt(Mask(c, mem), Entries(c, mem, position), logEnabled, inSpec, swap, inRestart, instrCount,
                 callDepth, assertion, stackAt, stack, trace, stats)
    }

    /** The library when its data has been initialised. */
    constructor (setup: Runtime.Setup, m: Mem)
      requires Placed(setup, m)
      ensures Valid() && c == setup && View() == Runtime.Init(Mask(setup, m))
    {
      c, mem := setup, m;
      position, logEnabled, inSpec, swap, inRestart := 0, false, false, false, false;
      instrCount, callDepth, assertion := 0, 0, false;
      stackAt, stack, trace := 0, [], [];
      stats := Runtime.Stats(0, 0, 0, 0, 0, 0, 0, 0, 0, 0, 0, 0, 0);
    }

    /** Takes the newest entry off the log and, unless it is in the window, writes it back. */
    method RestoreNewest(w: Window)
      requires Valid() && position >= 1
      modifies this`mem, this`position, this`assertion
      ensures Valid() && |mem| == old(|mem|)
      ensures View() == PopEntry(c, old(View()), w)
      ensures forall i :: 0 <= i < |mem| && w.rsp < Align(i) <= w.frame ==> mem[i] == old(mem)[i]
    {
      hide Write, Entries, EntriesClear, Mask, Placed, Decode, Clear, Runtime.CanRestore, Align, ReadWord;
      PopSlot(c, mem, position, w);
      position := position - 1;
      SlotInRange(c, mem, position);
      var addr := Decode(ReadWord(mem, c.addrs + 8 * position));
      var region := ReadWord(mem, c.data + 8 * position);
      assert EntryAt(c, mem, position) == Entry(addr, region);
      if !w.Skips(addr) {
        if !Runtime.CanRestore(c, addr) {
          assertion := true;
        }
        EntryAligned(c, old(mem), old(position), position);
        RestoresOneWord(mem, Entry(addr, region), w);
        mem := Write(mem, addr, region);
      }
    }

    /**
      * Walks the log backwards and writes every entry back, but those in the window: the stack that it
      * runs on stays as it is.
      */
    method RestoreWritelog(w: Window)
      requires Valid()
      modifies this`mem, this`position, this`assertion
      ensures Valid() && View() == RestoreLog(c, old(View()), w) && |mem| == old(|mem|)
      ensures forall i :: 0 <= i < |mem| && w.rsp < Align(i) <= w.frame ==> mem[i] == old(mem)[i]
    {
      while position >= 1
        invariant Valid() && RestoreLog(c, View(), w) == RestoreLog(c, old(View()), w) && |mem| == old(|mem|)
        invariant forall i :: 0 <= i < |mem| && w.rsp < Align(i) <= w.frame ==> mem[i] == old(mem)[i]
        decreases position
      {
        PopThenRestore(c, View(), w);
        RestoreNewest(w);
      }
    }

    /** Appends to the event trace, as long as there is room. */
    method AddTrace(f: Runtime.FuncType)
      modifies this`trace
      ensures trace == Runtime.AddTrace(old(trace), f)
    {
      if |trace| >= Runtime.TRACE_SIZE {
        return;
      }
      trace := trace + [f];
    }

    /** Counts a restart: in total, and in its category. */
    method AddRestart(t: Runtime.RestartType)
      modifies this`stats
      ensures stats == Runtime.AddRestart(old(stats), t)
    {
      stats := stats.(total := stats.total + 1);
      match t {
        case OnReturn => stats := stats.(onReturn := stats.onReturn + 1);
        case OnCall => stats := stats.(onCall := stats.onCall + 1);
        case OnCallUndefined => stats := stats.(onCallUndefined := stats.onCallUndefined + 1);
        case OnInlineAsm => stats := stats.(onInlineAsm := stats.onInlineAsm + 1);
        case OnBlacklist => stats := stats.(onBlacklist := stats.onBlacklist + 1);
        case OnTimer => stats := stats.(onTimer := stats.onTimer + 1);
        case OnException => stats := stats.(onException := stats.onException + 1);
        case OnLimitSpec => stats := stats.(onLimitSpec := stats.onLimitSpec + 1);
        case OnCallDepth => stats := stats.(onCallDepth := stats.onCallDepth + 1);
        case OnCallDisabled => stats := stats.(onCallDisabled := stats.onCallDisabled + 1);
        case OnWritelogFull => stats := stats.(onWritelogFull := stats.onWritelogFull + 1);
        case OnPageFault => stats := stats.(onPageFault := stats.onPageFault + 1);
        case OnAssertion =>
      }
    }

    /** Ends the speculation: replays the log, copies the saved frame back and clears the flags. */
    method EndSpeculation(w: Window)
      requires Valid()
      modifies this
      ensures Valid() && View() == Runtime.RollBack(c, old(View()), w)
    {
      hide Write, Entries, Mask, Replay, Runtime.AllRestorable;
      RestoreWritelog(w);
      logEnabled := false;
      inSpec := false;
      swap := false;
      callDepth := 0;
      WriteClear(c, mem, stackAt, stack, 0);
      mem := Write(mem, stackAt, stack);
      inRestart := false;
    }

    /** Goes back to the checkpoint, unless there is none or this is the return of a nested call. */
    method Restart(t: Runtime.RestartType, w: Window) returns (exit: Runtime.Exit)
      requires Valid()
      modifies this
      ensures Valid()
      ensures Runtime.Outcome(View(), exit) == Runtime.Restart(c, old(View()), t, w)
    {
      hide Entries, EntriesClear, Mask, Placed, Clear, Replay, Runtime.AllRestorable, Runtime.AddRestart,
           Runtime.AddTrace;
      if !inSpec {
        return Runtime.Continues;
      }
      inRestart := true;
      if !assertion {
        if t == Runtime.OnReturn && callDepth > 0 {
          AddTrace(Runtime.RestartReturn);
          callDepth := callDepth - 1;
          return Runtime.Continues;
        }
        AddTrace(Runtime.Restarted);
        AddRestart(t);
      }
      assert logEnabled;
      EndSpeculation(w);
      return if assertion then Runtime.Panics else Runtime.Resumes;
    }

    /** A failed assertion inside the library. */
    method Panic(w: Window) returns (exit: Runtime.Exit)
      requires Valid()
      modifies this
      ensures Valid()
      ensures Runtime.Outcome(View(), exit) == Runtime.Panic(c, old(View()), w)
    {
      if !inSpec {
        return Runtime.Panics;
      }
      assertion := true;
      if inRestart {
        return Runtime.Continues;
      }
      exit := Restart(Runtime.OnAssertion, w);
    }

    /**
      * Whether an aligned word may be handed to the log. A store into the log arrays fails an assertion;
      * if the library then believes that a restart is running, it goes on as if nothing had happened.
      */
    ghost predicate MayLog(a: int)
      reads this
    {
      InRange(mem, a, 8) && a % 8 == 0 && (inRestart ==> !Runtime.InArrays(c, a))
    }

    /** Appends one word, with its contents, to the arrays. */
    method Append(a: int)
      requires Valid() && position < Runtime.SLOTS && InRange(mem, a, 8) && a % 8 == 0 && !Runtime.InArrays(c, a)
      modifies this`mem, this`position
      ensures Valid() && position == old(position) + 1
      ensures View() == old(View()).(log := old(View()).log + [Entry(a, ReadWord(old(View()).mem, a))])
    {
      hide Write, Entries, Mask, Encode;
      var word := ReadWord(mem, a);
      AlignedIsClear(c, mem, a);
      ReadClear(c, mem, a);
      SlotInRange(c, mem, position);
      FillSlot(c, mem, position, a, word);
      mem := Write(mem, c.addrs + 8 * position, Encode(a));
      mem := Write(mem, c.data + 8 * position, word);
      position := position + 1;
    }

    /** Logs the aligned word at `a`, or goes back to the checkpoint if the log is full. */
    method LogAligned(a: int, w: Window) returns (exit: Runtime.Exit)
      requires Valid() && inSpec && MayLog(a)
      modifies this
      ensures Valid() && |mem| == old(|mem|)
      ensures exit == Runtime.Continues ==> inSpec == old(inSpec) && inRestart == old(inRestart)
      ensures Runtime.Outcome(View(), exit) == Runtime.LogAligned(c, old(View()), a, w)
    {
      hide Write, Entries, Mask, Runtime.Restart;
      if position >= Runtime.SLOTS {
        exit := Restart(Runtime.OnWritelogFull, w);
        FullLogExits(c, old(View()), w);
        return;
      }
      if Runtime.InArrays(c, a) {
        exit := Panic(w);
        FailedAssertionExits(c, old(View()), w);
        return;
      }
      if a == c.position || a == c.enabled {
        return Runtime.Continues;
      }
      Append(a);
      exit := Runtime.Continues;
    }

    /** Logs the word that holds `a`; for an unaligned `a`, the word after it first. */
    method WriteWl(a: int, w: Window) returns (exit: Runtime.Exit)
      requires Valid() && inSpec && Runtime.Loggable(mem, a)
      requires MayLog(Align(a)) && (a % 8 != 0 ==> MayLog(Align(a) + 8))
      modifies this
      ensures Valid() && |mem| == old(|mem|)
      ensures exit == Runtime.Continues ==> inSpec == old(inSpec) && inRestart == old(inRestart)
      ensures Runtime.Outcome(View(), exit) == Runtime.WriteWl(c, old(View()), a, w)
      decreases a % 8
    {
      hide Entries, EntriesClear, Mask, Placed, Clear, Runtime.LogAligned;
      if a != Align(a) {
        exit := WriteWl(Align(a) + 8, w);
        if exit != Runtime.Continues {
          return;
        }
      }
      exit := LogAligned(Align(a), w);
    }

    /** The hook before a store. */
    method HookStore(a: int, w: Window) returns (exit: Runtime.Exit)
      requires Valid() && Runtime.Loggable(mem, a)
      requires inSpec ==> MayLog(Align(a)) && (a % 8 != 0 ==> MayLog(Align(a) + 8))
      modifies this
      ensures Valid() && Runtime.Outcome(View(), exit) == Runtime.HookStore(c, old(View()), a, w)
    {
      hide Entries, EntriesClear, Mask, Placed, Clear, Runtime.WriteWl;
      if !logEnabled {
        return Runtime.Continues;
      }
      exit := WriteWl(a, w);
    }

    /** The hook before a block copy: logs word by word from the last multiple of four. */
    method HookMemcpy(a: int, n: int, w: Window) returns (exit: Runtime.Exit)
      requires Valid() && Runtime.RangeLoggable(View().mem, Runtime.CopyStart(a), a + n)
      requires inRestart ==> WordsClear(c, Runtime.CopyStart(a), a + n)
      modifies this
      ensures Valid() && Runtime.Outcome(View(), exit) == Runtime.HookMemcpy(c, old(View()), a, n, w)
    {
      hide Entries, EntriesClear, Mask, Placed, Clear, Runtime.WriteWl, Runtime.Loggable, WordsClear, MayLog, Align;
      if !logEnabled {
        return Runtime.Continues;
      }
      var end := a + n;
      var reg := Runtime.CopyStart(a);
      exit := Runtime.Continues;
      while reg < end
        invariant Valid() && |mem| == old(|mem|) && inSpec && exit == Runtime.Continues
        invariant Runtime.RangeLoggable(View().mem, reg, end)
        invariant reg % 4 == 0 && inRestart == old(inRestart) && (inRestart ==> WordsClear(c, reg, end))
        invariant Runtime.LogRange(c, View(), reg, end, w) == Runtime.HookMemcpy(c, old(View()), a, n, w)
      {
        WordsMayBeLogged(reg, end);
        ClearFromNext(c, reg, end);
        ghost var before := View();
        exit := WriteWl(reg, w);
        if exit != Runtime.Continues {
          return;
        }
        Runtime.RangeLoggableSameSize(before.mem, View().mem, reg, end);
        reg := reg + 8;
      }
    }

    lemma WordsMayBeLogged(reg: int, end: int)
      requires Valid() && Runtime.RangeLoggable(View().mem, reg, end) && reg < end && reg % 4 == 0
      requires inRestart ==> WordsClear(c, reg, end)
      ensures Runtime.Loggable(mem, reg) && MayLog(Align(reg)) && (reg % 8 != 0 ==> MayLog(Align(reg) + 8))
    {
      hide Entries, EntriesClear, Mask, Placed, Clear;
      WordsOfRange(reg, end);
      assert Runtime.Loggable(View().mem, reg);
    }

    /** The hook at the end of a block of `n` instructions. */
    method CheckSpecLength(n: int, w: Window) returns (exit: Runtime.Exit)
      requires Valid()
      modifies this
      ensures Valid() && Runtime.Outcome(View(), exit) == Runtime.HookSpecLength(c, old(View()), n, w)
    {
      hide Entries, EntriesClear, Mask, Placed, Clear, Runtime.Restart;
      exit := Runtime.Continues;
      if inSpec {
        instrCount := instrCount + n;
        if instrCount >= c.maxInstr {
          exit := Restart(Runtime.OnLimitSpec, w);
        }
      }
    }

    /** The hook at the entry of an instrumented function. */
    method CheckCallDepth(w: Window) returns (exit: Runtime.Exit)
      requires Valid()
      modifies this
      ensures Valid() && Runtime.Outcome(View(), exit) == Runtime.HookCallDepth(c, old(View()), w)
    {
      hide Entries, EntriesClear, Mask, Placed, Clear, Runtime.Restart;
      exit := Runtime.Continues;
      if logEnabled {
        AddTrace(Runtime.CheckCallDepth);
        callDepth := callDepth + 1;
        if callDepth >= c.maxDepth {
          exit := Restart(Runtime.OnCallDepth, w);
        }
      }
    }

    /** Opens a speculation: counters, trace and log start afresh, and the next branch is to be swapped. */
    method OpenSpeculation(swapEnabled: bool)
      requires Valid() && !inSpec
      modifies this
      ensures Valid() && mem == old(mem)
      ensures View() == old(View()).(instrCount := 0, trace := [Runtime.NewCheckpoint], log := [], inSpec := true,
                                     swap := old(swap) || swapEnabled, callDepth := 0, logEnabled := true)
    {
      hide Mask, Placed, Clear, Entries, EntriesClear;
      NoEntries(c, mem);
      instrCount := 0;
      trace := [];
      AddTrace(Runtime.NewCheckpoint);
      position := 0;
      inSpec := true;
      if swapEnabled {
        swap := true;
      }
      callDepth := 0;
      logEnabled := true;
    }

    /**
      * Saves the frame [rsp, base). A frame that the buffer cannot hold fails an assertion before it is
      * copied; `buffer` is what the buffer, and memory behind it, then hold instead.
      */
    method SaveStack(base: int, rsp: int, buffer: seq<Byte>, w: Window) returns (exit: Runtime.Exit)
      requires Valid() && inSpec && !inRestart && position == 0
      requires 0 <= rsp <= base <= |mem| && Clear(c, rsp, base - rsp) && |buffer| == base - rsp
      modifies this
      ensures Valid()
      ensures base - rsp <= Runtime.STACKLOG_MAXLEN ==>
                && exit == Runtime.Continues
                && View() == old(View()).(stackAt := rsp, stack := old(View()).mem[rsp..base])
      ensures base - rsp > Runtime.STACKLOG_MAXLEN ==>
                exit == Runtime.Panics && !inSpec && View().mem == Write(old(View()).mem, rsp, buffer)
    {
      hide Entries, EntriesClear, Mask, Placed, Write;
      SliceClear(c, mem, rsp, base - rsp);
      stackAt := rsp;
      if base - rsp > Runtime.STACKLOG_MAXLEN {
        stack := buffer;
        exit := Panic(w);
        return;
      }
      stack := mem[rsp..base];
      exit := Runtime.Continues;
    }

    /**
      * The checkpoint hook, and the stack hook that follows it if a checkpoint was taken. A frame too large
      * for the buffer ends in a panic, and is overwritten before that.
      */
    method NewCheckpoint(admitted: bool, swapEnabled: bool, base: int, rsp: int, buffer: seq<Byte>, w: Window)
      returns (taken: bool, exit: Runtime.Exit)
      requires Valid() && 0 <= rsp <= base <= |mem| && |buffer| == base - rsp
      requires Runtime.TakesCheckpoint(View(), admitted) ==> Clear(c, rsp, base - rsp)
      modifies this
      ensures Valid() && taken == Runtime.TakesCheckpoint(old(View()), admitted)
      ensures !taken || base - rsp <= Runtime.STACKLOG_MAXLEN ==>
                && exit == Runtime.Continues
                && View() == Runtime.HookCheckpoint(old(View()), admitted, swapEnabled, base, rsp)
      ensures taken && base - rsp > Runtime.STACKLOG_MAXLEN ==>
                exit == Runtime.Panics && !inSpec && View().mem == Write(old(View()).mem, rsp, buffer)
    {
      hide Entries, EntriesClear, Mask, Placed, Clear, Write;
      if !admitted || assertion {
        return false, Runtime.Continues;
      }
      if inSpec {
        AddTrace(Runtime.NewCheckpointInSpec);
        return false, Runtime.Continues;
      }
      OpenSpeculation(swapEnabled);
      exit := SaveStack(base, rsp, buffer, w);
      taken := true;
    }
  }

  lemma ClearFromNext(c: Runtime.Setup, reg: int, end: int)
    ensures WordsClear(c, reg, end) ==> WordsClear(c, reg + 8, end)
  {
  }

  /** The words that logging `reg` takes are among those of its range. */
  lemma WordsOfRange(reg: int, end: int)
    requires reg % 4 == 0 && reg < end
    ensures Align(reg) % 8 == 0 && reg - 8 < Align(reg) < end + reg % 8
    ensures reg % 8 != 0 ==> Align(reg) + 8 < end + reg % 8
  {
    assert reg % 8 == 0 || reg % 8 == 4;
  }

  /** Writing an aligned word back does not touch the words of the window. */
  lemma RestoresOneWord(m: Mem, e: Entry, w: Window)
    requires InRange(m, e.addr, 8) && e.addr % 8 == 0 && !w.Skips(e.addr)
    ensures forall i :: 0 <= i < |m| && w.rsp < Align(i) <= w.frame ==> Write(m, e.addr, e.data)[i] == m[i]
  {
  }

  lemma EntryAligned(c: Runtime.Setup, m: Mem, n: nat, k: nat)
    requires Placed(c, m) && k < n <= Runtime.SLOTS && EntriesClear(c, m, Entries(c, m, n))
    ensures AddrAt(c, m, k) % 8 == 0
  {
    assert Entries(c, m, n)[k] == EntryAt(c, m, k);
  }

  lemma NoEntries(c: Runtime.Setup, m: Mem)
    requires Placed(c, m)
    ensures Entries(c, m, 0) == [] && EntriesClear(c, m, [])
  {
  }

  lemma FullLogExits(c: Runtime.Setup, s: Runtime.Rt, w: Window)
    requires Runtime.Shape(s) && s.inSpec
    ensures Runtime.Restart(c, s, Runtime.OnWritelogFull, w).exit != Runtime.Continues
  {
  }

  lemma FailedAssertionExits(c: Runtime.Setup, s: Runtime.Rt, w: Window)
    requires Runtime.Shape(s) && s.inSpec && !s.inRestart
    ensures Runtime.Panic(c, s, w).exit == Runtime.Panics
  {
  }
}
