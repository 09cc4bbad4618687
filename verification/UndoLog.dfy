/** The write log as a sequence of entries, and its replay in reverse order. */
module UndoLog {
  import opened Options
  import opened Bytes

  /** One logged word: its aligned address and its contents when it was logged. */
  datatype Entry = Entry(addr: int, data: Word)

  const PT_REGS_SIZE := 168

  /**
    * The stack words that a replay must leave alone: those above the replay's own
    * stack pointer up to `frame`, and the register image handed to an interrupt handler.
    */
  datatype Window = Window(rsp: int, frame: int, regs: Option<int>) {
    predicate Skips(addr: int) {
      || rsp < addr <= frame
      || (regs.Some? && regs.value <= addr < regs.value + PT_REGS_SIZE)
    }
  }

  predicate EntriesInRange(m: Mem, log: seq<Entry>) {
    forall k :: 0 <= k < |log| ==> InRange(m, log[k].addr, 8)
  }

  function RestoreEntry(m: Mem, e: Entry, w: Window): (r: Mem)
    requires InRange(m, e.addr, 8)
    ensures |r| == |m|
  {
    if w.Skips(e.addr) then m else Write(m, e.addr, e.data)
  }

  /** Walks the log from the newest entry to the oldest, writing each entry back. */
  function Replay(m: Mem, log: seq<Entry>, w: Window): (r: Mem)
    requires EntriesInRange(m, log)
    ensures |r| == |m|
    decreases |log|
  {
    if log == [] then m else
    var last := |log| - 1;
    Replay(RestoreEntry(m, log[last], w), log[..last], w)
  }

  predicate Covers(e: Entry, w: Window, i: int) {
    e.addr <= i < e.addr + 8 && !w.Skips(e.addr)
  }

  /** What byte `i` must hold after a replay: its contents in the oldest entry that covers it. */
  function Oldest(b: Byte, log: seq<Entry>, w: Window, i: int): Byte {
    if log == [] then b
    else if Covers(log[0], w, i) then log[0].data[i - log[0].addr]
    else Oldest(b, log[1..], w, i)
  }

  predicate Covered(log: seq<Entry>, w: Window, i: int) {
    exists k :: 0 <= k < |log| && Covers(log[k], w, i)
  }

  lemma {:induction false} OldestSnoc(b: Byte, log: seq<Entry>, e: Entry, w: Window, i: int)
    ensures Oldest(b, log + [e], w, i)
         == Oldest(if Covers(e, w, i) then e.data[i - e.addr] else b, log, w, i)
  {
    if log == [] {
      assert [] + [e] == [e];
      assert [e][1..] == [];
    } else {
      assert (log + [e])[1..] == log[1..] + [e];
      OldestSnoc(b, log[1..], e, w, i);
    }
  }

  lemma RestoredByte(m: Mem, e: Entry, w: Window, i: int)
    requires InRange(m, e.addr, 8) && 0 <= i < |m|
    ensures RestoreEntry(m, e, w)[i] == if Covers(e, w, i) then e.data[i - e.addr] else m[i]
  {
  }

  /** The reverse replay computes, byte by byte, the oldest covering entry. */
  lemma {:induction false} ReplayIsOldest(m: Mem, log: seq<Entry>, w: Window, i: int)
    requires EntriesInRange(m, log) && 0 <= i < |m|
    ensures Replay(m, log, w)[i] == Oldest(m[i], log, w, i)
    decreases |log|
  {
    if log != [] {
      hide RestoreEntry, Covers, Oldest;
      var prefix, e := log[..|log| - 1], log[|log| - 1];
      assert log == prefix + [e];
      RestoredByte(m, e, w, i);
      ReplayIsOldest(RestoreEntry(m, e, w), prefix, w, i);
      OldestSnoc(m[i], prefix, e, w, i);
    }
  }

  lemma {:induction false} OldestIgnoresCurrent(b: Byte, b': Byte, log: seq<Entry>, w: Window, i: int)
    requires b == b' || Covered(log, w, i)
    ensures Oldest(b, log, w, i) == Oldest(b', log, w, i)
  {
    if log != [] && !Covers(log[0], w, i) {
      if b != b' {
        var k :| 0 <= k < |log| && Covers(log[k], w, i);
        assert log[1..][k - 1] == log[k];
      }
      OldestIgnoresCurrent(b, b', log[1..], w, i);
    }
  }

  lemma {:induction false} OldestUncovered(b: Byte, log: seq<Entry>, w: Window, i: int)
    requires !Covered(log, w, i)
    ensures Oldest(b, log, w, i) == b
  {
    if log != [] {
      assert !Covers(log[0], w, i);
      forall k | 0 <= k < |log[1..]| ensures !Covers(log[1..][k], w, i) {
        assert log[1..][k] == log[k + 1];
      }
      OldestUncovered(b, log[1..], w, i);
    }
  }

  /** Overwriting a covered byte does not change what the replay restores. */
  lemma ReplayIgnoresCovered(m: Mem, m': Mem, log: seq<Entry>, w: Window, i: int)
    requires |m| == |m'| && EntriesInRange(m, log) && EntriesInRange(m', log) && 0 <= i < |m|
    requires m[i] == m'[i] || Covered(log, w, i)
    ensures Replay(m, log, w)[i] == Replay(m', log, w)[i]
  {
    ReplayIsOldest(m, log, w, i);
    ReplayIsOldest(m', log, w, i);
    OldestIgnoresCurrent(m[i], m'[i], log, w, i);
  }

  /** A byte that no unskipped entry covers keeps its current value. */
  lemma ReplayKeepsUncovered(m: Mem, log: seq<Entry>, w: Window, i: int)
    requires EntriesInRange(m, log) && 0 <= i < |m| && !Covered(log, w, i)
    ensures Replay(m, log, w)[i] == m[i]
  {
    ReplayIsOldest(m, log, w, i);
    OldestUncovered(m[i], log, w, i);
  }

  /** Logging a word with its current contents does not change what the replay restores. */
  lemma ReplayAfterLogging(m: Mem, log: seq<Entry>, a: int, w: Window)
    requires EntriesInRange(m, log) && InRange(m, a, 8)
    ensures EntriesInRange(m, log + [Entry(a, ReadWord(m, a))])
    ensures Replay(m, log + [Entry(a, ReadWord(m, a))], w) == Replay(m, log, w)
  {
    var e := Entry(a, ReadWord(m, a));
    var log' := log + [e];
    assert log'[|log|] == e && log'[..|log|] == log;
    WriteBack(m, a);
    assert RestoreEntry(m, e, w) == m;
  }
}
