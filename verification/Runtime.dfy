/**
  * The emulation runtime as a state machine: the globals of the static library, and
  * every hook as a function from the state before the call to the state after it.
  */
module Runtime {
  import opened Bytes
  import opened UndoLog

  const MAXLEN := 1024 * 8 * 8
  const SLOTS := 2 * MAXLEN
  const ARRAY_BYTES := MAXLEN * (8 + 8)
  const TRACE_SIZE := 10000
  const STACKLOG_MAXLEN := 4096 * 16

  /** Where the runtime keeps its log, and the two limits on a speculation. */
  datatype Setup = Setup(
    addrs: int,      // the array of logged addresses
    data: int,       // the array of logged contents
    addrsVar: int,   // the variable that points to the first array
    dataVar: int,    // the variable that points to the second array
    position: int,   // the variable that holds the log position
    enabled: int,    // the variable that says whether the log is on
    maxInstr: int,
    maxDepth: int)

  datatype RestartType =
    | OnReturn | OnCall | OnCallUndefined | OnInlineAsm | OnBlacklist | OnTimer | OnException
    | OnLimitSpec | OnCallDepth | OnCallDisabled | OnWritelogFull | OnPageFault
    | OnAssertion  // the placeholder type 0xffff of a failed assertion

  /** The reasons a hook or an interrupt can give for a restart. */
  type Reason = t: RestartType | t != OnAssertion witness OnReturn

  /** Whether a restart prints the reports that are pending; those of interrupts do not. */
  predicate Prints(t: RestartType) {
    t != OnTimer && t != OnException
  }

  datatype FuncType = NewCheckpoint | NewCheckpointInSpec | Restarted | RestartReturn | CheckCallDepth

  datatype Stats = Stats(
    total: nat, onReturn: nat, onCall: nat, onCallUndefined: nat, onInlineAsm: nat, onBlacklist: nat,
    onTimer: nat, onException: nat, onLimitSpec: nat, onCallDepth: nat, onCallDisabled: nat,
    onWritelogFull: nat, onPageFault: nat)
  {
    function Sum(): nat {
      onReturn + onCall + onCallUndefined + onInlineAsm + onBlacklist + onTimer + onException
      + onLimitSpec + onCallDepth + onCallDisabled + onWritelogFull + onPageFault
    }
  }

  function AddRestart(st: Stats, t: RestartType): Stats {
    var st := st.(total := st.total + 1);
    match t
    case OnReturn => st.(onReturn := st.onReturn + 1)
    case OnCall => st.(onCall := st.onCall + 1)
    case OnCallUndefined => st.(onCallUndefined := st.onCallUndefined + 1)
    case OnInlineAsm => st.(onInlineAsm := st.onInlineAsm + 1)
    case OnBlacklist => st.(onBlacklist := st.onBlacklist + 1)
    case OnTimer => st.(onTimer := st.onTimer + 1)
    case OnException => st.(onException := st.onException + 1)
    case OnLimitSpec => st.(onLimitSpec := st.onLimitSpec + 1)
    case OnCallDepth => st.(onCallDepth := st.onCallDepth + 1)
    case OnCallDisabled => st.(onCallDisabled := st.onCallDisabled + 1)
    case OnWritelogFull => st.(onWritelogFull := st.onWritelogFull + 1)
    case OnPageFault => st.(onPageFault := st.onPageFault + 1)
    case OnAssertion => st
  }

  /** The event trace is an array of fixed size; what comes after it is full is dropped. */
  function AddTrace(trace: seq<FuncType>, f: FuncType): seq<FuncType> {
    if |trace| >= TRACE_SIZE then trace else trace + [f]
  }

  datatype Rt = Rt(
    mem: Mem,
    log: seq<Entry>,
    logEnabled: bool,
    inSpec: bool,
    swap: bool,          // the next instrumented branch takes the other direction
    inRestart: bool,
    instrCount: int,
    callDepth: int,
    assertion: bool,     // an assertion failed in speculation and its panic is still due
    stackAt: int,        // where the saved stack frame begins
    stack: seq<Byte>,    // its contents at the checkpoint
    trace: seq<FuncType>,
    stats: Stats)

  /** Every logged word and the saved frame lie inside memory. */
  predicate Shape(s: Rt) {
    EntriesInRange(s.mem, s.log) && InRange(s.mem, s.stackAt, |s.stack|)
  }

  /** How a hook ends: it returns, control goes back to the checkpoint, or the kernel panics. */
  datatype Exit = Continues | Resumes | Panics

  datatype Outcome = Outcome(s: Rt, exit: Exit)

  // ----- Which words may be logged and restored -----

  predicate InArrays(c: Setup, a: int) {
    || c.addrs <= a < c.addrs + ARRAY_BYTES
    || c.data <= a < c.data + ARRAY_BYTES
  }

  predicate Exempt(c: Setup, a: int) {
    a == c.position || a == c.enabled
  }

  predicate CanRestore(c: Setup, a: int) {
    && !Overlaps(a, 8, c.addrs, ARRAY_BYTES)
    && !Overlaps(a, 8, c.data, ARRAY_BYTES)
    && !Overlaps(a, 8, c.addrsVar, 8)
    && !Overlaps(a, 8, c.dataVar, 8)
    && !Overlaps(a, 8, c.position, 8)
  }

  predicate AllRestorable(c: Setup, log: seq<Entry>, w: Window) {
    forall k :: 0 <= k < |log| && !w.Skips(log[k].addr) ==> CanRestore(c, log[k].addr)
  }

  // ----- Rollback -----

  /** Memory after the replay and the copy of the saved frame. */
  function Restored(s: Rt, w: Window): (m: Mem)
    requires Shape(s)
    ensures |m| == |s.mem|
  {
    Write(Replay(s.mem, s.log, w), s.stackAt, s.stack)
  }

  /** The part of a restart that ends the speculation. */
  function RollBack(c: Setup, s: Rt, w: Window): (r: Rt)
    requires Shape(s)
    ensures Shape(r) && |r.mem| == |s.mem|
  {
    s.(mem := Restored(s, w), log := [], logEnabled := false, inSpec := false, swap := false,
       callDepth := 0, inRestart := false,
       assertion := s.assertion || !AllRestorable(c, s.log, w))
  }

  function Restart(c: Setup, s: Rt, t: RestartType, w: Window): (r: Outcome)
    requires Shape(s)
    ensures Shape(r.s) && |r.s.mem| == |s.mem|
  {
    if !s.inSpec then Outcome(s, Continues)
    else if !s.assertion && t == OnReturn && s.callDepth > 0 then
      Outcome(s.(inRestart := true, trace := AddTrace(s.trace, RestartReturn), callDepth := s.callDepth - 1),
              Continues)
    else
      var s1 := if s.assertion then s else
        s.(trace := AddTrace(s.trace, Restarted), stats := AddRestart(s.stats, t));
      var s2 := RollBack(c, s1, w);
      Outcome(s2, if s2.assertion then Panics else Resumes)
  }

  /** A failed assertion. In speculation it is recorded and forces a restart, unless one seems to be running. */
  function Panic(c: Setup, s: Rt, w: Window): (r: Outcome)
    requires Shape(s)
    ensures Shape(r.s) && |r.s.mem| == |s.mem|
  {
    if !s.inSpec then Outcome(s, Panics)
    else if s.inRestart then Outcome(s.(assertion := true), Continues)
    else Restart(c, s.(assertion := true), OnAssertion, w)
  }

  // ----- The undo log -----

  function LogAligned(c: Setup, s: Rt, a: int, w: Window): (r: Outcome)
    requires Shape(s) && InRange(s.mem, a, 8)
    ensures Shape(r.s) && |r.s.mem| == |s.mem|
  {
    if |s.log| >= SLOTS then Restart(c, s, OnWritelogFull, w) else
    var r := if InArrays(c, a) then Panic(c, s, w) else Outcome(s, Continues);
    if r.exit != Continues || Exempt(c, a) then r
    else Outcome(r.s.(log := r.s.log + [Entry(a, ReadWord(r.s.mem, a))]), Continues)
  }

  predicate Loggable(m: Mem, a: int) {
    0 <= a && Align(a) + (if a % 8 == 0 then 8 else 16) <= |m|
  }

  /** Logs the word at `a`; an unaligned address logs the following word first. */
  function WriteWl(c: Setup, s: Rt, a: int, w: Window): (r: Outcome)
    requires Shape(s) && Loggable(s.mem, a)
    ensures Shape(r.s) && |r.s.mem| == |s.mem|
  {
    var r := if a % 8 == 0 then Outcome(s, Continues) else LogAligned(c, s, Align(a) + 8, w);
    if r.exit != Continues then r else LogAligned(c, r.s, Align(a), w)
  }

  predicate RangeLoggable(m: Mem, reg: int, end: int)
    decreases end - reg
  {
    reg >= end || (Loggable(m, reg) && RangeLoggable(m, reg + 8, end))
  }

  /** The logging loop of a block copy, from `reg` in steps of one word. */
  function LogRange(c: Setup, s: Rt, reg: int, end: int, w: Window): (r: Outcome)
    requires Shape(s) && RangeLoggable(s.mem, reg, end)
    ensures Shape(r.s) && |r.s.mem| == |s.mem|
    decreases end - reg
  {
    if reg >= end then Outcome(s, Continues) else
    var r := WriteWl(c, s, reg, w);
    if r.exit != Continues then r else
    RangeLoggableSameSize(s.mem, r.s.mem, reg, end);
    LogRange(c, r.s, reg + 8, end, w)
  }

  lemma RangeLoggableSameSize(m: Mem, m': Mem, reg: int, end: int)
    requires |m| == |m'| && RangeLoggable(m, reg, end)
    ensures RangeLoggable(m', reg, end)
    decreases end - reg
  {
  }

  // ----- The hooks -----

  function HookStore(c: Setup, s: Rt, a: int, w: Window): (r: Outcome)
    requires Shape(s) && Loggable(s.mem, a)
    ensures Shape(r.s) && |r.s.mem| == |s.mem|
  {
    if !s.logEnabled then Outcome(s, Continues) else WriteWl(c, s, a, w)
  }

  function CopyStart(a: int): int {
    a - a % 4
  }

  function HookMemcpy(c: Setup, s: Rt, a: int, n: int, w: Window): (r: Outcome)
    requires Shape(s) && RangeLoggable(s.mem, CopyStart(a), a + n)
    ensures Shape(r.s) && |r.s.mem| == |s.mem|
  {
    if !s.logEnabled then Outcome(s, Continues) else LogRange(c, s, CopyStart(a), a + n, w)
  }

  function HookSpecLength(c: Setup, s: Rt, n: int, w: Window): (r: Outcome)
    requires Shape(s)
    ensures Shape(r.s) && |r.s.mem| == |s.mem|
  {
    if !s.inSpec then Outcome(s, Continues) else
    var s1 := s.(instrCount := s.instrCount + n);
    if s1.instrCount >= c.maxInstr then Restart(c, s1, OnLimitSpec, w) else Outcome(s1, Continues)
  }

  function HookCallDepth(c: Setup, s: Rt, w: Window): (r: Outcome)
    requires Shape(s)
    ensures Shape(r.s) && |r.s.mem| == |s.mem|
  {
    if !s.logEnabled then Outcome(s, Continues) else
    var s1 := s.(trace := AddTrace(s.trace, CheckCallDepth), callDepth := s.callDepth + 1);
    if s1.callDepth >= c.maxDepth then Restart(c, s1, OnCallDepth, w) else Outcome(s1, Continues)
  }

  /** Whether the checkpoint hook takes a checkpoint; `admitted` is the verdict of the interrupt, irq and task tests. */
  predicate TakesCheckpoint(s: Rt, admitted: bool) {
    admitted && !s.assertion && !s.inSpec
  }

  /** The checkpoint hook and the stack hook after it; the saved frame is [rsp, base). */
  function HookCheckpoint(s: Rt, admitted: bool, swapEnabled: bool, base: int, rsp: int): (r: Rt)
    requires Shape(s) && 0 <= rsp <= base <= |s.mem|
    ensures Shape(r) && r.mem == s.mem
  {
    if TakesCheckpoint(s, admitted) then
      s.(instrCount := 0, trace := [NewCheckpoint], log := [], inSpec := true,
         swap := s.swap || swapEnabled, callDepth := 0, logEnabled := true,
         stackAt := rsp, stack := s.mem[rsp..base])
    else if admitted && !s.assertion then s.(trace := AddTrace(s.trace, NewCheckpointInSpec))
    else s
  }

  function Init(m: Mem): Rt {
    Rt(m, [], false, false, false, false, 0, 0, false, 0, [], [],
       Stats(0, 0, 0, 0, 0, 0, 0, 0, 0, 0, 0, 0, 0))
  }
}
