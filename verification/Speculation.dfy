/** Runs of the runtime: what holds between any two hooks, and what a finished speculation has left behind. */
module Speculation {
  import opened Bytes
  import opened UndoLog
  import opened Runtime
  import opened Rollback

  /** What instrumented code and the kernel around it can make the runtime do. */
  datatype Event =
    | Checkpoint(admitted: bool, swapEnabled: bool, base: int, rsp: int)
    | Memory(op: Op)
    | Branch                        // an instrumented branch reads the swap flag and clears it
    | BlockEnd(n: int)              // the end of a block of n instructions
    | Enter                         // the entry of an instrumented function
    | RestartHook(t: Reason)         // a return, an opaque call, an interrupt, ...
    | AssertFails

  /** An event, and the stack window of the runtime while it handles it. */
  datatype Input = Input(e: Event, w: Window)

  predicate EventOk(m: Mem, e: Event) {
    match e
    case Checkpoint(_, _, base, rsp) => 0 <= rsp <= base <= |m|
    case Memory(op) => OpOk(m, op)
    case BlockEnd(n) => n >= 1
    case _ => true
  }

  function Step(c: Setup, s: Rt, e: Event, w: Window): (r: Outcome)
    requires Shape(s) && EventOk(s.mem, e)
    ensures Shape(r.s) && |r.s.mem| == |s.mem|
  {
    match e
    case Checkpoint(admitted, swapEnabled, base, rsp) =>
      Outcome(HookCheckpoint(s, admitted, swapEnabled, base, rsp), Continues)
    case Memory(op) => DoOp(c, s, op, w)
    case Branch => Outcome(s.(swap := false), Continues)
    case BlockEnd(n) => HookSpecLength(c, s, n, w)
    case Enter => HookCallDepth(c, s, w)
    case RestartHook(t) => Restart(c, s, t, w)
    case AssertFails => Panic(c, s, w)
  }

  predicate InputsOk(m: Mem, ins: seq<Input>) {
    forall k :: 0 <= k < |ins| ==> EventOk(m, ins[k].e)
  }

  lemma InputsOkSameSize(m: Mem, m': Mem, ins: seq<Input>)
    requires |m| == |m'| && InputsOk(m, ins)
    ensures InputsOk(m', ins)
  {
    forall k | 0 <= k < |ins| ensures EventOk(m', ins[k].e) {
      if ins[k].e.Memory? && ins[k].e.op.Copy? {
        var op := ins[k].e.op;
        RangeLoggableSameSize(m, m', CopyStart(op.addr), op.addr + |op.bytes|);
      }
    }
  }

  /** A run up to its end or its panic. */
  function Run(c: Setup, s: Rt, ins: seq<Input>): (r: Outcome)
    requires Shape(s) && InputsOk(s.mem, ins)
    ensures Shape(r.s) && |r.s.mem| == |s.mem|
    decreases |ins|
  {
    if ins == [] then Outcome(s, Continues) else
    var r := Step(c, s, ins[0].e, ins[0].w);
    if r.exit == Panics then r else
    InputsOkSameSize(s.mem, r.s.mem, ins);
    Run(c, r.s, ins[1..])
  }

  // ----- The invariant between hooks -----

  ghost function Count(trace: seq<FuncType>, f: FuncType): nat {
    multiset(trace)[f]
  }

  predicate SetupOk(c: Setup) {
    c.maxInstr > 0 && c.maxDepth > 0
  }

  ghost predicate Inv(c: Setup, s: Rt) {
    && s.logEnabled == s.inSpec
    && (s.swap || s.inRestart || s.assertion ==> s.inSpec)
    && (s.assertion ==> s.inRestart)
    && (!s.inSpec ==> s.log == [] && s.callDepth == 0)
    && (s.inSpec ==> 0 <= s.instrCount < c.maxInstr && 0 <= s.callDepth < c.maxDepth)
    && |s.log| <= SLOTS
    && s.stats.total == s.stats.Sum()
    && (s.inSpec && |s.trace| < TRACE_SIZE ==>
          s.callDepth == Count(s.trace, CheckCallDepth) - Count(s.trace, RestartReturn))
    && LogAdmitted(c, s)
  }

  /** Every entry is an aligned word that passed the checks made when it was logged. */
  ghost predicate LogAdmitted(c: Setup, s: Rt) {
    forall k :: 0 <= k < |s.log| ==>
      s.log[k].addr % 8 == 0 && !Exempt(c, s.log[k].addr) && (InArrays(c, s.log[k].addr) ==> s.assertion)
  }

  lemma RestartInv(c: Setup, s: Rt, t: Reason, w: Window)
    requires Shape(s) && Inv(c, s)
    ensures var r := Restart(c, s, t, w); r.exit != Panics ==> Inv(c, r.s)
  {
    hide Restored, AllRestorable;
  }

  lemma LogAlignedInv(c: Setup, s: Rt, a: int, w: Window)
    requires Shape(s) && InRange(s.mem, a, 8) && a % 8 == 0 && Inv(c, s) && s.inSpec
    ensures var r := LogAligned(c, s, a, w);
            r.exit != Panics ==> Inv(c, r.s) && (r.exit == Continues ==> r.s.inSpec)
  {
    hide Restored, AllRestorable;
  }

  lemma WriteWlInv(c: Setup, s: Rt, a: int, w: Window)
    requires Shape(s) && Loggable(s.mem, a) && Inv(c, s) && s.inSpec
    ensures var r := WriteWl(c, s, a, w);
            r.exit != Panics ==> Inv(c, r.s) && (r.exit == Continues ==> r.s.inSpec)
  {
    hide LogAligned;
    if a % 8 != 0 {
      LogAlignedInv(c, s, Align(a) + 8, w);
    }
    var r := if a % 8 == 0 then Outcome(s, Continues) else LogAligned(c, s, Align(a) + 8, w);
    if r.exit == Continues {
      LogAlignedInv(c, r.s, Align(a), w);
    }
  }

  lemma {:induction false} LogRangeInv(c: Setup, s: Rt, reg: int, end: int, w: Window)
    requires Shape(s) && RangeLoggable(s.mem, reg, end) && Inv(c, s) && s.inSpec
    ensures var r := LogRange(c, s, reg, end, w);
            r.exit != Panics ==> Inv(c, r.s) && (r.exit == Continues ==> r.s.inSpec)
    decreases end - reg
  {
    hide WriteWl, Inv;
    if reg < end {
      WriteWlInv(c, s, reg, w);
      var r := WriteWl(c, s, reg, w);
      if r.exit == Continues {
        RangeLoggableSameSize(s.mem, r.s.mem, reg, end);
        LogRangeInv(c, r.s, reg + 8, end, w);
      }
    }
  }

  lemma MemoryInv(c: Setup, s: Rt, op: Op, w: Window)
    requires Shape(s) && OpOk(s.mem, op) && Inv(c, s)
    ensures var r := DoOp(c, s, op, w); r.exit != Panics ==> Inv(c, r.s)
  {
    hide LogRange, WriteWl;
    if s.inSpec {
      match op
      case Store(a, _) => WriteWlInv(c, s, a, w);
      case Copy(a, bytes) => LogRangeInv(c, s, CopyStart(a), a + |bytes|, w);
      case Unlogged(_, _) =>
    }
  }

  lemma CheckpointInv(c: Setup, s: Rt, admitted: bool, swapEnabled: bool, base: int, rsp: int)
    requires Shape(s) && 0 <= rsp <= base <= |s.mem| && SetupOk(c) && Inv(c, s)
    ensures Inv(c, HookCheckpoint(s, admitted, swapEnabled, base, rsp))
  {
    assert Count([NewCheckpoint], CheckCallDepth) == Count([NewCheckpoint], RestartReturn) == 0;
  }

  lemma CallDepthInv(c: Setup, s: Rt, w: Window)
    requires Shape(s) && Inv(c, s)
    ensures var r := HookCallDepth(c, s, w); r.exit != Panics ==> Inv(c, r.s)
  {
    hide Restored, AllRestorable;
  }

  lemma SpecLengthInv(c: Setup, s: Rt, n: int, w: Window)
    requires Shape(s) && Inv(c, s) && n >= 1
    ensures var r := HookSpecLength(c, s, n, w); r.exit != Panics ==> Inv(c, r.s)
  {
    hide Restored, AllRestorable;
  }

  lemma StepInv(c: Setup, s: Rt, e: Event, w: Window)
    requires Shape(s) && EventOk(s.mem, e) && SetupOk(c) && Inv(c, s)
    ensures var r := Step(c, s, e, w); r.exit != Panics ==> Inv(c, r.s)
  {
    match e
    case Checkpoint(admitted, swapEnabled, base, rsp) => CheckpointInv(c, s, admitted, swapEnabled, base, rsp);
    case Memory(op) => MemoryInv(c, s, op, w);
    case Branch =>
    case BlockEnd(n) => SpecLengthInv(c, s, n, w);
    case Enter => CallDepthInv(c, s, w);
    case RestartHook(t) => RestartInv(c, s, t, w);
    case AssertFails =>
  }

  /** The invariant holds between any two hooks of any run. */
  lemma {:induction false} RunInv(c: Setup, s: Rt, ins: seq<Input>)
    requires Shape(s) && InputsOk(s.mem, ins) && SetupOk(c) && Inv(c, s)
    ensures var r := Run(c, s, ins); r.exit != Panics ==> Inv(c, r.s)
    decreases |ins|
  {
    if ins != [] {
      StepInv(c, s, ins[0].e, ins[0].w);
      var r := Step(c, s, ins[0].e, ins[0].w);
      if r.exit != Panics {
        InputsOkSameSize(s.mem, r.s.mem, ins);
        RunInv(c, r.s, ins[1..]);
      }
    }
  }

  // ----- What the logging hooks leave alone -----

  /** A logging hook that returns changed nothing but the log and the record of a failed assertion. */
  ghost predicate OnlyLogs(s: Rt, r: Outcome) {
    && (r.exit == Continues ==>
          r.s == s.(log := r.s.log, assertion := r.s.assertion) && (s.assertion ==> r.s.assertion))
    && (r.exit == Resumes ==> !s.assertion && r.s.stats.total == s.stats.total + 1)
    && (r.exit != Continues ==> !r.s.inSpec && !r.s.swap)
  }

  lemma LogAlignedOnlyLogs(c: Setup, s: Rt, a: int, w: Window)
    requires Shape(s) && InRange(s.mem, a, 8) && s.inSpec
    ensures OnlyLogs(s, LogAligned(c, s, a, w))
  {
    hide Restored, AllRestorable;
  }

  lemma WriteWlOnlyLogs(c: Setup, s: Rt, a: int, w: Window)
    requires Shape(s) && Loggable(s.mem, a) && s.inSpec
    ensures OnlyLogs(s, WriteWl(c, s, a, w))
  {
    hide LogAligned;
    var r := if a % 8 == 0 then Outcome(s, Continues) else LogAligned(c, s, Align(a) + 8, w);
    if a % 8 != 0 {
      LogAlignedOnlyLogs(c, s, Align(a) + 8, w);
    }
    if r.exit == Continues {
      LogAlignedOnlyLogs(c, r.s, Align(a), w);
    }
  }

  lemma {:induction false} LogRangeOnlyLogs(c: Setup, s: Rt, reg: int, end: int, w: Window)
    requires Shape(s) && RangeLoggable(s.mem, reg, end) && s.inSpec
    ensures OnlyLogs(s, LogRange(c, s, reg, end, w))
    decreases end - reg
  {
    hide WriteWl;
    if reg < end {
      WriteWlOnlyLogs(c, s, reg, w);
      var r := WriteWl(c, s, reg, w);
      if r.exit == Continues {
        RangeLoggableSameSize(s.mem, r.s.mem, reg, end);
        LogRangeOnlyLogs(c, r.s, reg + 8, end, w);
      }
    }
  }

  lemma OpHookOnlyLogs(c: Setup, s: Rt, op: Op, w: Window)
    requires Shape(s) && OpOk(s.mem, op) && s.inSpec && s.logEnabled
    ensures OnlyLogs(s, OpHook(c, s, op, w))
  {
    hide WriteWl, LogRange;
    match op
    case Store(a, _) => WriteWlOnlyLogs(c, s, a, w);
    case Copy(a, bytes) => LogRangeOnlyLogs(c, s, CopyStart(a), a + |bytes|, w);
    case Unlogged(_, _) =>
  }

  // ----- Conservation -----

  function Bit(b: bool): int {
    if b then 1 else 0
  }

  predicate Takes(s: Rt, e: Event) {
    e.Checkpoint? && TakesCheckpoint(s, e.admitted)
  }

  /** How many checkpoints a run takes. */
  function Taken(c: Setup, s: Rt, ins: seq<Input>): int
    requires Shape(s) && InputsOk(s.mem, ins)
    decreases |ins|
  {
    if ins == [] then 0 else
    var r := Step(c, s, ins[0].e, ins[0].w);
    Bit(Takes(s, ins[0].e)) +
    if r.exit == Panics then 0 else
    InputsOkSameSize(s.mem, r.s.mem, ins);
    Taken(c, r.s, ins[1..])
  }

  lemma StepTotal(c: Setup, s: Rt, e: Event, w: Window)
    requires Shape(s) && EventOk(s.mem, e) && SetupOk(c) && Inv(c, s)
    ensures var r := Step(c, s, e, w);
            r.exit != Panics ==>
              Bit(Takes(s, e)) == r.s.stats.total - s.stats.total + Bit(r.s.inSpec) - Bit(s.inSpec)
  {
    hide Restored, AllRestorable, WriteWl, LogRange;
    if e.Memory? && s.inSpec {
      OpHookOnlyLogs(c, s, e.op, w);
    }
  }

  /**
    * In every state before a panic the restarts counted are the sum of the twelve categories, and
    * every checkpoint taken was followed by exactly one of them, except the one still open.
    */
  lemma {:induction false} Conservation(c: Setup, s: Rt, ins: seq<Input>)
    requires Shape(s) && InputsOk(s.mem, ins) && SetupOk(c) && Inv(c, s)
    requires Run(c, s, ins).exit != Panics
    ensures var r := Run(c, s, ins).s;
            && r.stats.total == r.stats.Sum()
            && Taken(c, s, ins) == r.stats.total - s.stats.total + Bit(r.inSpec) - Bit(s.inSpec)
    decreases |ins|
  {
    if ins != [] {
      StepInv(c, s, ins[0].e, ins[0].w);
      StepTotal(c, s, ins[0].e, ins[0].w);
      var r := Step(c, s, ins[0].e, ins[0].w);
      InputsOkSameSize(s.mem, r.s.mem, ins);
      Conservation(c, r.s, ins[1..]);
    }
  }

  /** The counter of a category. */
  function Counter(st: Stats, t: Reason): nat {
    match t
    case OnReturn => st.onReturn
    case OnCall => st.onCall
    case OnCallUndefined => st.onCallUndefined
    case OnInlineAsm => st.onInlineAsm
    case OnBlacklist => st.onBlacklist
    case OnTimer => st.onTimer
    case OnException => st.onException
    case OnLimitSpec => st.onLimitSpec
    case OnCallDepth => st.onCallDepth
    case OnCallDisabled => st.onCallDisabled
    case OnWritelogFull => st.onWritelogFull
    case OnPageFault => st.onPageFault
  }

  /** A step of a run ends a speculation for the reason `t`: the hook was called with it, or ran into that limit. */
  predicate EndsBy(c: Setup, s: Rt, e: Event, w: Window, t: Reason)
    requires Shape(s) && EventOk(s.mem, e)
  {
    Step(c, s, e, w).exit == Resumes &&
    match e
    case RestartHook(u) => t == u
    case BlockEnd(_) => t == OnLimitSpec
    case Enter => t == OnCallDepth
    case Memory(_) => t == OnWritelogFull
    case _ => false
  }

  /** How many speculations of a run end for the reason `t`. */
  function Ended(c: Setup, s: Rt, ins: seq<Input>, t: Reason): int
    requires Shape(s) && InputsOk(s.mem, ins)
    decreases |ins|
  {
    if ins == [] then 0 else
    var r := Step(c, s, ins[0].e, ins[0].w);
    Bit(EndsBy(c, s, ins[0].e, ins[0].w, t)) +
    if r.exit == Panics then 0 else
    InputsOkSameSize(s.mem, r.s.mem, ins);
    Ended(c, r.s, ins[1..], t)
  }

  /** A logging hook that does not return has counted and traced its restart as a full log. */
  ghost predicate CountsFull(s: Rt, r: Outcome) {
    && (r.exit == Continues ==> r.s.stats == s.stats && r.s.trace == s.trace)
    && (r.exit == Resumes ==>
          r.s.stats == AddRestart(s.stats, OnWritelogFull) && r.s.trace == AddTrace(s.trace, Restarted))
  }

  lemma LogAlignedCounts(c: Setup, s: Rt, a: int, w: Window)
    requires Shape(s) && InRange(s.mem, a, 8) && s.inSpec
    ensures CountsFull(s, LogAligned(c, s, a, w))
  {
    hide Restored, AllRestorable, AddRestart;
  }

  lemma WriteWlCounts(c: Setup, s: Rt, a: int, w: Window)
    requires Shape(s) && Loggable(s.mem, a) && s.inSpec
    ensures CountsFull(s, WriteWl(c, s, a, w))
  {
    hide LogAligned, AddRestart;
    var r := if a % 8 == 0 then Outcome(s, Continues) else LogAligned(c, s, Align(a) + 8, w);
    if a % 8 != 0 {
      LogAlignedCounts(c, s, Align(a) + 8, w);
      LogAlignedOnlyLogs(c, s, Align(a) + 8, w);
    }
    if r.exit == Continues {
      LogAlignedCounts(c, r.s, Align(a), w);
    }
  }

  lemma {:induction false} LogRangeCounts(c: Setup, s: Rt, reg: int, end: int, w: Window)
    requires Shape(s) && RangeLoggable(s.mem, reg, end) && s.inSpec
    ensures CountsFull(s, LogRange(c, s, reg, end, w))
    decreases end - reg
  {
    hide WriteWl, AddRestart;
    if reg < end {
      WriteWlCounts(c, s, reg, w);
      WriteWlOnlyLogs(c, s, reg, w);
      var r := WriteWl(c, s, reg, w);
      if r.exit == Continues {
        RangeLoggableSameSize(s.mem, r.s.mem, reg, end);
        LogRangeCounts(c, r.s, reg + 8, end, w);
      }
    }
  }

  lemma MemoryCounts(c: Setup, s: Rt, op: Op, w: Window)
    requires Shape(s) && OpOk(s.mem, op) && Inv(c, s) && s.inSpec
    ensures CountsFull(s, DoOp(c, s, op, w))
  {
    hide WriteWl, LogRange, AddRestart;
    match op
    case Store(a, _) => WriteWlCounts(c, s, a, w);
    case Copy(a, bytes) => LogRangeCounts(c, s, CopyStart(a), a + |bytes|, w);
    case Unlogged(_, _) =>
  }

  lemma RestartCounts(c: Setup, s: Rt, u: RestartType, w: Window, t: Reason)
    requires Shape(s) && s.inSpec
    ensures var r := Restart(c, s, u, w);
            && (r.exit == Continues ==> r.s.stats == s.stats)
            && (r.exit == Resumes ==> !s.assertion && Counter(r.s.stats, t) == Counter(s.stats, t) + Bit(t == u))
  {
    hide Restored, AllRestorable, AddTrace;
  }

  lemma StepCounts(c: Setup, s: Rt, e: Event, w: Window, t: Reason)
    requires Shape(s) && EventOk(s.mem, e) && SetupOk(c) && Inv(c, s)
    ensures var r := Step(c, s, e, w);
            r.exit != Panics ==> Counter(r.s.stats, t) == Counter(s.stats, t) + Bit(EndsBy(c, s, e, w, t))
  {
    hide Restart, DoOp, Counter, AddTrace, Inv, AddRestart;
    assert s.logEnabled == s.inSpec by { LogFollowsSpec(c, s); }
    if s.inSpec {
      match e
      case Checkpoint(_, _, _, _) =>
      case Memory(op) =>
        MemoryCounts(c, s, op, w);
        FullCounter(s.stats, t);
      case Branch =>
      case BlockEnd(n) => RestartCounts(c, s.(instrCount := s.instrCount + n), OnLimitSpec, w, t);
      case Enter =>
        var s1 := s.(trace := AddTrace(s.trace, CheckCallDepth), callDepth := s.callDepth + 1);
        RestartCounts(c, s1, OnCallDepth, w, t);
      case RestartHook(u) => RestartCounts(c, s, u, w, t);
      case AssertFails => RestartCounts(c, s.(assertion := true), OnAssertion, w, t);
    } else {
      OutsideCountsNothing(c, s, e, w);
    }
  }

  lemma LogFollowsSpec(c: Setup, s: Rt)
    requires Inv(c, s)
    ensures s.logEnabled == s.inSpec
  {
  }

  lemma FullCounter(st: Stats, t: Reason)
    ensures Counter(AddRestart(st, OnWritelogFull), t) == Counter(st, t) + Bit(t == OnWritelogFull)
  {
  }

  lemma OutsideCountsNothing(c: Setup, s: Rt, e: Event, w: Window)
    requires Shape(s) && EventOk(s.mem, e) && !s.inSpec && !s.logEnabled
    ensures var r := Step(c, s, e, w); r.exit != Resumes && r.s.stats == s.stats
  {
  }

  /** Each of the twelve counters says how many speculations of the run ended for its reason. */
  lemma {:induction false} CountersAreExact(c: Setup, s: Rt, ins: seq<Input>, t: Reason)
    requires Shape(s) && InputsOk(s.mem, ins) && SetupOk(c) && Inv(c, s)
    requires Run(c, s, ins).exit != Panics
    ensures Counter(Run(c, s, ins).s.stats, t) == Counter(s.stats, t) + Ended(c, s, ins, t)
    decreases |ins|
  {
    hide Inv, Step, EndsBy, Counter;
    if ins != [] {
      StepInv(c, s, ins[0].e, ins[0].w);
      StepCounts(c, s, ins[0].e, ins[0].w, t);
      var r := Step(c, s, ins[0].e, ins[0].w);
      InputsOkSameSize(s.mem, r.s.mem, ins);
      CountersAreExact(c, r.s, ins[1..], t);
    }
  }

  // ----- A single speculation -----

  /** The run neither leaves speculation nor panics. */
  predicate StaysInSpec(c: Setup, s: Rt, ins: seq<Input>)
    requires Shape(s) && InputsOk(s.mem, ins)
    decreases |ins|
  {
    s.inSpec && (ins == [] ||
      var r := Step(c, s, ins[0].e, ins[0].w);
      r.exit == Continues &&
      (InputsOkSameSize(s.mem, r.s.mem, ins); StaysInSpec(c, r.s, ins[1..])))
  }

  function Charges(ins: seq<Input>): int {
    if ins == [] then 0 else (if ins[0].e.BlockEnd? then ins[0].e.n else 0) + Charges(ins[1..])
  }

  function Blocks(ins: seq<Input>): int {
    if ins == [] then 0 else Bit(ins[0].e.BlockEnd?) + Blocks(ins[1..])
  }

  function Entries(ins: seq<Input>): int {
    if ins == [] then 0 else Bit(ins[0].e.Enter?) + Entries(ins[1..])
  }

  function Returns(ins: seq<Input>): int {
    if ins == [] then 0 else Bit(ins[0].e == RestartHook(OnReturn)) + Returns(ins[1..])
  }

  lemma StepCounters(c: Setup, s: Rt, e: Event, w: Window)
    requires Shape(s) && EventOk(s.mem, e) && Inv(c, s) && s.inSpec && Step(c, s, e, w).exit == Continues
    ensures var r := Step(c, s, e, w).s;
            && r.callDepth == s.callDepth + Bit(e.Enter?) - Bit(e == RestartHook(OnReturn))
            && r.instrCount == s.instrCount + (if e.BlockEnd? then e.n else 0)
  {
    if e.Memory? {
      OpHookOnlyLogs(c, s, e.op, w);
    }
  }

  /**
    * While a speculation lasts, its depth is the entries minus the returns since the checkpoint,
    * its length the instructions charged since, and both stay below their limits. So it ends
    * before `maxInstr` blocks have been charged.
    */
  lemma {:induction false} BoundedWindow(c: Setup, s: Rt, ins: seq<Input>)
    requires Shape(s) && InputsOk(s.mem, ins) && SetupOk(c) && Inv(c, s) && StaysInSpec(c, s, ins)
    ensures var r := Run(c, s, ins);
            && r.exit == Continues && r.s.inSpec
            && r.s.callDepth == s.callDepth + Entries(ins) - Returns(ins)
            && 0 <= r.s.callDepth < c.maxDepth
            && r.s.instrCount == s.instrCount + Charges(ins)
            && Blocks(ins) <= Charges(ins)
            && s.instrCount + Blocks(ins) < c.maxInstr
    decreases |ins|
  {
    if ins != [] {
      StepInv(c, s, ins[0].e, ins[0].w);
      StepCounters(c, s, ins[0].e, ins[0].w);
      var r := Step(c, s, ins[0].e, ins[0].w);
      InputsOkSameSize(s.mem, r.s.mem, ins);
      BoundedWindow(c, r.s, ins[1..]);
    }
  }

  lemma OpHookKeepsLength(c: Setup, s: Rt, op: Op, w: Window)
    requires Shape(s) && OpOk(s.mem, op)
    ensures OpHook(c, s, op, w).s.instrCount == s.instrCount
  {
    hide WriteWl, LogRange;
    match op
    case Store(a, _) => WriteWlKeepsLength(c, s, a, w);
    case Copy(a, bytes) => LogRangeKeepsLength(c, s, CopyStart(a), a + |bytes|, w);
    case Unlogged(_, _) =>
  }

  lemma WriteWlKeepsLength(c: Setup, s: Rt, a: int, w: Window)
    requires Shape(s) && Loggable(s.mem, a)
    ensures WriteWl(c, s, a, w).s.instrCount == s.instrCount
  {
    hide LogAligned;
    var r := if a % 8 == 0 then Outcome(s, Continues) else LogAligned(c, s, Align(a) + 8, w);
    if a % 8 != 0 {
      LogAlignedKeepsLength(c, s, Align(a) + 8, w);
    }
    if r.exit == Continues {
      LogAlignedKeepsLength(c, r.s, Align(a), w);
    }
  }

  lemma LogAlignedKeepsLength(c: Setup, s: Rt, a: int, w: Window)
    requires Shape(s) && InRange(s.mem, a, 8)
    ensures LogAligned(c, s, a, w).s.instrCount == s.instrCount
  {
    hide Restored, AllRestorable;
  }

  lemma {:induction false} LogRangeKeepsLength(c: Setup, s: Rt, reg: int, end: int, w: Window)
    requires Shape(s) && RangeLoggable(s.mem, reg, end)
    ensures LogRange(c, s, reg, end, w).s.instrCount == s.instrCount
    decreases end - reg
  {
    hide WriteWl;
    if reg < end {
      WriteWlKeepsLength(c, s, reg, w);
      var r := WriteWl(c, s, reg, w);
      if r.exit == Continues {
        RangeLoggableSameSize(s.mem, r.s.mem, reg, end);
        LogRangeKeepsLength(c, r.s, reg + 8, end, w);
      }
    }
  }

  lemma EndKeepsLength(c: Setup, s: Rt, e: Event, w: Window)
    requires Shape(s) && EventOk(s.mem, e) && Inv(c, s) && s.inSpec
    ensures Step(c, s, e, w).s.instrCount == s.instrCount + (if e.BlockEnd? then e.n else 0)
  {
    hide Restored, AllRestorable, WriteWl, LogRange;
    if e.Memory? {
      OpHookKeepsLength(c, s, e.op, w);
    }
  }

  /**
    * However a speculation ends, the instructions charged to it are the sum of all its charges, the
    * last block included, and so fewer than the limit and the size of its last block together.
    */
  lemma FinalLength(c: Setup, s: Rt, ins: seq<Input>, e: Event, w: Window)
    requires Shape(s) && InputsOk(s.mem, ins) && SetupOk(c) && Inv(c, s) && StaysInSpec(c, s, ins)
    requires EventOk(Run(c, s, ins).s.mem, e)
    ensures var size := if e.BlockEnd? then e.n else 0;
            && Step(c, Run(c, s, ins).s, e, w).s.instrCount == s.instrCount + Charges(ins) + size
            && s.instrCount + Charges(ins) + size < c.maxInstr + size
  {
    BoundedWindow(c, s, ins);
    RunInv(c, s, ins);
    EndKeepsLength(c, Run(c, s, ins).s, e, w);
  }

  /**
    * The in-restart flag says whether a nested call has returned: no other event of a speculation sets
    * it, and none clears it.
    */
  lemma {:induction false} StaleIffReturned(c: Setup, s: Rt, ins: seq<Input>)
    requires Shape(s) && InputsOk(s.mem, ins) && SetupOk(c) && Inv(c, s) && StaysInSpec(c, s, ins)
    ensures Run(c, s, ins).s.inRestart <==> s.inRestart || Returns(ins) > 0
    decreases |ins|
  {
    hide Step;
    ReturnsNotNegative(ins);
    if ins != [] {
      StepInv(c, s, ins[0].e, ins[0].w);
      StepFlag(c, s, ins[0].e, ins[0].w);
      var r := Step(c, s, ins[0].e, ins[0].w);
      InputsOkSameSize(s.mem, r.s.mem, ins);
      ReturnsNotNegative(ins[1..]);
      StaleIffReturned(c, r.s, ins[1..]);
    }
  }

  lemma StepFlag(c: Setup, s: Rt, e: Event, w: Window)
    requires Shape(s) && EventOk(s.mem, e) && Inv(c, s) && s.inSpec && Step(c, s, e, w).exit == Continues
    ensures Step(c, s, e, w).s.inRestart <==> s.inRestart || e == RestartHook(OnReturn)
  {
    if e.Memory? {
      OpHookOnlyLogs(c, s, e.op, w);
    }
  }

  lemma ReturnsNotNegative(ins: seq<Input>)
    ensures Returns(ins) >= 0
  {
  }

  /**
    * An assertion that fails in a speculation panics at once, with memory rolled back, if and only if
    * no nested call has returned since the checkpoint; otherwise it is recorded and nothing else happens.
    */
  lemma PanicsAtOnceIffNoReturn(c: Setup, s: Rt, ck: Event, ins: seq<Input>, w: Window)
    requires SetupOk(c) && Shape(s) && Inv(c, s) && EventOk(s.mem, ck) && Takes(s, ck)
    requires InputsOk(s.mem, ins) && StaysInSpec(c, Step(c, s, ck, w).s, ins)
    ensures var s2 := Run(c, Step(c, s, ck, w).s, ins).s;
            var r := Panic(c, s2, w);
            && (r.exit == Panics <==> Returns(ins) == 0)
            && (Returns(ins) == 0 ==> r.s.mem == Restored(s2, w) && !r.s.inSpec)
            && (Returns(ins) > 0 ==> r == Outcome(s2.(assertion := true), Continues))
  {
    hide Replay, AllRestorable;
    var s1 := Step(c, s, ck, w).s;
    StepInv(c, s, ck, w);
    StaleIffReturned(c, s1, ins);
    SpecKeepsSnapshot(c, s1, ins);
    ReturnsNotNegative(ins);
  }

  /** The shortest input for which an assertion does not panic at once: a call that has returned. */
  lemma CallSilencesAssertion(c: Setup, m: Mem, w: Window)
    requires c.maxInstr > 0 && c.maxDepth > 1
    ensures var s1 := HookCheckpoint(Init(m), true, true, 0, 0);
            var ins := [Input(Enter, w), Input(RestartHook(OnReturn), w)];
            && StaysInSpec(c, s1, ins)
            && Panic(c, Run(c, s1, ins).s, w) == Outcome(Run(c, s1, ins).s.(assertion := true), Continues)
  {
    var s1 := HookCheckpoint(Init(m), true, true, 0, 0);
    var ins := [Input(Enter, w), Input(RestartHook(OnReturn), w)];
    var s2 := Step(c, s1, Enter, w).s;
    var s3 := Step(c, s2, RestartHook(OnReturn), w).s;
    assert ins[1..] == [Input(RestartHook(OnReturn), w)] && ins[1..][1..] == [];
    assert StaysInSpec(c, s3, []) && StaysInSpec(c, s2, ins[1..]);
    assert Run(c, s3, []).s == s3 && Run(c, s2, ins[1..]).s == s3;
  }

  /** A return at depth zero always ends the speculation, whatever else has happened. */
  lemma ReturnAtDepthZero(c: Setup, s: Rt, w: Window)
    requires Shape(s) && Inv(c, s) && s.inSpec && s.callDepth == 0
    ensures var r := Restart(c, s, OnReturn, w);
            r.exit != Continues && !r.s.inSpec && r.s.mem == Restored(s, w)
  {
  }

  // ----- Exactness -----

  predicate AllConfined(ins: seq<Input>, lo: int, hi: int) {
    forall k :: 0 <= k < |ins| && ins[k].e.Memory? ==> Confined(ins[k].e.op, lo, hi)
  }

  /** All events but a checkpoint that is taken treat memory as the hooks promise. */
  lemma StepFaithful(c: Setup, s: Rt, e: Event, w: Window)
    requires Shape(s) && EventOk(s.mem, e) && Inv(c, s) && s.inSpec && !e.Memory?
    ensures Faithful(s, Step(c, s, e, w), w)
  {
    hide Replay, AllRestorable, AddRestart, AddTrace;
  }

  /** However a speculation ends, memory is what the log restored, and over it the saved frame. */
  lemma EndRestores(c: Setup, s: Rt, e: Event, w: Window)
    requires Shape(s) && EventOk(s.mem, e) && Inv(c, s) && s.inSpec && Step(c, s, e, w).exit != Continues
    ensures var r := Step(c, s, e, w).s; !r.inSpec && r.log == [] && r.mem == Restored(s, w)
  {
    if e.Memory? {
      OpHookFaithful(c, s, e.op, w);
    } else {
      StepFaithful(c, s, e, w);
    }
  }

  /** During a speculation, what a rollback would restore does not change. */
  lemma {:induction false} SpecKeepsReplay(
    c: Setup, s: Rt, ins: seq<Input>, lo: int, hi: int, w: Window, i: int)
    requires Shape(s) && InputsOk(s.mem, ins) && SetupOk(c) && Inv(c, s) && StaysInSpec(c, s, ins)
    requires AllConfined(ins, lo, hi)
    requires 0 <= i < |s.mem| && !(lo <= i < hi) && !w.Skips(Align(i)) && !Exempt(c, Align(i))
    ensures var r := Run(c, s, ins).s; Replay(r.mem, r.log, w)[i] == Replay(s.mem, s.log, w)[i]
    decreases |ins|
  {
    if ins != [] {
      var e, w0 := ins[0].e, ins[0].w;
      var r := Step(c, s, e, w0);
      StepInv(c, s, e, w0);
      if e.Memory? {
        DoOpKeepsReplay(c, s, e.op, w0, lo, hi, w, i);
      } else {
        StepFaithful(c, s, e, w0);
        ExtendsKeepsReplay(s, r.s, w);
      }
      InputsOkSameSize(s.mem, r.s.mem, ins);
      SpecKeepsReplay(c, r.s, ins[1..], lo, hi, w, i);
    }
  }

  lemma {:induction false} SpecKeepsSnapshot(c: Setup, s: Rt, ins: seq<Input>)
    requires Shape(s) && InputsOk(s.mem, ins) && SetupOk(c) && Inv(c, s) && StaysInSpec(c, s, ins)
    ensures var r := Run(c, s, ins).s; Inv(c, r) && r.inSpec && r.stackAt == s.stackAt && r.stack == s.stack
    decreases |ins|
  {
    if ins != [] {
      var e, w0 := ins[0].e, ins[0].w;
      var r := Step(c, s, e, w0);
      StepInv(c, s, e, w0);
      if e.Memory? {
        OpHookFaithful(c, s, e.op, w0);
      } else {
        StepFaithful(c, s, e, w0);
      }
      InputsOkSameSize(s.mem, r.s.mem, ins);
      SpecKeepsSnapshot(c, r.s, ins[1..]);
    }
  }

  /** A whole speculation: a checkpoint, the events in it, and the event that ends it. */
  ghost predicate Excursion(c: Setup, s: Rt, ck: Event, ins: seq<Input>, last: Input) {
    && SetupOk(c) && Shape(s) && Inv(c, s)
    && EventOk(s.mem, ck) && Takes(s, ck)
    && InputsOk(s.mem, ins) && EventOk(s.mem, last.e)
    && (var s1 := Step(c, s, ck, last.w).s;
        && StaysInSpec(c, s1, ins)
        && EventOk(Run(c, s1, ins).s.mem, last.e)
        && Step(c, Run(c, s1, ins).s, last.e, last.w).exit != Continues)
  }

  /** The states before the last event of an excursion and after it. */
  ghost function Before(c: Setup, s: Rt, ck: Event, ins: seq<Input>, last: Input): Rt
    requires Excursion(c, s, ck, ins, last)
  {
    Run(c, Step(c, s, ck, last.w).s, ins).s
  }

  ghost function After(c: Setup, s: Rt, ck: Event, ins: seq<Input>, last: Input): Rt
    requires Excursion(c, s, ck, ins, last)
  {
    Step(c, Before(c, s, ck, ins, last), last.e, last.w).s
  }

  /**
    * Any speculation is undone. Its frame [rsp, base) is back as a whole, although it may have been
    * written without a hook and the log may have captured such writes. Every other byte is back too,
    * except where writes without a hook may go, in words the replay skips and in exempt words; a
    * skipped word outside the frame keeps its current value.
    */
  lemma RollbackIsExact(c: Setup, s: Rt, ck: Event, ins: seq<Input>, last: Input, lo: int, i: int)
    requires Excursion(c, s, ck, ins, last) && AllConfined(ins, lo, ck.base) && 0 <= i < |s.mem|
    ensures var r := After(c, s, ck, ins, last);
            && !r.inSpec && |r.mem| == |s.mem|
            && (ck.rsp <= i < ck.base ==> r.mem[i] == s.mem[i])
            && (!(lo <= i < ck.base) && !last.w.Skips(Align(i)) && !Exempt(c, Align(i)) ==> r.mem[i] == s.mem[i])
            && (last.w.Skips(Align(i)) && !(ck.rsp <= i < ck.base) ==>
                  r.mem[i] == Before(c, s, ck, ins, last).mem[i])
  {
    hide StaysInSpec, Run, Inv, Exempt;
    var s1 := Step(c, s, ck, last.w).s;
    var s2 := Before(c, s, ck, ins, last);
    StepInv(c, s, ck, last.w);
    SpecKeepsSnapshot(c, s1, ins);
    EndRestores(c, s2, last.e, last.w);
    if !(lo <= i < ck.base) && !last.w.Skips(Align(i)) && !Exempt(c, Align(i)) {
      SpecKeepsReplay(c, s1, ins, lo, ck.base, last.w, i);
    }
    if last.w.Skips(Align(i)) {
      SkippedWordUncovered(c, s2, last.w, i);
      ReplayKeepsUncovered(s2.mem, s2.log, last.w, i);
    }
  }

  /** As entries are aligned, a byte in a skipped word is covered by no entry that is replayed. */
  lemma SkippedWordUncovered(c: Setup, s: Rt, w: Window, i: int)
    requires Inv(c, s) && w.Skips(Align(i))
    ensures !Covered(s.log, w, i)
  {
    forall k | 0 <= k < |s.log| ensures !Covers(s.log[k], w, i) {
      var a := s.log[k].addr;
      assert a % 8 == 0 && a <= i < a + 8 ==> a == Align(i);
    }
  }

  /**
    * If the runtime's own stack and the register image lie below the saved stack pointer, then
    * after any speculation no byte differs from the checkpoint, but for the dead stack [lo, rsp).
    */
  lemma NoLiveByteDiffers(c: Setup, s: Rt, ck: Event, ins: seq<Input>, last: Input, lo: int)
    requires Excursion(c, s, ck, ins, last) && AllConfined(ins, lo, ck.base)
    requires forall a :: a % 8 == 0 && last.w.Skips(a) ==> lo <= a && a + 8 <= ck.rsp
    ensures var r := After(c, s, ck, ins, last);
            forall i :: 0 <= i < |s.mem| && !(lo <= i < ck.rsp) && !Exempt(c, Align(i)) ==> r.mem[i] == s.mem[i]
  {
    var r := After(c, s, ck, ins, last);
    forall i | 0 <= i < |s.mem| && !(lo <= i < ck.rsp) && !Exempt(c, Align(i)) ensures r.mem[i] == s.mem[i] {
      RollbackIsExact(c, s, ck, ins, last, lo, i);
      assert Align(i) % 8 == 0 && Align(i) <= i < Align(i) + 8;
    }
  }

  // ----- The register image of an interrupt -----

  /** Every word that overlaps the register image is skipped exactly if the image is aligned. */
  lemma ImageProtectedIffAligned(w: Window)
    requires w.regs.Some? && !(w.rsp < Align(w.regs.value) <= w.frame)
    ensures (forall a :: a % 8 == 0 && Overlaps(a, 8, w.regs.value, PT_REGS_SIZE) ==> w.Skips(a))
            <==> w.regs.value % 8 == 0
  {
    var p := w.regs.value;
    if p % 8 != 0 {
      assert Align(p) % 8 == 0 && Overlaps(Align(p), 8, p, PT_REGS_SIZE) && !w.Skips(Align(p));
    }
  }

  /** An aligned register image below the saved frame survives the restart it was prepared for. */
  lemma ImageSurvives(c: Setup, s: Rt, t: RestartType, w: Window, i: int)
    requires Shape(s) && Inv(c, s) && s.inSpec && t != OnReturn
    requires w.regs.Some? && w.regs.value % 8 == 0
    requires w.regs.value <= i < w.regs.value + PT_REGS_SIZE <= s.stackAt && 0 <= i
    ensures Restart(c, s, t, w).s.mem[i] == s.mem[i]
  {
    SkippedWordUncovered(c, s, w, i);
    ReplayKeepsUncovered(s.mem, s.log, w, i);
  }

  // ----- Deferred panic -----

  /**
    * Once a failed assertion is recorded, no checkpoint is taken and the next restart of any kind,
    * a nested return included, ends in the panic; every other event keeps it recorded.
    */
  lemma PanicIsDue(c: Setup, s: Rt, e: Event, w: Window)
    requires Shape(s) && EventOk(s.mem, e) && Inv(c, s) && s.assertion
    ensures var r := Step(c, s, e, w);
            && !Takes(s, e)
            && (r.exit == Panics || (r.exit == Continues && r.s.assertion))
            && (e.RestartHook? ==> r.exit == Panics)
  {
    if e.Memory? {
      OpHookOnlyLogs(c, s, e.op, w);
    }
  }

  predicate HasRestart(ins: seq<Input>) {
    exists k :: 0 <= k < |ins| && ins[k].e.RestartHook?
  }

  /** Over any run, a recorded assertion is never forgotten, and the first restart in it panics. */
  lemma {:induction false} DuePanicStays(c: Setup, s: Rt, ins: seq<Input>)
    requires Shape(s) && InputsOk(s.mem, ins) && SetupOk(c) && Inv(c, s) && s.assertion
    ensures var r := Run(c, s, ins);
            && (r.exit == Panics || (r.exit == Continues && r.s.assertion && r.s.inSpec))
            && (HasRestart(ins) ==> r.exit == Panics)
    decreases |ins|
  {
    hide Step;
    if ins != [] {
      var e, w := ins[0].e, ins[0].w;
      PanicIsDue(c, s, e, w);
      StepInv(c, s, e, w);
      var r := Step(c, s, e, w);
      if r.exit != Panics {
        InputsOkSameSize(s.mem, r.s.mem, ins);
        DuePanicStays(c, r.s, ins[1..]);
        if HasRestart(ins) {
          var k :| 0 <= k < |ins| && ins[k].e.RestartHook?;
          assert ins[1..][k - 1] == ins[k];
        }
      }
    }
  }

  /**
    * An assertion that fails anywhere in a run is never lost: the run panics, at the latest at the next
    * restart, or it ends in the same speculation with the panic still due.
    */
  lemma {:induction false} AssertionNeverLost(c: Setup, s: Rt, ins: seq<Input>, k: nat)
    requires Shape(s) && InputsOk(s.mem, ins) && SetupOk(c) && Inv(c, s) && k < |ins| && ins[k].e.AssertFails?
    ensures var r := Run(c, s, ins);
            && (r.exit == Panics || (r.exit == Continues && r.s.assertion && r.s.inSpec))
            && (HasRestart(ins[k..]) ==> r.exit == Panics)
    decreases k
  {
    hide StaysInSpec;
    var e, w := ins[0].e, ins[0].w;
    StepInv(c, s, e, w);
    var r := Step(c, s, e, w);
    if r.exit != Panics {
      InputsOkSameSize(s.mem, r.s.mem, ins);
      if k == 0 {
        FailureIsRecorded(c, s, w);
        DuePanicStays(c, r.s, ins[1..]);
        if HasRestart(ins) {
          var j :| 0 <= j < |ins| && ins[j].e.RestartHook?;
          assert ins[1..][j - 1] == ins[j];
        }
        assert ins[0..] == ins;
      } else {
        AssertionNeverLost(c, r.s, ins[1..], k - 1);
        assert ins[1..][k - 1..] == ins[k..];
      }
    }
  }

  lemma FailureIsRecorded(c: Setup, s: Rt, w: Window)
    requires Shape(s) && Inv(c, s)
    ensures var r := Panic(c, s, w); r.exit == Panics || (r.exit == Continues && r.s.assertion)
  {
    hide Restored, AllRestorable;
  }

  /** A panic is raised only outside speculation, with memory already rolled back. */
  lemma PanicsAfterRollback(c: Setup, s: Rt, e: Event, w: Window)
    requires Shape(s) && EventOk(s.mem, e) && Inv(c, s) && Step(c, s, e, w).exit == Panics
    ensures var r := Step(c, s, e, w).s;
            !r.inSpec && r.mem == if s.inSpec then Restored(s, w) else s.mem
  {
    if s.inSpec {
      EndRestores(c, s, e, w);
    }
  }
}
