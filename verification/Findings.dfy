/**
  * Findings in speculation: the hooks and the reports in one run, with one in-restart flag. It decides
  * whether a full list of reports panics or is written past its end.
  */
module Findings {
  import opened Bytes
  import opened UndoLog
  import opened Runtime
  import Speculation
  import Reports

  /** A hook, or an access that is to be reported. */
  datatype Item = Hook(e: Speculation.Event, w: Window) | Found(bug: Reports.Bug, w: Window)

  datatype Joint = Joint(rt: Rt, log: Reports.Log)

  /** How a run has ended, if it has: by a panic, or where there is no memory behind the list. */
  datatype End = Running | Panicked | Faulted

  datatype Result = Result(j: Joint, end: End)

  predicate ItemOk(m: Mem, item: Item) {
    item.Hook? ==> Speculation.EventOk(m, item.e)
  }

  predicate ItemsOk(m: Mem, items: seq<Item>) {
    forall k :: 0 <= k < |items| ==> ItemOk(m, items[k])
  }

  /** The reports pending after an event that may have ended a speculation, and whether printing them failed. */
  function Printed(t: Reports.Text, s: Rt, r: Outcome, e: Speculation.Event, log: Reports.Log): Reports.Result {
    if s.inSpec && !r.s.inSpec && (e.RestartHook? ==> Prints(e.t)) then Reports.Flush(t, log)
    else Reports.Result(log, Reports.Fine)
  }

  function DoHook(c: Setup, t: Reports.Text, j: Joint, e: Speculation.Event, w: Window): (r: Result)
    requires Shape(j.rt) && Speculation.EventOk(j.rt.mem, e)
    ensures Shape(r.j.rt) && |r.j.rt.mem| == |j.rt.mem|
  {
    var r := Speculation.Step(c, j.rt, e, w);
    var p := Printed(t, j.rt, r, e, j.log);
    Result(Joint(r.s, p.log), if r.exit == Panics || p.verdict != Reports.Fine then Panicked else Running)
  }

  predicate Full(log: Reports.Log) {
    |log.pending| >= Reports.BUGS_LIST_SIZE
  }

  /** A report as the library fills it in. */
  function Filled(s: Rt, b: Reports.Bug): Reports.Bug {
    b.(inSpec := s.inSpec, specLength := s.instrCount)
  }

  /** An access is reported: a full list fails an assertion, and if that returns, the report is written. */
  function DoFound(c: Setup, t: Reports.Text, room: nat, j: Joint, b: Reports.Bug, w: Window): (r: Result)
    requires Shape(j.rt)
    ensures Shape(r.j.rt) && |r.j.rt.mem| == |j.rt.mem|
  {
    var a := if Full(j.log) then Panic(c, j.rt, w) else Outcome(j.rt, Continues);
    if a.exit != Continues then
      var p := Printed(t, j.rt, a, Speculation.AssertFails, j.log);
      Result(Joint(a.s, p.log), Panicked)
    else
      var f := Reports.Found(t, room, j.log, Filled(a.s, b), j.rt.inRestart);
      Result(Joint(a.s, f.log),
             match f.verdict case Fine => Running case Fails => Panicked case Faults => Faulted)
  }

  function Do(c: Setup, t: Reports.Text, room: nat, j: Joint, item: Item): (r: Result)
    requires Shape(j.rt) && ItemOk(j.rt.mem, item)
    ensures Shape(r.j.rt) && |r.j.rt.mem| == |j.rt.mem|
  {
    match item
    case Hook(e, w) => DoHook(c, t, j, e, w)
    case Found(b, w) => DoFound(c, t, room, j, b, w)
  }

  lemma ItemsOkSameSize(m: Mem, m': Mem, items: seq<Item>)
    requires |m| == |m'| && ItemsOk(m, items)
    ensures ItemsOk(m', items)
  {
    forall k | 0 <= k < |items| ensures ItemOk(m', items[k]) {
      if items[k].Hook? {
        Speculation.InputsOkSameSize(m, m', [Speculation.Input(items[k].e, items[k].w)]);
        assert Speculation.EventOk(m', [Speculation.Input(items[k].e, items[k].w)][0].e);
      }
    }
  }

  /** A run up to its end. */
  function Run(c: Setup, t: Reports.Text, room: nat, j: Joint, items: seq<Item>): (r: Result)
    requires Shape(j.rt) && ItemsOk(j.rt.mem, items)
    ensures Shape(r.j.rt) && |r.j.rt.mem| == |j.rt.mem|
    decreases |items|
  {
    if items == [] then Result(j, Running) else
    var r := Do(c, t, room, j, items[0]);
    if r.end != Running then r else
    ItemsOkSameSize(j.rt.mem, r.j.rt.mem, items);
    Run(c, t, room, r.j, items[1..])
  }

  /** The run neither leaves speculation nor ends. */
  predicate StaysInSpec(c: Setup, t: Reports.Text, room: nat, j: Joint, items: seq<Item>)
    requires Shape(j.rt) && ItemsOk(j.rt.mem, items)
    decreases |items|
  {
    j.rt.inSpec && (items == [] ||
      var r := Do(c, t, room, j, items[0]);
      r.end == Running &&
      (ItemsOkSameSize(j.rt.mem, r.j.rt.mem, items); StaysInSpec(c, t, room, r.j, items[1..])))
  }

  function FoundCount(items: seq<Item>): nat {
    if items == [] then 0 else (if items[0].Found? then 1 else 0) + FoundCount(items[1..])
  }

  /** The nested calls that have returned. */
  function ReturnCount(items: seq<Item>): nat {
    if items == [] then 0 else
    (if items[0].Hook? && items[0].e == Speculation.RestartHook(OnReturn) then 1 else 0) + ReturnCount(items[1..])
  }

  // ----- One flag -----

  /** A full list fails for the reports exactly if its assertion panics for the runtime. */
  lemma OneFlag(c: Setup, t: Reports.Text, room: nat, j: Joint, b: Reports.Bug, w: Window)
    requires Shape(j.rt) && Speculation.Inv(c, j.rt) && Full(j.log)
    ensures Reports.Found(t, room, j.log, Filled(j.rt, b), j.rt.inRestart).verdict == Reports.Fails
            <==> Panic(c, j.rt, w).exit != Continues
  {
    hide Reports.Flush, Restored, AllRestorable;
  }

  lemma DoInv(c: Setup, t: Reports.Text, room: nat, j: Joint, item: Item)
    requires Shape(j.rt) && ItemOk(j.rt.mem, item) && Speculation.SetupOk(c) && Speculation.Inv(c, j.rt)
    ensures var r := Do(c, t, room, j, item); r.end == Running ==> Speculation.Inv(c, r.j.rt)
  {
    hide Reports.Flush, Reports.Found, Restored, AllRestorable, Speculation.Step;
    if item.Hook? {
      Speculation.StepInv(c, j.rt, item.e, item.w);
    }
  }

  /** What an item does to the flag and to the list while the speculation goes on. */
  lemma DoCounts(c: Setup, t: Reports.Text, room: nat, j: Joint, item: Item)
    requires Shape(j.rt) && ItemOk(j.rt.mem, item) && Speculation.SetupOk(c) && Speculation.Inv(c, j.rt)
    requires j.rt.inSpec && Do(c, t, room, j, item).end == Running && Do(c, t, room, j, item).j.rt.inSpec
    ensures var r := Do(c, t, room, j, item).j;
            && (r.rt.inRestart <==> j.rt.inRestart || ReturnCount([item]) > 0)
            && |r.log.pending| == |j.log.pending| + FoundCount([item])
  {
    hide Reports.Flush, Restored, AllRestorable, Speculation.Step, Speculation.Inv;
    if item.Hook? {
      StaysOrEnds(c, j.rt, item.e, item.w);
      Speculation.StepFlag(c, j.rt, item.e, item.w);
    }
  }

  /** A hook after which the speculation goes on has returned. */
  lemma StaysOrEnds(c: Setup, s: Rt, e: Speculation.Event, w: Window)
    requires Shape(s) && Speculation.EventOk(s.mem, e) && Speculation.Inv(c, s) && s.inSpec
    requires Speculation.Step(c, s, e, w).s.inSpec
    ensures Speculation.Step(c, s, e, w).exit == Continues
  {
    hide Restored, AllRestorable, Speculation.Step;
    if Speculation.Step(c, s, e, w).exit != Continues {
      Speculation.EndRestores(c, s, e, w);
    }
  }

  /**
    * While a speculation goes on, the list grows by every access found, and the flag is set exactly
    * once a nested call has returned.
    */
  lemma {:induction false} StaysCounts(c: Setup, t: Reports.Text, room: nat, j: Joint, items: seq<Item>)
    requires Shape(j.rt) && ItemsOk(j.rt.mem, items) && Speculation.SetupOk(c) && Speculation.Inv(c, j.rt)
    requires StaysInSpec(c, t, room, j, items)
    ensures var r := Run(c, t, room, j, items);
            && r.end == Running && r.j.rt.inSpec && Speculation.Inv(c, r.j.rt)
            && (r.j.rt.inRestart <==> j.rt.inRestart || ReturnCount(items) > 0)
            && |r.j.log.pending| == |j.log.pending| + FoundCount(items)
    decreases |items|
  {
    hide Do, Speculation.Inv;
    if items != [] {
      var r := Do(c, t, room, j, items[0]);
      ItemsOkSameSize(j.rt.mem, r.j.rt.mem, items);
      DoInv(c, t, room, j, items[0]);
      DoCounts(c, t, room, j, items[0]);
      StaysCounts(c, t, room, r.j, items[1..]);
    }
  }

  // ----- The list overruns -----

  /** More reports than the list holds mean that a panic is due. */
  ghost predicate Inv(c: Setup, j: Joint) {
    Speculation.Inv(c, j.rt) && (|j.log.pending| > Reports.BUGS_LIST_SIZE ==> j.rt.assertion)
  }

  lemma FlushShrinks(t: Reports.Text, log: Reports.Log)
    ensures var r := Reports.Flush(t, log); r.log.pending == if r.verdict == Reports.Fine then [] else log.pending
  {
  }

  lemma DoKeeps(c: Setup, t: Reports.Text, room: nat, j: Joint, item: Item)
    requires Shape(j.rt) && ItemOk(j.rt.mem, item) && Speculation.SetupOk(c) && Inv(c, j)
    ensures var r := Do(c, t, room, j, item); r.end == Running ==> Inv(c, r.j)
  {
    hide Reports.Flush, Restored, AllRestorable, Speculation.Step, Speculation.Inv;
    DoInv(c, t, room, j, item);
    FlushShrinks(t, j.log);
    match item
    case Hook(e, w) =>
      if j.rt.assertion {
        Speculation.PanicIsDue(c, j.rt, e, w);
      }
    case Found(b, w) =>
      FlagDecides(c, j.rt, w);
      FlushShrinks(t, j.log.(pending := j.log.pending + [Filled(j.rt, b)]));
  }

  /** Where a failed assertion returns. */
  lemma FlagDecides(c: Setup, s: Rt, w: Window)
    requires Shape(s) && Speculation.Inv(c, s)
    ensures var r := Panic(c, s, w);
            && (r.exit == Continues <==> s.inRestart)
            && (s.assertion ==> s.inRestart)
            && r.exit != Resumes
            && (s.inRestart ==> s.inSpec && r.s == s.(assertion := true))
            && (!s.inRestart ==> !r.s.inSpec)
  {
    hide Restored, AllRestorable;
  }

  /**
    * Over every run: when reports have gone past the end of the list, a panic is due. So no further
    * checkpoint is taken, and the next restart of any kind panics (`Speculation.PanicIsDue`).
    */
  lemma {:induction false} OverrunIsFatal(c: Setup, t: Reports.Text, room: nat, j: Joint, items: seq<Item>)
    requires Shape(j.rt) && ItemsOk(j.rt.mem, items) && Speculation.SetupOk(c) && Inv(c, j)
    ensures var r := Run(c, t, room, j, items);
            r.end == Running ==> Inv(c, r.j) && (|r.j.log.pending| > Reports.BUGS_LIST_SIZE ==> r.j.rt.assertion)
    decreases |items|
  {
    hide Do, Speculation.Inv;
    if items != [] {
      var r := Do(c, t, room, j, items[0]);
      ItemsOkSameSize(j.rt.mem, r.j.rt.mem, items);
      DoKeeps(c, t, room, j, items[0]);
      if r.end == Running {
        OverrunIsFatal(c, t, room, r.j, items[1..]);
      }
    }
  }

  /**
    * The next access found in a speculation that began with a checkpoint, and in which `items` came
    * before it. The list is full if what was pending at the checkpoint and what was found since fill it.
    * Then the report goes past the end of the list if and only if a nested call has returned since the
    * checkpoint; otherwise, and only then, the run panics, after what was pending has been printed.
    */
  lemma NextFound(c: Setup, t: Reports.Text, room: nat, j0: Joint, ck: Speculation.Event,
                  items: seq<Item>, b: Reports.Bug, w: Window)
    requires Speculation.SetupOk(c) && Shape(j0.rt) && Inv(c, j0)
    requires Speculation.EventOk(j0.rt.mem, ck) && Speculation.Takes(j0.rt, ck)
    requires var j := Joint(Speculation.Step(c, j0.rt, ck, w).s, j0.log);
             && ItemsOk(j.rt.mem, items) && StaysInSpec(c, t, room, j, items)
    requires room > |j0.log.pending| + FoundCount(items)
    ensures var j := Joint(Speculation.Step(c, j0.rt, ck, w).s, j0.log);
            var r := DoFound(c, t, room, Run(c, t, room, j, items).j, b, w);
            var full := |j0.log.pending| + FoundCount(items) >= Reports.BUGS_LIST_SIZE;
            && (|r.j.log.pending| > Reports.BUGS_LIST_SIZE <==> full && ReturnCount(items) > 0)
            && (r.end == Panicked <==> full && ReturnCount(items) == 0)
            && (r.end == Running <==> full ==> ReturnCount(items) > 0)
            && (r.end == Panicked ==> r.j.log == Reports.Flush(t, Run(c, t, room, j, items).j.log).log)
  {
    hide Reports.Flush, Restored, AllRestorable, Speculation.Step, Speculation.Inv;
    var j := Joint(Speculation.Step(c, j0.rt, ck, w).s, j0.log);
    FlagAtCheckpoint(c, j0.rt, ck, w);
    StaysCounts(c, t, room, j, items);
    OverrunIsFatal(c, t, room, j, items);
    var j1 := Run(c, t, room, j, items).j;
    FlagDecides(c, j1.rt, w);
    FlushShrinks(t, j1.log);
    if Full(j1.log) {
      OneFlag(c, t, room, j1, b, w);
    }
  }

  lemma FlagAtCheckpoint(c: Setup, s: Rt, ck: Speculation.Event, w: Window)
    requires Speculation.SetupOk(c) && Shape(s) && Speculation.Inv(c, s)
    requires Speculation.EventOk(s.mem, ck) && Speculation.Takes(s, ck)
    ensures var r := Speculation.Step(c, s, ck, w).s;
            Speculation.Inv(c, r) && r.inSpec && !r.inRestart && !r.assertion && !s.assertion && r.instrCount == 0
  {
    Speculation.StepInv(c, s, ck, w);
  }

  // ----- What becomes of the reports -----

  /**
    * While a speculation goes on its hooks print nothing. When one ends it without a panic, the reports are
    * printed and the list is empty, unless it was the hook of a timer or an exception: then they stay.
    */
  lemma EndPrints(c: Setup, t: Reports.Text, j: Joint, e: Speculation.Event, w: Window)
    requires Shape(j.rt) && Speculation.EventOk(j.rt.mem, e) && Speculation.Inv(c, j.rt) && j.rt.inSpec
    ensures var r := DoHook(c, t, j, e, w);
            var silent := e == Speculation.RestartHook(OnTimer) || e == Speculation.RestartHook(OnException);
            && (r.j.rt.inSpec || silent ==> r.j.log == j.log)
            && (!r.j.rt.inSpec && !silent ==> r.j.log == Reports.Flush(t, j.log).log)
            && (!r.j.rt.inSpec && !silent && r.end == Running ==> r.j.log.pending == [])
  {
    hide Restored, AllRestorable, Speculation.Step, Speculation.Inv, Reports.Flush;
    FlushShrinks(t, j.log);
  }

  /** The hooks in a run that stays in speculation. */
  function Hooks(items: seq<Item>): seq<Speculation.Input> {
    if items == [] then [] else
    (if items[0].Hook? then [Speculation.Input(items[0].e, items[0].w)] else []) + Hooks(items[1..])
  }

  lemma {:induction false} StaysCharges(c: Setup, t: Reports.Text, room: nat, j: Joint, items: seq<Item>)
    requires Shape(j.rt) && ItemsOk(j.rt.mem, items) && Speculation.SetupOk(c) && Speculation.Inv(c, j.rt)
    requires StaysInSpec(c, t, room, j, items)
    ensures Run(c, t, room, j, items).j.rt.instrCount == j.rt.instrCount + Speculation.Charges(Hooks(items))
    decreases |items|
  {
    hide Do, Speculation.Inv;
    if items != [] {
      var r := Do(c, t, room, j, items[0]);
      ItemsOkSameSize(j.rt.mem, r.j.rt.mem, items);
      DoInv(c, t, room, j, items[0]);
      DoCharges(c, t, room, j, items[0]);
      StaysCharges(c, t, room, r.j, items[1..]);
      if items[0].Hook? {
        assert Hooks(items)[1..] == Hooks(items[1..]);
      } else {
        assert Hooks(items) == Hooks(items[1..]);
      }
    }
  }

  lemma DoCharges(c: Setup, t: Reports.Text, room: nat, j: Joint, item: Item)
    requires Shape(j.rt) && ItemOk(j.rt.mem, item) && Speculation.Inv(c, j.rt) && j.rt.inSpec
    requires Do(c, t, room, j, item).end == Running
    ensures Do(c, t, room, j, item).j.rt.instrCount
         == j.rt.instrCount + if item.Hook? && item.e.BlockEnd? then item.e.n else 0
  {
    hide Reports.Flush, Restored, AllRestorable, Speculation.Step, Speculation.Inv;
    if item.Hook? {
      Speculation.EndKeepsLength(c, j.rt, item.e, item.w);
    } else {
      FlagDecides(c, j.rt, item.w);
    }
  }

  /**
    * An access found in a speculation is queued behind the others, stamped as speculative and with the
    * number of instructions charged since the checkpoint; and nothing is printed.
    */
  lemma FoundIsStamped(c: Setup, t: Reports.Text, room: nat, j0: Joint, ck: Speculation.Event,
                       items: seq<Item>, b: Reports.Bug, w: Window)
    requires Speculation.SetupOk(c) && Shape(j0.rt) && Speculation.Inv(c, j0.rt)
    requires Speculation.EventOk(j0.rt.mem, ck) && Speculation.Takes(j0.rt, ck)
    requires var j := Joint(Speculation.Step(c, j0.rt, ck, w).s, j0.log);
             && ItemsOk(j.rt.mem, items) && StaysInSpec(c, t, room, j, items)
    ensures var j1 := Run(c, t, room, Joint(Speculation.Step(c, j0.rt, ck, w).s, j0.log), items).j;
            var r := DoFound(c, t, room, j1, b, w);
            r.end == Running ==>
              r.j.log == j1.log.(pending := j1.log.pending
                + [b.(inSpec := true, specLength := Speculation.Charges(Hooks(items)))])
  {
    hide Reports.Flush, Restored, AllRestorable, Speculation.Step, Speculation.Inv;
    var j := Joint(Speculation.Step(c, j0.rt, ck, w).s, j0.log);
    FlagAtCheckpoint(c, j0.rt, ck, w);
    StaysCounts(c, t, room, j, items);
    StaysCharges(c, t, room, j, items);
    FlagDecides(c, Run(c, t, room, j, items).j.rt, w);
  }

  // ----- An input for which it does -----

  function Copies(n: nat, b: Reports.Bug, w: Window): (items: seq<Item>)
    ensures |items| == n && forall k :: 0 <= k < n ==> items[k] == Found(b, w)
  {
    if n == 0 then [] else [Found(b, w)] + Copies(n - 1, b, w)
  }

  /** A call that returns, and after it the same access as often as the list has places. */
  function OverrunItems(b: Reports.Bug, w: Window): (items: seq<Item>)
    ensures forall m: Mem :: ItemsOk(m, items)
  {
    [Hook(Speculation.Enter, w), Hook(Speculation.RestartHook(OnReturn), w)] + Copies(Reports.BUGS_LIST_SIZE, b, w)
  }

  lemma StaysFirst(c: Setup, t: Reports.Text, room: nat, j: Joint, items: seq<Item>)
    requires Shape(j.rt) && ItemsOk(j.rt.mem, items) && j.rt.inSpec && items != []
    requires var r := Do(c, t, room, j, items[0]);
             r.end == Running && ItemsOk(r.j.rt.mem, items[1..]) && StaysInSpec(c, t, room, r.j, items[1..])
    ensures StaysInSpec(c, t, room, j, items)
  {
    hide Do;
  }

  /**
    * With room behind the list, one report more than it holds is written past its end, whoever makes it:
    * the first hundred fill the list, and the next one finds the flag set by the call that has returned.
    */
  lemma OverrunHappens(c: Setup, t: Reports.Text, room: nat, m: Mem, b: Reports.Bug, w: Window)
    requires c.maxInstr > 0 && c.maxDepth > 1 && room > Reports.BUGS_LIST_SIZE
    ensures var j := Joint(HookCheckpoint(Init(m), true, true, 0, 0), Reports.Log(Reports.PrintDefault, {}, [], []));
            && StaysInSpec(c, t, room, j, OverrunItems(b, w))
            && |DoFound(c, t, room, Run(c, t, room, j, OverrunItems(b, w)).j, b, w).j.log.pending|
               == Reports.BUGS_LIST_SIZE + 1
  {
    hide Do, DoFound, StaysInSpec, Run, Copies;
    var j := Joint(HookCheckpoint(Init(m), true, true, 0, 0), Reports.Log(Reports.PrintDefault, {}, [], []));
    OverrunStays(c, t, room, j, b, w);
    StaysCounts(c, t, room, j, OverrunItems(b, w));
    OnePast(c, t, room, Run(c, t, room, j, OverrunItems(b, w)).j, b, w);
  }

  lemma OverrunStays(c: Setup, t: Reports.Text, room: nat, j: Joint, b: Reports.Bug, w: Window)
    requires c.maxInstr > 0 && c.maxDepth > 1 && room > Reports.BUGS_LIST_SIZE
    requires Shape(j.rt) && j.rt.inSpec && j.rt.logEnabled && j.rt.callDepth == 0 && !j.rt.assertion
    requires j.log.pending == []
    ensures var items := OverrunItems(b, w);
            && StaysInSpec(c, t, room, j, items)
            && FoundCount(items) == Reports.BUGS_LIST_SIZE && ReturnCount(items) == 1
  {
    hide Do, StaysInSpec, Copies;
    var items := OverrunItems(b, w);
    var copies := Copies(Reports.BUGS_LIST_SIZE, b, w);
    var j1 := Joint(HookCallDepth(c, j.rt, w).s, j.log);
    var j2 := Joint(Restart(c, j1.rt, OnReturn, w).s, j.log);
    var back := Hook(Speculation.RestartHook(OnReturn), w);
    assert items == [Hook(Speculation.Enter, w)] + ([back] + copies);
    assert items[1..] == [back] + copies && items[1..][1..] == copies;
    HookRuns(c, t, room, j, Speculation.Enter, w);
    HookRuns(c, t, room, j1, Speculation.RestartHook(OnReturn), w);
    CopiesStay(c, t, room, j2, Reports.BUGS_LIST_SIZE, b, w);
    StaysFirst(c, t, room, j1, items[1..]);
    StaysFirst(c, t, room, j, items);
  }

  lemma HookRuns(c: Setup, t: Reports.Text, room: nat, j: Joint, e: Speculation.Event, w: Window)
    requires Shape(j.rt) && Speculation.EventOk(j.rt.mem, e)
    requires Speculation.Step(c, j.rt, e, w).exit == Continues && Speculation.Step(c, j.rt, e, w).s.inSpec
    ensures Do(c, t, room, j, Hook(e, w)) == Result(Joint(Speculation.Step(c, j.rt, e, w).s, j.log), Running)
  {
    hide Speculation.Step, Reports.Flush;
  }

  /** With the flag set and the list exactly full, a report goes where the list has ended. */
  lemma OnePast(c: Setup, t: Reports.Text, room: nat, j: Joint, b: Reports.Bug, w: Window)
    requires Shape(j.rt) && j.rt.inSpec && j.rt.inRestart
    requires |j.log.pending| == Reports.BUGS_LIST_SIZE < room
    ensures |DoFound(c, t, room, j, b, w).j.log.pending| == Reports.BUGS_LIST_SIZE + 1
  {
    hide Reports.Flush;
  }

  lemma {:induction false} CopiesStay(
    c: Setup, t: Reports.Text, room: nat, j: Joint, n: nat, b: Reports.Bug, w: Window)
    requires Shape(j.rt) && j.rt.inSpec && |j.log.pending| + n <= Reports.BUGS_LIST_SIZE < room
    ensures ItemsOk(j.rt.mem, Copies(n, b, w)) && StaysInSpec(c, t, room, j, Copies(n, b, w))
    ensures FoundCount(Copies(n, b, w)) == n && ReturnCount(Copies(n, b, w)) == 0
    decreases n
  {
    hide Reports.Flush;
    if n > 0 {
      var r := Do(c, t, room, j, Found(b, w));
      CopiesStay(c, t, room, r.j, n - 1, b, w);
      assert Copies(n, b, w)[1..] == Copies(n - 1, b, w);
    }
  }
}
