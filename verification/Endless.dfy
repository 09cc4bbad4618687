/**
  * When functions on the no-speculation list enter each other for ever. Their entries are not counted
  * and a block is charged only at its end, so a first call at the beginning of an entry block is free,
  * unless it needs stack or something is logged before it. A circle of such calls never ends; and
  * without one, every run of every program that might call these functions stops. The circle needs callees
  * that take no stack at all. A compiled call pushes its return address, so no compilation yields such a
  * program; that half only shows that the condition of `StillTerminates` asks for no more than it has to.
  */
module Endless {
  import opened Options
  import opened Runtime
  import opened Ir
  import opened Passes
  import opened Placement
  import opened Machine
  import opened Transparency
  import opened Progress
  import opened Detour

  /** Up to its first call, or to something that is sure to be logged, the code only computes. */
  ghost predicate Leads(code: seq<Instr>) {
    code == [] || code[0].Call? || Logs(code[0]) || (code[0].Compute? && Leads(code[1..]))
  }

  /** Any function on the no-speculation list whose entry block begins like that. */
  ghost predicate LinkOk(f: Function) {
    Uncounted(f) && PlainFunction(f) && Tame(f) && f.blocks != [] && Leads(f.blocks[0].code)
  }

  ghost predicate LinksOk(fs: seq<Function>) {
    forall j :: 0 <= j < |fs| ==> LinkOk(fs[j])
  }

  /** A program that never calls function `entry` of `fs`, counted from one, but might in speculation. */
  function Calling(fs: seq<Function>, entry: nat): Program {
    [MainFn(entry, map[])] + fs
  }

  /** The function that function `j` enters first of all and at no cost; zero stands for none. */
  ghost function NextOf(p: Program, j: nat): nat
    requires j < |p|
  {
    if !Uncounted(p[j]) || p[j].blocks == [] then 0 else
    var callee := FirstCall(p[j].blocks[0].code, false);
    if callee.Some? && Free(p, callee.value) then callee.value else 0
  }

  ghost function Links(fs: seq<Function>): (next: seq<nat>)
    ensures |next| == |fs| + 1 && ChainOk(next)
  {
    var p := Calling(fs, 0);
    seq(|p|, j requires 0 <= j < |p| => NextOf(p, j))
  }

  predicate ChainOk(next: seq<nat>) {
    forall j :: 0 <= j < |next| ==> next[j] < |next|
  }

  // ----- Ranks -----

  /** The chain from `j` has at most `n` calls. */
  predicate Ends(next: seq<nat>, j: nat, n: nat)
    requires ChainOk(next) && j < |next|
    decreases n
  {
    next[j] == 0 || (n > 0 && Ends(next, next[j], n - 1))
  }

  ghost predicate Ending(next: seq<nat>, j: nat)
    requires ChainOk(next) && j < |next|
  {
    exists n: nat :: Ends(next, j, n)
  }

  lemma {:induction false} EndsLater(next: seq<nat>, j: nat, n: nat, n': nat)
    requires ChainOk(next) && j < |next| && Ends(next, j, n) && n <= n'
    ensures Ends(next, j, n')
    decreases n
  {
    if next[j] != 0 {
      EndsLater(next, next[j], n - 1, n' - 1);
    }
  }

  /** The exact number of calls in the chain from `j`. */
  ghost function Length(next: seq<nat>, j: nat, n: nat): (r: nat)
    requires ChainOk(next) && j < |next| && Ends(next, j, n)
    ensures r <= n && Ends(next, j, r) && forall i: nat :: i < r ==> !Ends(next, j, i)
  {
    if n > 0 && Ends(next, j, n - 1) then Length(next, j, n - 1) else
    assert forall i: nat :: i < n ==> !Ends(next, j, i) by {
      forall i: nat | i < n ensures !Ends(next, j, i) {
        if Ends(next, j, i) { EndsLater(next, j, i, n - 1); }
      }
    }
    n
  }

  ghost predicate AllEnd(next: seq<nat>, b: nat)
    requires ChainOk(next)
  {
    forall j: nat :: j < |next| ==> Ends(next, j, b)
  }

  /** Finitely many chains that end have a common bound. */
  lemma {:induction false} CommonBound(next: seq<nat>, n: nat) returns (b: nat)
    requires ChainOk(next) && n <= |next|
    requires forall j: nat :: j < n ==> Ending(next, j)
    ensures forall j: nat :: j < n ==> Ends(next, j, b)
    decreases n
  {
    b := 0;
    if n > 0 {
      var b0 := CommonBound(next, n - 1);
      assert Ending(next, n - 1);
      var i: nat :| Ends(next, n - 1, i);
      b := if b0 < i then i else b0;
      EndsLater(next, n - 1, i, b);
      forall j: nat | j < n - 1 ensures Ends(next, j, b) {
        EndsLater(next, j, b0, b);
      }
    }
  }

  ghost function RankingOf(next: seq<nat>, b: nat): Ranking
    requires ChainOk(next) && AllEnd(next, b)
  {
    Ranking(seq(|next|, j requires 0 <= j < |next| => Length(next, j, b)), b + 1)
  }

  lemma LengthFalls(next: seq<nat>, j: nat, b: nat)
    requires ChainOk(next) && AllEnd(next, b) && j < |next| && next[j] != 0
    ensures Length(next, next[j], b) < Length(next, j, b)
  {
    var r := Length(next, j, b);
    assert Ends(next, next[j], r - 1);
  }

  lemma SameLinks(fs: seq<Function>, entry: nat, j: nat)
    requires j <= |fs|
    ensures NextOf(Calling(fs, entry), j) == Links(fs)[j]
  {
    var p, p0 := Calling(fs, entry), Calling(fs, 0);
    forall k: nat ensures Free(p, k) <==> Free(p0, k) {
    }
  }

  /** Chains that end can be ranked by their lengths. */
  lemma ChainsRanked(fs: seq<Function>, entry: nat, b: nat)
    requires AllEnd(Links(fs), b)
    ensures Ranked(Calling(fs, entry), RankingOf(Links(fs), b), false)
  {
    hide FirstCall, Free, Uncounted, Length, Links, MainFn;
    var p, next := Calling(fs, entry), Links(fs);
    var k := RankingOf(next, b);
    forall fn: nat | fn < |p| && p[fn].blocks != [] ensures CodeRanked(p, k, fn, p[fn].blocks[0].code, false) {
      SameLinks(fs, entry, fn);
      var callee := FirstCall(p[fn].blocks[0].code, false);
      if Uncounted(p[fn]) && callee.Some? && Free(p, callee.value) {
        FreeIsNotMain(fs, entry, next[fn]);
        LengthFalls(next, fn, b);
      }
    }
  }

  lemma FreeIsNotMain(fs: seq<Function>, entry: nat, k: nat)
    requires Free(Calling(fs, entry), k)
    ensures 0 < k <= |fs|
  {
  }

  // ----- A circle is entered for ever -----

  /** Nothing but computation up to a call of function `k`. */
  predicate StraightTo(code: seq<Instr>, k: nat) {
    code != [] && if code[0].Call? then code[0].callee == k else code[0].Compute? && StraightTo(code[1..], k)
  }

  lemma {:induction false} LeadsStraight(code: seq<Instr>, k: nat)
    requires Leads(code) && FirstCall(code, false) == Some(k)
    ensures StraightTo(code, k)
  {
    if !code[0].Call? {
      LeadsStraight(code[1..], k);
    }
  }

  lemma {:induction false} StraightHooked(code: seq<Instr>, tail: seq<Instr>, k: nat)
    requires StraightTo(code, k)
    ensures StraightTo(HookCode(code, true) + tail, k)
  {
    hide HookCode;
    var all := HookCode(code, true) + tail;
    NothingBefore(code);
    if !code[0].Call? {
      StraightHooked(code[1..], tail, k);
      assert all[1..] == HookCode(code[1..], true) + tail;
    }
  }

  lemma NothingBefore(code: seq<Instr>)
    requires code != [] && (code[0].Call? || code[0].Compute?)
    ensures HookCode(code, true) == [code[0]] + HookCode(code[1..], true)
  {
    assert HookFor(code[0], true) == [];
  }

  function HookedCalling(fs: seq<Function>, entry: nat): Program {
    Instrument(ORDER, Calling(fs, entry))
  }

  lemma HookedLink(f: Function)
    requires Uncounted(f) && f.blocks != []
    ensures var g := ApplyAll(ORDER, f);
            && g.cats == f.cats && StackSize(g) == StackSize(f) && g.blocks != []
            && g.blocks[0].code == var code := HookCode(f.blocks[0].code, true); code + [SpecLengthHook(|code| + 1)]
  {
    InOrder(f);
  }

  lemma HookedFacts(fs: seq<Function>, entry: nat)
    ensures var q := HookedCalling(fs, entry); |q| == |fs| + 1 && q[0] == HookedMain(entry, map[])
  {
    HookMain(entry, map[]);
  }

  lemma EndsBefore(next: seq<nat>, j: nat)
    requires ChainOk(next) && j < |next| && Ending(next, next[j])
    ensures Ending(next, j)
  {
    var d: nat :| Ends(next, next[j], d);
    assert Ends(next, j, d + 1);
  }

  /** A function that is never done entering others begins with a call of one that is not either. */
  lemma EntryStraight(fs: seq<Function>, entry: nat, j: nat)
    requires LinksOk(fs) && 0 < j <= |fs| && !Ending(Links(fs), j)
    ensures var q, k := HookedCalling(fs, entry), Links(fs)[j];
            && j < |q| && Callable(q, j) && StraightTo(q[j].blocks[0].code, k)
            && StackSize(q[j]) == StackSize(fs[j - 1])
            && 0 < k <= |fs| && !Ending(Links(fs), k) && StackSize(fs[k - 1]) == 0
  {
    hide Leads, Tame, PlainFunction, StraightTo;
    var p, next := Calling(fs, entry), Links(fs);
    var k := next[j];
    SameLinks(fs, entry, j);
    assert !Ends(next, j, 0);
    FreeIsNotMain(fs, entry, k);
    if Ending(next, k) {
      EndsBefore(next, j);
    }
    var f := fs[j - 1];
    assert p[j] == f && LinkOk(f);
    HookedLink(f);
    LeadsStraight(f.blocks[0].code, k);
    StraightHooked(f.blocks[0].code, [SpecLengthHook(|HookCode(f.blocks[0].code, true)| + 1)], k);
  }

  /** The machine speculates in a function and is about to enter function `k`. */
  ghost predicate Roams(fs: seq<Function>, s: State, k: nat) {
    && Shape(s.rt) && s.status == Running && s.rt.inSpec && !s.rt.assertion && s.stack != []
    && var top := s.stack[|s.stack| - 1];
       && StraightTo(top.code, k) && 0 <= s.lo <= top.sp <= |s.rt.mem|
       && 0 < k <= |fs| && !Ending(Links(fs), k) && StackSize(fs[k - 1]) == 0
  }

  lemma ComputeSteps(q: Program, s: State, f: Env -> Locals, n: int)
    requires Shape(s.rt) && s.status == Running && s.stack != []
    requires var code := s.stack[|s.stack| - 1].code; code != [] && code[0] == Compute(f)
    ensures Step(SetupAbove(n), q, s, CHOICE)
         == s.(stack := SetLocals(Advance(s.stack), f(EnvOf(s.lo, s.stack[|s.stack| - 1], s.rt.mem))))
  {
    hide ExecHook, PageFault, Land, Restart, Panic, WriteMem, Advance, SetLocals, EnvOf, WindowAt;
    assert !AtHook(s) && !AtSwapBr(s);
  }

  ghost predicate RoamsOn(fs: seq<Function>, s: State) {
    exists k: nat :: Roams(fs, s, k)
  }

  lemma RoamStep(fs: seq<Function>, entry: nat, s: State, n: int)
    requires LinksOk(fs) && RoamsOn(fs, s)
    ensures Shape(s.rt) && s.status == Running && RoamsOn(fs, Step(SetupAbove(n), HookedCalling(fs, entry), s, CHOICE))
  {
    hide HookedCalling, Step, Links, LinksOk, Ending, EnvOf;
    var k: nat :| Roams(fs, s, k);
    var q, top := HookedCalling(fs, entry), s.stack[|s.stack| - 1];
    var s' := Step(SetupAbove(n), q, s, CHOICE);
    if top.code[0].Call? {
      EntryStraight(fs, entry, k);
      CallEnters(q, s, k, top.code[0].args, n);
      assert Roams(fs, s', Links(fs)[k]) by { WriteNothing(s.rt.mem, top.sp); }
    } else {
      ComputeSteps(q, s, top.code[0].eval, n);
      assert Roams(fs, s', k);
    }
  }

  function Same(i: nat): Choice {
    CHOICE
  }

  lemma {:induction false} ForEver(fs: seq<Function>, entry: nat, s: State, n: int, i: nat, steps: nat)
    requires LinksOk(fs) && RoamsOn(fs, s) && Shape(s.rt)
    ensures RunFrom(SetupAbove(n), HookedCalling(fs, entry), s, Same, i, steps).status == Running
    decreases steps
  {
    hide RoamsOn, HookedCalling, Step, LinksOk;
    RoamStep(fs, entry, s, n);
    if steps > 0 {
      ForEver(fs, entry, Step(SetupAbove(n), HookedCalling(fs, entry), s, CHOICE), n, i + 1, steps - 1);
    }
  }

  lemma RunFromStep(q: Program, s: State, n: int, i: nat, steps: nat)
    requires Shape(s.rt) && |s.rt.mem| == n && steps > 0
    ensures RunFrom(SetupAbove(n), q, s, Same, i, steps)
         == RunFrom(SetupAbove(n), q, Next(q, s), Same, i + 1, steps - 1)
  {
  }

  lemma StoppedStays(c: Setup, q: Program, s: State, i: nat, j: nat)
    requires Shape(s.rt) && s.status != Running
    ensures RunFrom(c, q, s, Same, i, j).status != Running
    decreases j
  {
  }

  lemma {:induction false} StaysStopped(c: Setup, q: Program, s: State, i: nat, j: nat, more: nat)
    requires Shape(s.rt) && RunFrom(c, q, s, Same, i, j).status != Running
    ensures RunFrom(c, q, s, Same, i, j + more).status != Running
    decreases j
  {
    if j == 0 {
      StoppedStays(c, q, s, i, more);
    } else {
      StaysStopped(c, q, Step(c, q, s, Same(i)), i + 1, j - 1, more);
    }
  }

  /** A plan to call function `entry`, with room on the stack for its frame. */
  predicate PlanOk(fs: seq<Function>, k: Plan) {
    k.Fits() && 0 < k.callee <= |fs| && k.l == map[] && StackSize(fs[k.callee - 1]) <= k.top - k.lo
  }

  lemma CircleNeverStops(fs: seq<Function>, k: Plan)
    requires LinksOk(fs) && PlanOk(fs, k) && !Ending(Links(fs), k.callee)
    ensures var q := HookedCalling(fs, k.callee);
            Ready(q, k.Job()) && !RunStops(SetupAbove(|k.mem|), q, k.Job(), Same)
  {
    hide Next, HookedCalling, RunFrom, Is, Ends, LinksOk, Links, Ending;
    var q, c := HookedCalling(fs, k.callee), SetupAbove(|k.mem|);
    HookedFacts(fs, k.callee);
    EntryStraight(fs, k.callee, k.callee);
    IntoTheCall(k, q);
    var s := Boot(q, k.Job());
    assert RoamsOn(fs, Five(q, s)) by {
      InsideRoams(fs, k, q, Five(q, s));
    }
    forall j: nat ensures RunFrom(c, q, s, Same, 0, j).status == Running {
      RunFromStep(q, s, |k.mem|, 0, j + 5);
      RunFromStep(q, Next(q, s), |k.mem|, 1, j + 4);
      RunFromStep(q, Next(q, Next(q, s)), |k.mem|, 2, j + 3);
      RunFromStep(q, Next(q, Next(q, Next(q, s))), |k.mem|, 3, j + 2);
      RunFromStep(q, Next(q, Next(q, Next(q, Next(q, s)))), |k.mem|, 4, j + 1);
      ForEver(fs, k.callee, Five(q, s), |k.mem|, 5, j);
      if RunFrom(c, q, s, Same, 0, j).status != Running {
        StaysStopped(c, q, s, 0, j, 5);
      }
    }
  }

  lemma InsideRoams(fs: seq<Function>, k: Plan, q: Program, s: State)
    requires PlanOk(fs, k) && k.callee < |q| && Callable(q, k.callee)
    requires StackSize(q[k.callee]) == StackSize(fs[k.callee - 1])
    requires StraightTo(q[k.callee].blocks[0].code, Links(fs)[k.callee]) && 0 < Links(fs)[k.callee] <= |fs|
    requires !Ending(Links(fs), Links(fs)[k.callee]) && StackSize(fs[Links(fs)[k.callee] - 1]) == 0
    requires Is(k, s, [MainFrame(k, Wrong(k.callee, k.l)[1..], 2, map[]), EntryFrame(q, k.callee, k.l, k.top)],
                true, false, 3, Entered(k, StackSize(q[k.callee])))
    ensures RoamsOn(fs, s)
  {
    hide StraightTo, Links, Ending;
    assert Roams(fs, s, Links(fs)[k.callee]);
  }

  // ----- When all of them stop -----

  ghost predicate PlanStops(fs: seq<Function>, order: seq<Pass>, k: Plan, chs: nat -> Choice) {
    Order(order) && PlanOk(fs, k) ==>
      var q := Instrument(order, Calling(fs, k.callee));
      Ready(q, k.Job()) && RunStops(SetupAbove(|k.mem|), q, k.Job(), chs)
  }

  /** Whichever of the functions the program might call: every run of it stops, in every order of the passes. */
  ghost predicate AllStop(fs: seq<Function>) {
    forall order: seq<Pass>, k: Plan, chs: nat -> Choice :: PlanStops(fs, order, k, chs)
  }

  /** From no function do the free first calls go on for ever. */
  ghost predicate NoCircle(fs: seq<Function>) {
    forall j: nat :: 0 < j <= |fs| ==> Ending(Links(fs), j)
  }

  lemma CallingIsSource(fs: seq<Function>, entry: nat)
    requires LinksOk(fs)
    ensures SourceProgram(Calling(fs, entry))
  {
    var p := Calling(fs, entry);
    forall j | 0 <= j < |p| ensures PlainFunction(p[j]) && Tame(p[j]) {
      if j > 0 {
        assert LinkOk(fs[j - 1]);
      }
    }
  }

  lemma RankedStops(fs: seq<Function>, order: seq<Pass>, k: Plan, chs: nat -> Choice, b: nat)
    requires LinksOk(fs) && AllEnd(Links(fs), b)
    ensures PlanStops(fs, order, k, chs)
  {
    hide Ranked, RunStops, Iterate, LinksOk, AllEnd;
    if Order(order) && PlanOk(fs, k) {
      var p := Calling(fs, k.callee);
      CallingIsSource(fs, k.callee);
      ChainsRanked(fs, k.callee, b);
      OriginalReturns(p, k, 2);
      StillTerminates(SetupAbove(|k.mem|), order, p, RankingOf(Links(fs), b), k.Job(), chs, 2);
    }
  }

  /** Functions without a circle all have a bound on their chains, that of the main function included. */
  lemma BoundAll(fs: seq<Function>) returns (b: nat)
    requires NoCircle(fs)
    ensures AllEnd(Links(fs), b)
  {
    var next := Links(fs);
    assert next[0] == 0 by { SameLinks(fs, 0, 0); }
    assert Ends(next, 0, 0);
    b := CommonBound(next, |next|);
  }

  lemma {:induction false} RankedEnds(fs: seq<Function>, k: Ranking, j: nat)
    requires Ranked(Calling(fs, 0), k, false) && j <= |fs|
    ensures Ends(Links(fs), j, k.rank[j])
    decreases k.rank[j]
  {
    hide FirstCall, Free;
    var p, next := Calling(fs, 0), Links(fs);
    if next[j] != 0 {
      assert CodeRanked(p, k, j, p[j].blocks[0].code, false);
      RankedEnds(fs, k, next[j]);
      EndsLater(next, next[j], k.rank[next[j]], k.rank[j] - 1);
    }
  }

  lemma NoCircleIffRanked(fs: seq<Function>)
    ensures NoCircle(fs) <==> exists k :: Ranked(Calling(fs, 0), k, false)
  {
    hide Ranked, Links;
    if NoCircle(fs) {
      var b := BoundAll(fs);
      ChainsRanked(fs, 0, b);
    }
    if k :| Ranked(Calling(fs, 0), k, false) {
      forall j: nat | 0 < j <= |fs| ensures Ending(Links(fs), j) {
        assert |k.rank| == |fs| + 1 by { RankedSizes(fs, k); }
        RankedEnds(fs, k, j);
      }
    }
  }

  lemma RankedSizes(fs: seq<Function>, k: Ranking)
    requires Ranked(Calling(fs, 0), k, false)
    ensures |k.rank| == |fs| + 1
  {
  }

  /**
    * The original programs all stop in two steps. For arbitrary functions on the no-speculation list,
    * with any blocks and frames, that only compute up to the first call or logged write of their entry
    * blocks: the instrumented programs all stop, in every order of the passes and under all choices,
    * exactly if no circle of free first calls leads through these functions, that is, exactly if the
    * functions can be ranked as `StillTerminates` asks.
    */
  lemma StopsIffRanked(fs: seq<Function>)
    requires LinksOk(fs)
    ensures AllStop(fs) <==> NoCircle(fs)
    ensures AllStop(fs) <==> exists k :: Ranked(Calling(fs, 0), k, false)
  {
    hide LinksOk, Links, PlanStops, Ends, Ranked;
    NoCircleIffRanked(fs);
    if NoCircle(fs) {
      var b := BoundAll(fs);
      forall order: seq<Pass>, k: Plan, chs: nat -> Choice ensures PlanStops(fs, order, k, chs) {
        RankedStops(fs, order, k, chs, b);
      }
    }
    if AllStop(fs) {
      forall j: nat | 0 < j <= |fs| ensures Ending(Links(fs), j) {
        if !Ending(Links(fs), j) {
          CircleIsSeen(fs, j);
        }
      }
    }
  }

  lemma CircleIsSeen(fs: seq<Function>, j: nat)
    requires LinksOk(fs) && 0 < j <= |fs| && !Ending(Links(fs), j)
    ensures exists k :: !PlanStops(fs, ORDER, k, Same)
  {
    hide LinksOk, Links, RunStops, Ready;
    var size := StackSize(fs[j - 1]);
    var k := Plan(j, map[], Zeros(size), 0, size);
    CircleNeverStops(fs, k);
    assert !PlanStops(fs, ORDER, k, Same);
  }
}
