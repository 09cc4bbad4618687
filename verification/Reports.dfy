/**
  * What was found in speculation: a queue of pending reports, and a two-level map of what has been
  * reported already, one byte for each byte of kernel text and one bit for each kind of access.
  */
module Reports {

  const PAGE_SIZE := 4096
  const BLOCK := 1024 * PAGE_SIZE
  const BUGS_LIST_SIZE := 100

  datatype Access = Undef | Kasan | Mds | CacheChannel | PortContention

  datatype Level = PrintDefault | PrintNone | PrintDuplicates

  datatype Bug = Bug(addr: int, size: int, isWrite: bool, ip: int, inSpec: bool, specLength: int,
                     dataLabel: int, ptrLabel: int, access: Access)

  const ZERO := Bug(0, 0, false, 0, false, 0, 0, 0, Undef)

  /** Kernel text, from its first byte to the one after its last. */
  datatype Text = Text(start: int, end: int) {
    predicate Has(ip: int) {
      start <= ip < end
    }
  }

  /** What may be reported once. */
  datatype Finding = Finding(ip: int, access: Access)

  function FindingOf(b: Bug): Finding {
    Finding(b.ip, b.access)
  }

  /** A line of output; a report carries the print level under which it was printed. */
  datatype Line = Begin | Report(bug: Bug, level: Level) | End

  // ----- The map -----

  function BitmapSize(t: Text): int {
    var n := t.end - t.start + PAGE_SIZE;
    n - n % PAGE_SIZE
  }

  function BlockCount(t: Text): int {
    BitmapSize(t) / BLOCK + if BitmapSize(t) % BLOCK != 0 then 1 else 0
  }

  /** The block that holds the byte for an address, and where in it. */
  function Row(t: Text, ip: int): int {
    (ip - t.start) / BLOCK
  }

  function Column(t: Text, ip: int): int {
    (ip - t.start) % BLOCK
  }

  /** Every address of the text has a place in the map, and no two share one. */
  lemma PlacesExistAndDiffer(t: Text, ip: int, ip': int)
    requires t.Has(ip) && t.Has(ip')
    ensures 0 <= ip - t.start < BitmapSize(t)
    ensures 0 <= Row(t, ip) < BlockCount(t) && 0 <= Column(t, ip) < BLOCK
    ensures Row(t, ip) == Row(t, ip') && Column(t, ip) == Column(t, ip') <==> ip == ip'
  {
  }

  /** The map is a whole number of pages, at most one more than the text needs, in as few blocks as hold it. */
  lemma MapIsTight(t: Text)
    requires t.start <= t.end
    ensures BitmapSize(t) % PAGE_SIZE == 0 && t.end - t.start < BitmapSize(t) <= t.end - t.start + PAGE_SIZE
    ensures (BlockCount(t) - 1) * BLOCK < BitmapSize(t) <= BlockCount(t) * BLOCK
  {
  }

  function Mask(a: Access): bv8 {
    match a
    case Mds => 1
    case CacheChannel => 2
    case Kasan => 4
    case PortContention => 8
    case Undef => 0xff
  }

  function Mark(x: bv8, a: Access): bv8 {
    x | Mask(a)
  }

  /** Whether a byte of the map says that there is nothing more to report. */
  predicate Marked(x: bv8, a: Access) {
    x & Mask(a) == Mask(a) || Mask(a) == 0xff
  }

  /** Setting the bit of one kind of access marks that kind and no other. */
  lemma MarkIsExact(x: bv8, a: Access, b: Access)
    requires a != Undef
    ensures Marked(Mark(x, a), b) <==> Marked(x, b) || a == b
    ensures Marked(0, b) <==> b == Undef
  {
  }

  // ----- What printing does, over the set of findings -----

  datatype Sifted = Sifted(seen: set<Finding>, kept: seq<Bug>, failed: bool)

  /** One pending report: dropped, kept, or without a place in the map. */
  function SiftOne(t: Text, level: Level, s: Sifted, b: Bug): Sifted {
    if s.failed || level == PrintNone then s
    else if level == PrintDuplicates then s.(kept := s.kept + [b])
    else if !t.Has(b.ip) then s.(failed := true)
    else if b.access == Undef || FindingOf(b) in s.seen then s
    else s.(seen := s.seen + {FindingOf(b)}, kept := s.kept + [b])
  }

  function Sift(t: Text, level: Level, seen: set<Finding>, bugs: seq<Bug>): Sifted {
    if bugs == [] then Sifted(seen, [], false)
    else SiftOne(t, level, Sift(t, level, seen, bugs[..|bugs| - 1]), bugs[|bugs| - 1])
  }

  function Lines(bugs: seq<Bug>, level: Level): (r: seq<Line>)
    ensures |r| == |bugs|
  {
    seq(|bugs|, k requires 0 <= k < |bugs| => Report(bugs[k], level))
  }

  /** The output of one printing; it stays open if an assertion fails on the way. */
  function Printout(s: Sifted, level: Level): seq<Line> {
    if s.kept == [] then []
    else [Begin] + Lines(s.kept, level) + if s.failed then [] else [End]
  }

  datatype Log = Log(level: Level, seen: set<Finding>, pending: seq<Bug>, out: seq<Line>)

  /** How a call ends: it returns, an assertion fails and it does not, or it runs out of memory to write to. */
  datatype Verdict = Fine | Fails | Faults

  datatype Result = Result(log: Log, verdict: Verdict)

  function Flush(t: Text, s: Log): Result {
    var k := Sift(t, s.level, s.seen, s.pending);
    Result(s.(seen := k.seen, out := s.out + Printout(k, s.level), pending := if k.failed then s.pending else []),
           if k.failed then Fails else Fine)
  }

  /**
    * A new report: queued in speculation, and printed at once outside it. A full list fails an assertion;
    * with a stale in-restart flag, in speculation, that is only recorded, and the report goes where the
    * list has ended, as long as there is memory: `room` counts the slots up to its end.
    */
  function Found(t: Text, room: nat, s: Log, b: Bug, stale: bool): Result {
    if |s.pending| >= BUGS_LIST_SIZE && !(b.inSpec && stale) then Result(s, Fails)
    else if |s.pending| >= room then Result(s, Faults)
    else
      var s1 := s.(pending := s.pending + [b]);
      if b.inSpec then Result(s1, Fine) else Flush(t, s1)
  }

  // ----- The library -----

  class Reporter {
    const text: Text
    const blocks: seq<array<bv8>>
    const bugs: array<Bug>  // the list, and the memory behind it as far as it goes
    var next: nat
    var level: Level
    var out: seq<Line>
    ghost var seen: set<Finding>

    /** The map holds exactly the findings seen, its blocks do not alias, and the unused slots are zero. */
    ghost predicate Valid()
      reads this, bugs, blocks
    {
      && MapValid()
      && (forall k :: 0 <= k < |blocks| ==> blocks[k] as object != bugs)
      && next <= bugs.Length && BUGS_LIST_SIZE <= bugs.Length
      && (forall k :: next <= k < BUGS_LIST_SIZE ==> bugs[k] == ZERO)
    }

    ghost predicate MapValid()
      reads this`seen, blocks
    {
      && |blocks| == BlockCount(text)
      && (forall k :: 0 <= k < |blocks| ==> blocks[k].Length == BLOCK)
      && (forall j, k :: 0 <= j < k < |blocks| ==> blocks[j] != blocks[k])
      && (forall f <- seen :: text.Has(f.ip) && f.access != Undef)
      && (forall ip, a :: text.Has(ip) && a != Undef ==> (Finding(ip, a) in seen <==> Marked(At(ip), a)))
    }

    /** The byte of the map for an address. */
    ghost function At(ip: int): bv8
      requires |blocks| == BlockCount(text) && text.Has(ip)
      requires forall k :: 0 <= k < |blocks| ==> blocks[k].Length == BLOCK
      reads blocks
    {
      PlacesExistAndDiffer(text, ip, ip);
      blocks[Row(text, ip)][Column(text, ip)]
    }

    ghost function View(): Log
      requires Valid()
      reads this, bugs, blocks
    {
      Log(level, seen, bugs[..next], out)
    }

    constructor (t: Text, room: nat)
      requires t.start <= t.end && BUGS_LIST_SIZE <= room
      ensures Valid() && text == t && bugs.Length == room && View() == Log(PrintDefault, {}, [], [])
    {
      var n := BlockCount(t);
      var all: seq<array<bv8>> := [];
      for i := 0 to n
        invariant |all| == i
        invariant forall k :: 0 <= k < i ==> fresh(all[k]) && all[k].Length == BLOCK
        invariant forall j, k :: 0 <= j < k < i ==> all[j] != all[k]
        invariant forall k, x :: 0 <= k < i && 0 <= x < BLOCK ==> all[k][x] == 0
      {
        var block := new bv8[BLOCK](_ => 0);
        all := all + [block];
      }
      text, blocks := t, all;
      bugs := new Bug[room](_ => ZERO);
      next, level, out, seen := 0, PrintDefault, [], {};
      new;
      forall ip, a | text.Has(ip) && a != Undef ensures !Marked(At(ip), a) {
        PlacesExistAndDiffer(text, ip, ip);
        MarkIsExact(0, a, a);
      }
    }

    /** Whether there is nothing more to report at an address of the text. */
    method AlreadyReported(b: Bug) returns (yes: bool)
      requires MapValid() && text.Has(b.ip)
      ensures yes <==> b.access == Undef || FindingOf(b) in seen
    {
      PlacesExistAndDiffer(text, b.ip, b.ip);
      assert At(b.ip) == blocks[Row(text, b.ip)][Column(text, b.ip)];
      yes := Marked(blocks[Row(text, b.ip)][Column(text, b.ip)], b.access);
    }

    /** Sets the bit of a finding. */
    method SetReported(b: Bug)
      requires MapValid() && text.Has(b.ip) && b.access != Undef
      modifies this`seen, blocks
      ensures MapValid() && seen == old(seen) + {FindingOf(b)}
    {
      hide Row, Column, BlockCount, Marked, Mark;
      PlacesExistAndDiffer(text, b.ip, b.ip);
      var block, column := blocks[Row(text, b.ip)], Column(text, b.ip);
      block[column] := Mark(block[column], b.access);
      seen := seen + {FindingOf(b)};
      forall ip | text.Has(ip) ensures At(ip) == if ip == b.ip then Mark(old(At(ip)), b.access) else old(At(ip)) {
        PlacesExistAndDiffer(text, ip, b.ip);
      }
      forall ip, a | text.Has(ip) && a != Undef ensures Finding(ip, a) in seen <==> Marked(At(ip), a) {
        MarkIsExact(old(At(b.ip)), b.access, a);
      }
    }

    /** Whether to print a report at the present level; fails for an address outside the text. */
    method ShouldReport(b: Bug, ghost s: Sifted) returns (yes: bool, failed: bool)
      requires MapValid() && s.seen == seen && !s.failed
      modifies this`seen, blocks
      ensures MapValid() && !(yes && failed)
      ensures SiftOne(text, level, s, b) == Sifted(seen, if yes then s.kept + [b] else s.kept, failed)
    {
      yes, failed := false, false;
      if level == PrintNone {
        return;
      } else if level == PrintDuplicates {
        yes := true;
        return;
      }
      if !text.Has(b.ip) {
        failed := true;
        return;
      }
      var reported := AlreadyReported(b);
      if !reported {
        SetReported(b);
        yes := true;
      }
    }

    /** Zeroes the list, and no more than that. */
    method Clear()
      requires Valid()
      modifies this`next, bugs
      ensures Valid() && next == 0
    {
      var k := 0;
      while k < BUGS_LIST_SIZE
        invariant 0 <= k <= BUGS_LIST_SIZE
        invariant forall j :: 0 <= j < k || next <= j < BUGS_LIST_SIZE ==> bugs[j] == ZERO
      {
        bugs[k] := ZERO;
        k := k + 1;
      }
      next := 0;
    }

    /** Prints what is pending and is to be printed, and empties the queue. */
    method PrintAndClear() returns (verdict: Verdict)
      requires Valid()
      modifies this`next, this`out, this`seen, bugs, blocks
      ensures Valid() && Result(View(), verdict) == Flush(text, old(View()))
    {
      hide MapValid, At, Sift, SiftOne, Lines;
      verdict := Fine;
      SiftEmpty(text, level, seen);
      if next == 0 {
        return;
      }
      var printed := false;
      ghost var pending, s := bugs[..next], Sifted(seen, [], false);
      var i := 0;
      while i < next
        invariant 0 <= i <= next == old(next) && Valid() && bugs[..next] == pending
        invariant s == Sift(text, level, old(seen), pending[..i]) && !s.failed && s.seen == seen
        invariant printed <==> s.kept != []
        invariant out == old(out) + if printed then [Begin] + Lines(s.kept, level) else []
      {
        var b := bugs[i];
        SiftStep(text, level, old(seen), pending, i);
        LinesStep(s.kept, b, level);
        var report, stop := ShouldReport(b, s);
        s := SiftOne(text, level, s, b);
        if stop {
          verdict := Fails;
          FailureStays(text, level, old(seen), pending, i + 1);
          return;
        }
        if report {
          if !printed {
            out := out + [Begin];
            printed := true;
          }
          out := out + [Report(b, level)];
        }
        i := i + 1;
      }
      assert pending[..i] == pending;
      if printed {
        out := out + [End];
      }
      Clear();
    }

    /** Reports an access; `stale` says whether the library believes that a restart is running. */
    method AccessReport(b: Bug, stale: bool) returns (verdict: Verdict)
      requires Valid()
      modifies this`next, this`out, this`seen, bugs, blocks
      ensures Valid() && Result(View(), verdict) == Found(text, bugs.Length, old(View()), b, stale)
    {
      hide MapValid, At;
      if next >= BUGS_LIST_SIZE {
        // The assertion fails; in speculation and with the flag set it is only recorded.
        if !(b.inSpec && stale) {
          return Fails;
        }
      } else {
        // The slot was zeroed when the list was last emptied.
        assert bugs[next] == ZERO;
      }
      if next >= bugs.Length {
        return Faults;
      }
      bugs[next] := b;
      next := next + 1;
      assert bugs[..next] == old(bugs[..next]) + [b];
      verdict := Fine;
      if !b.inSpec {
        verdict := PrintAndClear();
      }
    }
  }

  lemma SiftEmpty(t: Text, level: Level, seen: set<Finding>)
    ensures Sift(t, level, seen, []) == Sifted(seen, [], false)
  {
  }

  lemma SiftStep(t: Text, level: Level, seen: set<Finding>, bugs: seq<Bug>, i: nat)
    requires i < |bugs|
    ensures Sift(t, level, seen, bugs[..i + 1]) == SiftOne(t, level, Sift(t, level, seen, bugs[..i]), bugs[i])
  {
    assert bugs[..i + 1][..i] == bugs[..i];
  }

  lemma LinesStep(bugs: seq<Bug>, b: Bug, level: Level)
    ensures Lines(bugs + [b], level) == Lines(bugs, level) + [Report(b, level)]
    ensures Lines([], level) == []
  {
  }

  lemma {:induction false} FailureStays(t: Text, level: Level, seen: set<Finding>, bugs: seq<Bug>, n: nat)
    requires n <= |bugs| && Sift(t, level, seen, bugs[..n]).failed
    ensures Sift(t, level, seen, bugs) == Sift(t, level, seen, bugs[..n])
    decreases |bugs|
  {
    if n < |bugs| {
      var m := |bugs| - 1;
      assert bugs[..m][..n] == bugs[..n];
      FailureStays(t, level, seen, bugs[..m], n);
    } else {
      assert bugs[..n] == bugs;
    }
  }

  // ----- Whole runs -----

  datatype Event = FoundAccess(bug: Bug, stale: bool) | EndOfSpeculation(prints: bool) | SetLevel(level: Level)

  function Step(t: Text, room: nat, s: Log, e: Event): Result {
    match e
    case FoundAccess(b, stale) => Found(t, room, s, b, stale)
    case EndOfSpeculation(prints) => if prints then Flush(t, s) else Result(s, Fine)
    case SetLevel(l) => Result(s.(level := l), Fine)
  }

  /** A run from the start, up to the first call that does not return. */
  function Run(t: Text, room: nat, events: seq<Event>): Result {
    if events == [] then Result(Log(PrintDefault, {}, [], []), Fine) else
    var r := Run(t, room, events[..|events| - 1]);
    if r.verdict != Fine then r else Step(t, room, r.log, events[|events| - 1])
  }

  /** The reports that were made with the flag stale. */
  function Stale(events: seq<Event>): nat {
    if events == [] then 0 else
    var e := events[|events| - 1];
    Stale(events[..|events| - 1]) + if e.FoundAccess? && e.stale && e.bug.inSpec then 1 else 0
  }

  /**
    * Over every run the list overflows only by reports made in speculation with the flag stale, and by
    * no more than their number; without any, no write ever leaves the list.
    */
  lemma {:induction false} ListBound(t: Text, room: nat, events: seq<Event>)
    requires BUGS_LIST_SIZE <= room
    ensures var r := Run(t, room, events);
            && |r.log.pending| <= BUGS_LIST_SIZE + Stale(events)
            && (r.verdict == Faults ==> Stale(events) > room - BUGS_LIST_SIZE)
  {
    hide Sift, Printout;
    if events != [] {
      ListBound(t, room, events[..|events| - 1]);
    }
  }

  // ----- What is printed at each level -----

  lemma {:induction false} SiftElsewhere(t: Text, level: Level, seen: set<Finding>, bugs: seq<Bug>)
    requires level != PrintDefault
    ensures Sift(t, level, seen, bugs) == Sifted(seen, if level == PrintNone then [] else bugs, false)
  {
    if bugs != [] {
      var n := |bugs| - 1;
      SiftElsewhere(t, level, seen, bugs[..n]);
      assert bugs[..n] + [bugs[n]] == bugs;
    }
  }

  /** At the level of no reports nothing is printed, and the queue is emptied all the same. */
  lemma NoneIsSilent(t: Text, s: Log)
    requires s.level == PrintNone
    ensures Flush(t, s) == Result(s.(pending := []), Fine)
  {
    hide Lines, Sift;
    SiftElsewhere(t, s.level, s.seen, s.pending);
  }

  /** At the level of duplicates every pending report is printed, in order, and nothing is marked. */
  lemma DuplicatesPrintAll(t: Text, s: Log)
    requires s.level == PrintDuplicates && s.pending != []
    ensures Flush(t, s) == Result(
              s.(pending := [], out := s.out + ([Begin] + Lines(s.pending, PrintDuplicates) + [End])), Fine)
  {
    hide Lines, Sift;
    SiftElsewhere(t, s.level, s.seen, s.pending);
  }

  /** Whether report `k` is the first of its finding, among those before it and those seen. */
  predicate IsNew(seen: set<Finding>, bugs: seq<Bug>, k: nat)
    requires k < |bugs|
  {
    && bugs[k].access != Undef && FindingOf(bugs[k]) !in seen
    && forall j :: 0 <= j < k ==> FindingOf(bugs[j]) != FindingOf(bugs[k])
  }

  /** The new reports among the first `n`, in order. */
  function NewOnes(seen: set<Finding>, bugs: seq<Bug>, n: nat): seq<Bug>
    requires n <= |bugs|
  {
    if n == 0 then [] else NewOnes(seen, bugs, n - 1) + if IsNew(seen, bugs, n - 1) then [bugs[n - 1]] else []
  }

  lemma {:induction false} SiftIsNewOnes(t: Text, seen: set<Finding>, bugs: seq<Bug>, n: nat)
    requires n <= |bugs| && forall k :: 0 <= k < n ==> t.Has(bugs[k].ip)
    ensures var s := Sift(t, PrintDefault, seen, bugs[..n]);
            && !s.failed && s.kept == NewOnes(seen, bugs, n)
            && forall f :: f in s.seen <==>
                 f in seen || exists k :: 0 <= k < n && bugs[k].access != Undef && FindingOf(bugs[k]) == f
    decreases n
  {
    if n > 0 {
      SiftIsNewOnes(t, seen, bugs, n - 1);
      assert bugs[..n][..n - 1] == bugs[..n - 1];
      var s := Sift(t, PrintDefault, seen, bugs[..n - 1]);
      var f := FindingOf(bugs[n - 1]);
      if f in s.seen && f !in seen {
        var k :| 0 <= k < n - 1 && bugs[k].access != Undef && FindingOf(bugs[k]) == f;
      }
      forall j | 0 <= j < n - 1 && FindingOf(bugs[j]) == f && bugs[n - 1].access != Undef ensures f in s.seen {
        assert bugs[j].access != Undef;
      }
    }
  }

  /**
    * At the default level, if all pending reports are from kernel text, those are printed that are the
    * first of their finding, in order, between one begin and one end.
    */
  lemma DefaultPrintsNew(t: Text, s: Log)
    requires s.level == PrintDefault && forall b :: b in s.pending ==> t.Has(b.ip)
    ensures var r, kept := Flush(t, s), NewOnes(s.seen, s.pending, |s.pending|);
            && r.verdict == Fine && r.log.pending == []
            && r.log.out == s.out + if kept == [] then [] else [Begin] + Lines(kept, PrintDefault) + [End]
  {
    SiftIsNewOnes(t, s.seen, s.pending, |s.pending|);
    assert s.pending[..|s.pending|] == s.pending;
  }

  /**
    * If some report is not from kernel text, printing at the default level stops at the first such one: the
    * new ones before it are out, without an end, and the queue stays as it was.
    */
  lemma StopsAtForeign(t: Text, s: Log, n: nat)
    requires s.level == PrintDefault && n < |s.pending| && !t.Has(s.pending[n].ip)
    requires forall k :: 0 <= k < n ==> t.Has(s.pending[k].ip)
    ensures var r, kept := Flush(t, s), NewOnes(s.seen, s.pending, n);
            && r.verdict == Fails && r.log.pending == s.pending
            && r.log.out == s.out + if kept == [] then [] else [Begin] + Lines(kept, PrintDefault)
  {
    SiftIsNewOnes(t, s.seen, s.pending, n);
    SiftStep(t, s.level, s.seen, s.pending, n);
    FailureStays(t, s.level, s.seen, s.pending, n + 1);
  }

  /** An access found outside speculation is printed at once: with nothing pending, it alone. */
  lemma OutsideIsPrinted(t: Text, room: nat, s: Log, b: Bug, stale: bool)
    requires BUGS_LIST_SIZE <= room && s.pending == [] && !b.inSpec && t.Has(b.ip) && b.access != Undef
    ensures var r := Found(t, room, s, b, stale);
            && r.verdict == Fine && r.log.pending == []
            && r.log.out == s.out +
                 (if s.level == PrintNone || (s.level == PrintDefault && FindingOf(b) in s.seen) then []
                  else [Begin, Report(b, s.level), End])
            && r.log.seen == (if s.level == PrintDefault then s.seen + {FindingOf(b)} else s.seen)
  {
    assert [b][..0] == [];
    assert Sift(t, s.level, s.seen, [b]) == SiftOne(t, s.level, Sift(t, s.level, s.seen, []), b);
  }

  /** The reports of one speculation; the flag is stale from the report `from` on. */
  function InSpeculation(bugs: seq<Bug>, from: nat): (events: seq<Event>)
    ensures |events| == |bugs|
  {
    seq(|bugs|, k requires 0 <= k < |bugs| => FoundAccess(bugs[k].(inSpec := true), k >= from))
  }

  function Queued(bugs: seq<Bug>): (r: seq<Bug>)
    ensures |r| == |bugs|
  {
    seq(|bugs|, k requires 0 <= k < |bugs| => bugs[k].(inSpec := true))
  }

  lemma OneMoreFound(bugs: seq<Bug>, from: nat)
    requires bugs != []
    ensures var n := |bugs| - 1; var b := bugs[n].(inSpec := true);
            && InSpeculation(bugs, from) == InSpeculation(bugs[..n], from) + [FoundAccess(b, n >= from)]
            && Queued(bugs) == Queued(bugs[..n]) + [b]
  {
  }

  /** Behind any events that leave the list empty, it holds the reports in order. How far it gets, and how it ends. */
  lemma {:induction false} SpeculationList(t: Text, room: nat, pre: seq<Event>, bugs: seq<Bug>, from: nat)
    requires BUGS_LIST_SIZE < room && Run(t, room, pre).verdict == Fine && Run(t, room, pre).log.pending == []
    ensures var s, r, n := Run(t, room, pre).log, Run(t, room, pre + InSpeculation(bugs, from)), |bugs|;
            if n <= BUGS_LIST_SIZE then r == Result(s.(pending := Queued(bugs)), Fine)
            else if from > BUGS_LIST_SIZE then r.verdict == Fails && |r.log.pending| == BUGS_LIST_SIZE
            else if n <= room then r == Result(s.(pending := Queued(bugs)), Fine)
            else r.verdict == Faults && |r.log.pending| == room
    decreases |bugs|
  {
    hide Flush, InSpeculation, Queued;
    var all := pre + InSpeculation(bugs, from);
    if bugs == [] {
      assert all == pre;
      assert Queued(bugs) == [];
    } else {
      var n := |bugs| - 1;
      OneMoreFound(bugs, from);
      assert all == pre + InSpeculation(bugs[..n], from) + [FoundAccess(bugs[n].(inSpec := true), n >= from)];
      assert all[..|all| - 1] == pre + InSpeculation(bugs[..n], from);
      SpeculationList(t, room, pre, bugs[..n], from);
    }
  }

  /**
    * The list of a speculation overruns if and only if there are more reports than it holds and the flag
    * was stale by the time it was full.
    */
  lemma OverrunIff(t: Text, room: nat, bugs: seq<Bug>, from: nat)
    requires BUGS_LIST_SIZE < room
    ensures |Run(t, room, InSpeculation(bugs, from)).log.pending| > BUGS_LIST_SIZE
            <==> |bugs| > BUGS_LIST_SIZE >= from
  {
    SpeculationList(t, room, [], bugs, from);
    assert [] + InSpeculation(bugs, from) == InSpeculation(bugs, from);
  }

  /** A change of level, a speculation in which `bugs` were found, and its end. */
  function Episode(level: Level, bugs: seq<Bug>, from: nat, prints: bool): seq<Event> {
    [SetLevel(level)] + InSpeculation(bugs, from) + [EndOfSpeculation(prints)]
  }

  /**
    * Whatever happened before: what was found in a speculation is printed at its end as the level set last
    * says, from the findings seen by then; unless it ends without printing, and then it stays pending.
    */
  lemma EpisodeIsReported(t: Text, room: nat, pre: seq<Event>, level: Level, bugs: seq<Bug>, from: nat, prints: bool)
    requires BUGS_LIST_SIZE < room && |bugs| <= BUGS_LIST_SIZE
    requires Run(t, room, pre).verdict == Fine && Run(t, room, pre).log.pending == []
    requires forall b :: b in bugs ==> t.Has(b.ip)
    ensures var s, r := Run(t, room, pre).log, Run(t, room, pre + Episode(level, bugs, from, prints));
            && r.verdict == Fine && r.log.level == level
            && r.log.pending == (if prints then [] else Queued(bugs))
            && r.log.out == s.out + if prints then Shown(level, s.seen, Queued(bugs)) else []
  {
    hide Flush, InSpeculation, Shown, Queued, Run, Episode;
    var s := Run(t, room, pre).log;
    EpisodeRuns(t, room, pre, level, bugs, from, prints);
    forall b | b in Queued(bugs) ensures t.Has(b.ip) {
      QueuedIps(t, bugs, b);
    }
    FlushShows(t, s.(level := level, pending := Queued(bugs)));
    assert s.out + [] == s.out;
  }

  /** What is printed of pending reports: none, the first of each finding, or all, in order. */
  function Shown(level: Level, seen: set<Finding>, bugs: seq<Bug>): seq<Line> {
    var kept := match level
      case PrintNone => []
      case PrintDefault => NewOnes(seen, bugs, |bugs|)
      case PrintDuplicates => bugs;
    if kept == [] then [] else [Begin] + Lines(kept, level) + [End]
  }

  lemma FlushShows(t: Text, s: Log)
    requires forall b :: b in s.pending ==> t.Has(b.ip)
    ensures var r := Flush(t, s);
            && r.verdict == Fine && r.log.level == s.level && r.log.pending == []
            && r.log.out == s.out + Shown(s.level, s.seen, s.pending)
  {
    hide NewOnes, Lines, Sift;
    if s.level == PrintDefault {
      DefaultPrintsNew(t, s);
    } else {
      SiftElsewhere(t, s.level, s.seen, s.pending);
    }
  }

  lemma QueuedIps(t: Text, bugs: seq<Bug>, b: Bug)
    requires b in Queued(bugs) && forall b :: b in bugs ==> t.Has(b.ip)
    ensures t.Has(b.ip)
  {
    var k :| 0 <= k < |bugs| && Queued(bugs)[k] == b;
    assert b.ip == bugs[k].ip;
  }

  lemma EpisodeRuns(t: Text, room: nat, pre: seq<Event>, level: Level, bugs: seq<Bug>, from: nat, prints: bool)
    requires BUGS_LIST_SIZE < room && |bugs| <= BUGS_LIST_SIZE
    requires Run(t, room, pre).verdict == Fine && Run(t, room, pre).log.pending == []
    ensures var s1 := Run(t, room, pre).log.(level := level, pending := Queued(bugs));
            Run(t, room, pre + Episode(level, bugs, from, prints)) == if prints then Flush(t, s1) else Result(s1, Fine)
  {
    hide Flush, InSpeculation, Queued;
    var first := pre + [SetLevel(level)];
    assert first[..|first| - 1] == pre;
    SpeculationList(t, room, first, bugs, from);
    var all := pre + Episode(level, bugs, from, prints);
    assert all[..|all| - 1] == first + InSpeculation(bugs, from);
  }

  /** Whether line `k` reports the finding under the default level. */
  predicate ReportsAt(out: seq<Line>, k: int, f: Finding) {
    0 <= k < |out| && out[k].Report? && out[k].level == PrintDefault && FindingOf(out[k].bug) == f
  }

  /** The findings seen are exactly those reported under the default level, and none was reported twice. */
  ghost predicate Once(out: seq<Line>, seen: set<Finding>) {
    && (forall f :: f in seen <==> exists k :: ReportsAt(out, k, f))
    && (forall f, j, k :: ReportsAt(out, j, f) && ReportsAt(out, k, f) ==> j == k)
    && (forall f <- seen :: f.access != Undef)
  }

  /** Reports that pass a run of default-level sifting are new, and differ from each other. */
  lemma {:induction false} SiftIsNew(t: Text, seen: set<Finding>, bugs: seq<Bug>)
    ensures var s := Sift(t, PrintDefault, seen, bugs);
            && s.seen == seen + (set b | b in s.kept :: FindingOf(b))
            && (forall k :: 0 <= k < |s.kept| ==> FindingOf(s.kept[k]) !in seen && s.kept[k].access != Undef)
            && (forall j, k :: 0 <= j < k < |s.kept| ==> FindingOf(s.kept[j]) != FindingOf(s.kept[k]))
  {
    if bugs != [] {
      SiftIsNew(t, seen, bugs[..|bugs| - 1]);
    }
  }

  /** No other level reports under the default level or marks anything as seen. */
  lemma {:induction false} OtherLevelsMarkNothing(t: Text, level: Level, seen: set<Finding>, bugs: seq<Bug>)
    requires level != PrintDefault
    ensures Sift(t, level, seen, bugs).seen == seen
  {
    if bugs != [] {
      OtherLevelsMarkNothing(t, level, seen, bugs[..|bugs| - 1]);
    }
  }

  lemma PrintoutAt(s: Sifted, level: Level, j: int)
    requires 0 <= j < |Printout(s, level)|
    ensures Printout(s, level)[j]
         == if j == 0 then Begin else if j <= |s.kept| then Report(s.kept[j - 1], level) else End
  {
  }

  /** Where the reports of a printing are in the output. */
  lemma ReportedAt(out: seq<Line>, s: Sifted, level: Level, k: int, f: Finding)
    ensures var n := |out| + 1;
            ReportsAt(out + Printout(s, level), k, f)
            <==> || ReportsAt(out, k, f)
                 || (level == PrintDefault && n <= k < n + |s.kept| && FindingOf(s.kept[k - n]) == f)
  {
    var p, j := Printout(s, level), k - |out|;
    assert |p| >= |s.kept| + (if s.kept == [] then 0 else 1);
    hide Printout;
    if k < |out| {
      assert k >= 0 ==> (out + p)[k] == out[k];
    } else if j < |p| {
      assert (out + p)[k] == p[j];
      PrintoutAt(s, level, j);
    }
  }

  lemma OnceAfterFlush(t: Text, s: Log)
    requires Once(s.out, s.seen)
    ensures Once(Flush(t, s).log.out, Flush(t, s).log.seen)
  {
    hide Sift, Printout;
    var k := Sift(t, s.level, s.seen, s.pending);
    var out := s.out + Printout(k, s.level);
    var n := |s.out| + 1;
    forall i, f ensures ReportsAt(out, i, f) <==>
      || ReportsAt(s.out, i, f)
      || (s.level == PrintDefault && n <= i < n + |k.kept| && FindingOf(k.kept[i - n]) == f)
    {
      ReportedAt(s.out, k, s.level, i, f);
    }
    if s.level == PrintDefault {
      SiftIsNew(t, s.seen, s.pending);
      forall f | f in k.seen ensures exists i :: ReportsAt(out, i, f) {
        if f in s.seen {
          var i :| ReportsAt(s.out, i, f);
          assert ReportsAt(out, i, f);
        } else {
          var j :| 0 <= j < |k.kept| && FindingOf(k.kept[j]) == f;
          assert ReportsAt(out, |s.out| + 1 + j, f);
        }
      }
    } else {
      OtherLevelsMarkNothing(t, s.level, s.seen, s.pending);
    }
  }

  /**
    * Over every run, whatever is found and however the level is switched: a finding is reported at
    * most once under the default level, and the map holds exactly the findings so reported.
    */
  lemma {:induction false} ReportedOnce(t: Text, room: nat, events: seq<Event>)
    ensures Once(Run(t, room, events).log.out, Run(t, room, events).log.seen)
  {
    if events != [] {
      var e := events[|events| - 1];
      ReportedOnce(t, room, events[..|events| - 1]);
      var r := Run(t, room, events[..|events| - 1]);
      if r.verdict == Fine {
        match e
        case FoundAccess(b, _) =>
          OnceAfterFlush(t, r.log.(pending := r.log.pending + [b]));
        case EndOfSpeculation(_) =>
          OnceAfterFlush(t, r.log);
        case SetLevel(_) =>
      }
    }
  }

  lemma {:induction false} SiftSeesAll(t: Text, seen: set<Finding>, bugs: seq<Bug>, b: Bug)
    requires b in bugs && b.access != Undef && !Sift(t, PrintDefault, seen, bugs).failed
    ensures FindingOf(b) in Sift(t, PrintDefault, seen, bugs).seen
  {
    var n := |bugs| - 1;
    if b != bugs[n] {
      SiftSeesAll(t, seen, bugs[..n], b);
    }
  }

  /**
    * Nothing is dropped for good: when the queue is printed under the default level, each finding in
    * it has by then been reported under that level, and exactly once.
    */
  lemma PendingIsReported(t: Text, room: nat, events: seq<Event>, b: Bug)
    requires var r := Run(t, room, events);
             && r.verdict == Fine && r.log.level == PrintDefault && b in r.log.pending && b.access != Undef
             && Flush(t, r.log).verdict == Fine
    ensures var out := Flush(t, Run(t, room, events).log).log.out;
            exists k :: ReportsAt(out, k, FindingOf(b)) && forall j :: ReportsAt(out, j, FindingOf(b)) ==> j == k
  {
    var s := Run(t, room, events).log;
    ReportedOnce(t, room, events);
    OnceAfterFlush(t, s);
    SiftSeesAll(t, s.seen, s.pending, b);
    assert FindingOf(b) in Flush(t, s).log.seen;
  }

  /** A printing fails exactly if, at the default level, a pending report is not from kernel text. */
  lemma {:induction false} FailsOutsideText(t: Text, level: Level, seen: set<Finding>, bugs: seq<Bug>)
    ensures Sift(t, level, seen, bugs).failed <==> level == PrintDefault && exists b :: b in bugs && !t.Has(b.ip)
  {
    if bugs != [] {
      var n := |bugs| - 1;
      FailsOutsideText(t, level, seen, bugs[..n]);
      if b :| b in bugs && !t.Has(b.ip) {
        assert b in bugs[..n] || b == bugs[n];
      }
    }
  }
}
