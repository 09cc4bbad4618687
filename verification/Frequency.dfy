/** Where inline assembly ended speculations, and how often: a list that keeps itself sorted. */
module Frequency {

  const CAPACITY := 40

  datatype Stat = Stat(ip: int, count: nat)

  predicate Sorted(list: seq<Stat>) {
    forall a, b :: 0 <= a < b < |list| ==> list[a].count >= list[b].count
  }

  predicate Distinct(list: seq<Stat>) {
    forall a, b :: 0 <= a < b < |list| ==> list[a].ip != list[b].ip
  }

  predicate Has(list: seq<Stat>, ip: int) {
    exists k :: 0 <= k < |list| && list[k].ip == ip
  }

  /** The first position from `k` on that holds `ip`, or the length of the list. */
  function Find(list: seq<Stat>, ip: int, k: nat): (r: nat)
    requires k <= |list|
    ensures k <= r <= |list| && (r < |list| ==> list[r].ip == ip)
    ensures forall j :: k <= j < r ==> list[j].ip != ip
    decreases |list| - k
  {
    if k == |list| || list[k].ip == ip then k else Find(list, ip, k + 1)
  }

  /** Moves element `i` towards the front past every smaller count. */
  function BubbleUp(list: seq<Stat>, i: nat): (r: seq<Stat>)
    requires i < |list|
    ensures |r| == |list|
    decreases i
  {
    if i > 0 && list[i - 1].count < list[i].count
    then BubbleUp(list[i - 1 := list[i]][i := list[i - 1]], i - 1)
    else list
  }

  function Add(list: seq<Stat>, ip: int): seq<Stat> {
    var i := Find(list, ip, 0);
    if i < |list| then BubbleUp(list[i := Stat(ip, list[i].count + 1)], i)
    else if |list| >= CAPACITY then list
    else list + [Stat(ip, 1)]
  }

  class FrequencyList {
    const stats: array<Stat>
    var size: nat

    ghost predicate Valid()
      reads this
    {
      size <= stats.Length == CAPACITY
    }

    ghost function Contents(): seq<Stat>
      requires Valid()
      reads this, stats
    {
      stats[..size]
    }

    constructor ()
      ensures Valid() && fresh(stats) && Contents() == []
    {
      stats := new Stat[CAPACITY](_ => Stat(0, 0));
      size := 0;
    }

    /** Shifts element `at` forward, past every smaller count. */
    method Shift(at: nat)
      requires Valid() && at < size
      modifies stats
      ensures Contents() == BubbleUp(old(Contents()), at)
    {
      var tmp := stats[at];
      var i := at - 1;
      while i >= 0 && stats[i].count < tmp.count
        invariant -1 <= i < at && stats[i + 1] == tmp
        invariant BubbleUp(Contents(), i + 1) == BubbleUp(old(Contents()), at)
      {
        ghost var before := Contents();
        stats[i + 1] := stats[i];
        stats[i] := tmp;
        assert Contents() == before[i := before[i + 1]][i + 1 := before[i]];
        i := i - 1;
      }
    }

    /** Counts a restart at `ip`, and shifts its element forward in place. */
    method AddRestart(ip: int)
      requires Valid()
      modifies this`size, stats
      ensures Valid() && Contents() == Add(old(Contents()), ip)
    {
      hide BubbleUp;
      var i := 0;
      while i < size
        invariant 0 <= i <= size && size == old(size) && Contents() == old(Contents())
        invariant Find(Contents(), ip, i) == Find(old(Contents()), ip, 0)
      {
        if stats[i].ip == ip {
          stats[i] := Stat(ip, stats[i].count + 1);
          assert Contents() == old(Contents())[i := Stat(ip, old(Contents())[i].count + 1)];
          Shift(i);
          return;
        }
        i := i + 1;
      }
      if size >= CAPACITY {
        return;
      }
      stats[size] := Stat(ip, 1);
      size := size + 1;
      assert Contents() == old(Contents()) + [Stat(ip, 1)];
    }
  }

  // ----- What the list says after any sequence of calls -----

  /** The list after a sequence of calls. */
  function AfterCalls(calls: seq<int>): seq<Stat> {
    if calls == [] then [] else Add(AfterCalls(calls[..|calls| - 1]), calls[|calls| - 1])
  }

  /** The distinct addresses of the calls, in the order of their first occurrence. */
  function Firsts(calls: seq<int>): seq<int> {
    if calls == [] then [] else
    var f, ip := Firsts(calls[..|calls| - 1]), calls[|calls| - 1];
    if ip in f then f else f + [ip]
  }

  /** The addresses that get a slot: the first forty distinct ones. */
  function Admitted(calls: seq<int>): seq<int> {
    if |Firsts(calls)| <= CAPACITY then Firsts(calls) else Firsts(calls)[..CAPACITY]
  }

  /** The number of calls for `ip`. */
  function Occurrences(calls: seq<int>, ip: int): nat {
    multiset(calls)[ip]
  }

  ghost predicate Counts(list: seq<Stat>, calls: seq<int>) {
    && Sorted(list) && Distinct(list) && |list| == |Admitted(calls)|
    && (forall k :: 0 <= k < |list| ==> list[k].count == Occurrences(calls, list[k].ip))
    && (forall ip :: Has(list, ip) <==> ip in Admitted(calls))
  }

  /** Element `i` may be too big for its place; everything else is in order. */
  predicate SortedBut(list: seq<Stat>, i: nat) {
    && (forall a, b :: 0 <= a < b < |list| && a != i && b != i ==> list[a].count >= list[b].count)
    && (forall b :: i < b < |list| ==> i < |list| && list[i].count >= list[b].count)
  }

  lemma {:induction false} BubbleSorts(list: seq<Stat>, i: nat)
    requires i < |list| && SortedBut(list, i)
    ensures Sorted(BubbleUp(list, i))
    decreases i
  {
    if i > 0 && list[i - 1].count < list[i].count {
      BubbleSorts(list[i - 1 := list[i]][i := list[i - 1]], i - 1);
    } else if i > 0 {
      assert forall a :: 0 <= a < i - 1 ==> list[a].count >= list[i - 1].count;
    }
  }

  /** The elements are only moved. */
  lemma {:induction false} BubbleKeeps(list: seq<Stat>, i: nat)
    requires i < |list| && Distinct(list)
    ensures Distinct(BubbleUp(list, i)) && multiset(BubbleUp(list, i)) == multiset(list)
    decreases i
  {
    if i > 0 && list[i - 1].count < list[i].count {
      var swapped := list[i - 1 := list[i]][i := list[i - 1]];
      assert multiset(swapped) == multiset(list);
      BubbleKeeps(swapped, i - 1);
    }
  }

  lemma SameElements(a: seq<Stat>, b: seq<Stat>, ip: int)
    requires multiset(a) == multiset(b)
    ensures Has(a, ip) <==> Has(b, ip)
  {
    assert forall st :: st in a <==> st in multiset(a);
    assert forall st :: st in b <==> st in multiset(b);
    if k :| 0 <= k < |a| && a[k].ip == ip {
      assert a[k] in b;
    }
    if k :| 0 <= k < |b| && b[k].ip == ip {
      assert b[k] in a;
    }
  }

  lemma OccurrencesStep(calls: seq<int>, ip: int, j: int)
    ensures Occurrences(calls + [ip], j) == Occurrences(calls, j) + if j == ip then 1 else 0
  {
  }

  lemma {:induction false} FirstsAreTheCalls(calls: seq<int>, ip: int)
    ensures ip in Firsts(calls) <==> Occurrences(calls, ip) > 0
  {
    if calls != [] {
      var rest := calls[..|calls| - 1];
      assert calls == rest + [calls[|calls| - 1]];
      FirstsAreTheCalls(rest, ip);
    }
  }

  lemma AdmittedStep(calls: seq<int>, ip: int)
    ensures var f := Firsts(calls);
            Admitted(calls + [ip]) == if ip in f || |f| >= CAPACITY then Admitted(calls) else Admitted(calls) + [ip]
  {
    assert (calls + [ip])[..|calls|] == calls;
  }

  /** A call for an address in the list. */
  lemma AddKnown(list: seq<Stat>, calls: seq<int>, ip: int)
    requires Counts(list, calls) && Has(list, ip)
    ensures Counts(Add(list, ip), calls + [ip])
  {
    hide Occurrences, Admitted, Firsts, BubbleUp;
    var i := Find(list, ip, 0);
    var list' := list[i := Stat(ip, list[i].count + 1)];
    var r := BubbleUp(list', i);
    BubbleSorts(list', i);
    BubbleKeeps(list', i);
    assert Admitted(calls + [ip]) == Admitted(calls) by { KnownIsAdmitted(calls, ip); }
    forall k | 0 <= k < |r| ensures r[k].count == Occurrences(calls + [ip], r[k].ip) {
      assert r[k] in multiset(r);
      assert r[k] in list';
      OccurrencesStep(calls, ip, r[k].ip);
    }
    forall j ensures Has(r, j) <==> Has(list, j) {
      SameElements(r, list', j);
      SameIps(list, list', j);
    }
  }

  lemma KnownIsAdmitted(calls: seq<int>, ip: int)
    requires ip in Admitted(calls)
    ensures Admitted(calls + [ip]) == Admitted(calls)
  {
    AdmittedStep(calls, ip);
  }

  lemma SameIps(a: seq<Stat>, b: seq<Stat>, ip: int)
    requires |a| == |b| && forall k :: 0 <= k < |a| ==> a[k].ip == b[k].ip
    ensures Has(a, ip) <==> Has(b, ip)
  {
  }

  lemma AdmittedHaveCalls(list: seq<Stat>, calls: seq<int>, k: nat)
    requires Counts(list, calls) && k < |list|
    ensures list[k].count >= 1
  {
    assert Has(list, list[k].ip);
    FirstsAreTheCalls(calls, list[k].ip);
  }

  /** A call for a new address that finds a free slot. */
  lemma AddNew(list: seq<Stat>, calls: seq<int>, ip: int)
    requires Counts(list, calls) && !Has(list, ip) && |list| < CAPACITY
    ensures Counts(list + [Stat(ip, 1)], calls + [ip])
  {
    hide Occurrences, Admitted, Firsts;
    var r := list + [Stat(ip, 1)];
    assert Admitted(calls + [ip]) == Admitted(calls) + [ip] && Occurrences(calls, ip) == 0 by {
      NewIsAdmitted(list, calls, ip);
    }
    forall k | 0 <= k < |r| ensures r[k].count == Occurrences(calls + [ip], r[k].ip) {
      OccurrencesStep(calls, ip, r[k].ip);
    }
    forall k | 0 <= k < |list| ensures list[k].count >= 1 {
      AdmittedHaveCalls(list, calls, k);
    }
    forall j ensures Has(r, j) <==> Has(list, j) || j == ip {
      HasAppend(list, Stat(ip, 1), j);
    }
  }

  lemma NewIsAdmitted(list: seq<Stat>, calls: seq<int>, ip: int)
    requires Counts(list, calls) && !Has(list, ip) && |list| < CAPACITY
    ensures Admitted(calls + [ip]) == Admitted(calls) + [ip] && Occurrences(calls, ip) == 0
  {
    AdmittedStep(calls, ip);
    FirstsAreTheCalls(calls, ip);
  }

  lemma HasAppend(list: seq<Stat>, st: Stat, j: int)
    ensures Has(list + [st], j) <==> Has(list, j) || j == st.ip
  {
    assert (list + [st])[|list|] == st;
    if k :| 0 <= k < |list| && list[k].ip == j {
      assert (list + [st])[k].ip == j;
    }
  }

  /** A call for a new address that finds none. */
  lemma AddLost(list: seq<Stat>, calls: seq<int>, ip: int)
    requires Counts(list, calls) && !Has(list, ip) && |list| >= CAPACITY
    ensures Counts(list, calls + [ip])
  {
    AdmittedStep(calls, ip);
    forall k | 0 <= k < |list| ensures list[k].count == Occurrences(calls + [ip], list[k].ip) {
      OccurrencesStep(calls, ip, list[k].ip);
    }
  }

  /**
    * After every sequence of calls the list is sorted by falling count, holds each address once with
    * exactly the number of its calls, and holds exactly the first forty distinct addresses.
    */
  lemma {:induction false} ListCountsCalls(calls: seq<int>)
    ensures Counts(AfterCalls(calls), calls)
  {
    if calls != [] {
      var rest, ip := calls[..|calls| - 1], calls[|calls| - 1];
      assert calls == rest + [ip];
      ListCountsCalls(rest);
      if Has(AfterCalls(rest), ip) {
        AddKnown(AfterCalls(rest), rest, ip);
      } else {
        assert !(Find(AfterCalls(rest), ip, 0) < |AfterCalls(rest)|);
        if |AfterCalls(rest)| < CAPACITY {
          AddNew(AfterCalls(rest), rest, ip);
        } else {
          AddLost(AfterCalls(rest), rest, ip);
        }
      }
    }
  }

  /** A call is lost only if its address is new and forty other addresses came before it. */
  lemma LostOnlyWhenFull(calls: seq<int>, ip: int)
    requires ip in calls
    ensures Has(AfterCalls(calls), ip) <==> ip in Admitted(calls)
    ensures !Has(AfterCalls(calls), ip) ==>
              |AfterCalls(calls)| == CAPACITY < |Firsts(calls)| && ip in Firsts(calls)[CAPACITY..]
  {
    ListCountsCalls(calls);
    FirstsAreTheCalls(calls, ip);
    var f := Firsts(calls);
    if ip !in Admitted(calls) {
      var k :| 0 <= k < |f| && f[k] == ip;
      assert f == f[..CAPACITY] + f[CAPACITY..];
    }
  }

  // ----- Ties -----

  /** When an address was last called; -1 if never. */
  function LastCall(calls: seq<int>, ip: int): (r: int)
    ensures -1 <= r < |calls|
  {
    if calls == [] then -1
    else if calls[|calls| - 1] == ip then |calls| - 1
    else LastCall(calls[..|calls| - 1], ip)
  }

  lemma LastCallStep(calls: seq<int>, ip: int, j: int)
    ensures LastCall(calls + [ip], j) == if j == ip then |calls| else LastCall(calls, j)
  {
    assert (calls + [ip])[..|calls|] == calls;
  }

  /** Of two addresses with the same count, the one that reached it first stands first. */
  ghost predicate TiesInOrder(list: seq<Stat>, calls: seq<int>) {
    forall a, b :: 0 <= a < b < |list| && list[a].count == list[b].count ==>
      LastCall(calls, list[a].ip) < LastCall(calls, list[b].ip)
  }

  /** Where element `k` of `r` was before element `i` moved forward to `p`. */
  function Was(i: nat, p: nat, k: nat): nat {
    if p < k <= i then k - 1 else if k == p then i else k
  }

  ghost predicate Moved(list: seq<Stat>, r: seq<Stat>, i: nat, p: nat) {
    p <= i < |list| && |r| == |list| && forall k :: 0 <= k < |list| ==> r[k] == list[Was(i, p, k)]
  }

  /** The element moves to the first place behind all that are not smaller; the others keep their order. */
  lemma {:induction false} BubbleMoves(list: seq<Stat>, i: nat) returns (p: nat)
    requires i < |list|
    ensures Moved(list, BubbleUp(list, i), i, p)
    ensures forall k :: p <= k < i ==> list[k].count < list[i].count
    ensures p > 0 ==> list[p - 1].count >= list[i].count
    decreases i
  {
    if i > 0 && list[i - 1].count < list[i].count {
      var swapped := list[i - 1 := list[i]][i := list[i - 1]];
      p := BubbleMoves(swapped, i - 1);
      var r := BubbleUp(swapped, i - 1);
      assert forall k :: 0 <= k < i - 1 ==> swapped[k] == list[k];
      forall k | 0 <= k < |list| ensures r[k] == list[Was(i, p, k)] {
        assert r[k] == swapped[Was(i - 1, p, k)];
      }
    } else {
      p := i;
    }
  }

  lemma TiesAfterKnown(list: seq<Stat>, calls: seq<int>, ip: int)
    requires Sorted(list) && Distinct(list) && TiesInOrder(list, calls) && Find(list, ip, 0) < |list|
    ensures TiesInOrder(Add(list, ip), calls + [ip])
  {
    hide BubbleUp, LastCall, Find;
    var i := Find(list, ip, 0);
    var up := list[i := Stat(ip, list[i].count + 1)];
    var p := BubbleMoves(up, i);
    var r := BubbleUp(up, i);
    forall a, b | 0 <= a < b < |r| && r[a].count == r[b].count
      ensures LastCall(calls + [ip], r[a].ip) < LastCall(calls + [ip], r[b].ip)
    {
      LastCallStep(calls, ip, r[a].ip);
      LastCallStep(calls, ip, r[b].ip);
      assert r[a] == up[Was(i, p, a)] && r[b] == up[Was(i, p, b)];
      if a != p && b != p {
        assert Was(i, p, a) < Was(i, p, b);
      }
    }
  }

  lemma TiesAfterNew(list: seq<Stat>, calls: seq<int>, ip: int)
    requires TiesInOrder(list, calls) && !Has(list, ip)
    ensures TiesInOrder(list + [Stat(ip, 1)], calls + [ip]) && TiesInOrder(list, calls + [ip])
  {
    hide LastCall;
    forall k | 0 <= k < |list| ensures LastCall(calls + [ip], list[k].ip) == LastCall(calls, list[k].ip) < |calls| {
      LastCallStep(calls, ip, list[k].ip);
    }
    LastCallStep(calls, ip, ip);
  }

  /** After every sequence of calls, addresses with equal counts stand in the order of their last calls. */
  lemma {:induction false} TiesByArrival(calls: seq<int>)
    ensures TiesInOrder(AfterCalls(calls), calls)
  {
    hide LastCall;
    if calls != [] {
      var rest, ip := calls[..|calls| - 1], calls[|calls| - 1];
      assert calls == rest + [ip];
      TiesByArrival(rest);
      ListCountsCalls(rest);
      var list := AfterCalls(rest);
      if Find(list, ip, 0) < |list| {
        TiesAfterKnown(list, rest, ip);
      } else {
        TiesAfterNew(list, rest, ip);
      }
    }
  }
}
