/** The write log where it really is: two arrays of words in the same memory that it protects. */
module LogArrays {
  import opened Bytes
  import opened UndoLog
  import opened Runtime

  /** Aligned, disjoint arrays inside memory, and addresses that fit a word. */
  predicate Placed(c: Setup, m: Mem) {
    && c.addrs % 8 == 0 && 0 <= c.addrs && c.addrs + ARRAY_BYTES <= |m|
    && c.data % 8 == 0 && 0 <= c.data && c.data + ARRAY_BYTES <= |m|
    && (c.addrs + ARRAY_BYTES <= c.data || c.data + ARRAY_BYTES <= c.addrs)
    && |m| <= WORD_LIMIT
  }

  function AddrAt(c: Setup, m: Mem, k: nat): int
    requires Placed(c, m) && k < SLOTS
  {
    Decode(ReadWord(m, c.addrs + 8 * k))
  }

  function EntryAt(c: Setup, m: Mem, k: nat): Entry
    requires Placed(c, m) && k < SLOTS
  {
    Entry(AddrAt(c, m, k), ReadWord(m, c.data + 8 * k))
  }

  lemma SlotInRange(c: Setup, m: Mem, k: nat)
    requires Placed(c, m) && k < SLOTS
    ensures InRange(m, c.addrs + 8 * k, 8) && InRange(m, c.data + 8 * k, 8)
  {
  }

  /** The first `n` entries, as a sequence. */
  function Entries(c: Setup, m: Mem, n: nat): (log: seq<Entry>)
    requires Placed(c, m) && n <= SLOTS
    ensures |log| == n
  {
    seq(n, k requires 0 <= k < n => EntryAt(c, m, k))
  }

  /** The memory of the program: all of it but the arrays. */
  function Mask(c: Setup, m: Mem): (r: Mem)
    ensures |r| == |m|
    ensures forall i :: 0 <= i < |m| ==> r[i] == if InArrays(c, i) then 0 else m[i]
  {
    seq(|m|, i requires 0 <= i < |m| => if InArrays(c, i) then 0 else m[i])
  }

  /** A range that shares no byte with the arrays. */
  predicate Clear(c: Setup, a: int, n: int) {
    && (a + n <= c.addrs || c.addrs + ARRAY_BYTES <= a)
    && (a + n <= c.data || c.data + ARRAY_BYTES <= a)
  }

  /** Every entry is an aligned word of memory outside the arrays. */
  predicate EntriesClear(c: Setup, m: Mem, log: seq<Entry>) {
    forall k :: 0 <= k < |log| ==> InRange(m, log[k].addr, 8) && log[k].addr % 8 == 0 && Clear(c, log[k].addr, 8)
  }

  /** An aligned word passes the test made when it is logged exactly if it is clear of the aligned arrays. */
  lemma AlignedIsClear(c: Setup, m: Mem, a: int)
    requires Placed(c, m) && a % 8 == 0
    ensures Clear(c, a, 8) <==> !InArrays(c, a)
  {
  }

  lemma ReadClear(c: Setup, m: Mem, a: int)
    requires InRange(m, a, 8) && Clear(c, a, 8)
    ensures ReadWord(Mask(c, m), a) == ReadWord(m, a)
  {
  }

  lemma SliceClear(c: Setup, m: Mem, a: int, n: int)
    requires InRange(m, a, n) && Clear(c, a, n)
    ensures Mask(c, m)[a..a + n] == m[a..a + n]
  {
  }

  lemma ReadApart(m: Mem, a: int, bytes: seq<Byte>, b: int)
    requires InRange(m, a, |bytes|) && InRange(m, b, 8) && (a + |bytes| <= b || b + 8 <= a)
    ensures ReadWord(Write(m, a, bytes), b) == ReadWord(m, b)
  {
  }

  lemma ReadBack(m: Mem, a: int, w: Word)
    requires InRange(m, a, 8)
    ensures ReadWord(Write(m, a, w), a) == w
  {
  }

  /** A write clear of the arrays is a write to the memory of the program, and keeps the log. */
  lemma WriteClear(c: Setup, m: Mem, a: int, bytes: seq<Byte>, n: nat)
    requires Placed(c, m) && InRange(m, a, |bytes|) && Clear(c, a, |bytes|) && n <= SLOTS
    ensures Placed(c, Write(m, a, bytes))
    ensures Mask(c, Write(m, a, bytes)) == Write(Mask(c, m), a, bytes)
    ensures Entries(c, Write(m, a, bytes), n) == Entries(c, m, n)
  {
    var m' := Write(m, a, bytes);
    forall k | 0 <= k < n ensures EntryAt(c, m', k) == EntryAt(c, m, k) {
      ReadApart(m, a, bytes, c.addrs + 8 * k);
      ReadApart(m, a, bytes, c.data + 8 * k);
    }
  }

  /** Memory with slot `n` filled. */
  function Filled(c: Setup, m: Mem, n: nat, a: int, w: Word): (r: Mem)
    requires Placed(c, m) && n < SLOTS
    ensures Placed(c, r) && |r| == |m|
  {
    Write(Write(m, c.addrs + 8 * n, Encode(a)), c.data + 8 * n, w)
  }

  lemma FilledEntry(c: Setup, m: Mem, n: nat, a: int, w: Word, k: nat)
    requires Placed(c, m) && k <= n < SLOTS && 0 <= a < WORD_LIMIT
    ensures EntryAt(c, Filled(c, m, n, a, w), k) == if k == n then Entry(a, w) else EntryAt(c, m, k)
  {
    hide Write, ReadWord, Encode, Decode;
    var m1 := Write(m, c.addrs + 8 * n, Encode(a));
    ReadApart(m1, c.data + 8 * n, w, c.addrs + 8 * k);
    if k == n {
      ReadBack(m, c.addrs + 8 * n, Encode(a));
      ReadBack(m1, c.data + 8 * n, w);
      DecodeEncode(a);
    } else {
      ReadApart(m1, c.data + 8 * n, w, c.data + 8 * k);
      ReadApart(m, c.addrs + 8 * n, Encode(a), c.addrs + 8 * k);
      ReadApart(m, c.addrs + 8 * n, Encode(a), c.data + 8 * k);
    }
  }

  /** Filling slot `n` appends an entry and leaves the memory of the program alone. */
  lemma FillSlot(c: Setup, m: Mem, n: nat, a: int, w: Word)
    requires Placed(c, m) && n < SLOTS && 0 <= a < WORD_LIMIT
    ensures Mask(c, Filled(c, m, n, a, w)) == Mask(c, m)
    ensures Entries(c, Filled(c, m, n, a, w), n + 1) == Entries(c, m, n) + [Entry(a, w)]
  {
    hide Encode, EntryAt;
    var m' := Filled(c, m, n, a, w);
    forall k | 0 <= k <= n ensures EntryAt(c, m', k) == if k == n then Entry(a, w) else EntryAt(c, m, k) {
      FilledEntry(c, m, n, a, w, k);
    }
    assert Entries(c, m', n + 1) == Entries(c, m, n) + [Entry(a, w)];
    assert Mask(c, m') == Mask(c, m);
  }

  /** Memory with the newest of `n` entries written back. */
  function Popped(c: Setup, m: Mem, n: nat, w: Window): (r: Mem)
    requires Placed(c, m) && 0 < n <= SLOTS && InRange(m, AddrAt(c, m, n - 1), 8)
    ensures |r| == |m| && Placed(c, r)
  {
    RestoreEntry(m, EntryAt(c, m, n - 1), w)
  }

  /** Writing the newest entry back happens in the memory of the program and keeps the older entries. */
  lemma PopSlot(c: Setup, m: Mem, n: nat, w: Window)
    requires Placed(c, m) && 0 < n <= SLOTS && EntriesClear(c, m, Entries(c, m, n))
    ensures var e := Entries(c, m, n)[n - 1];
            && e == EntryAt(c, m, n - 1) && InRange(m, e.addr, 8)
            && Mask(c, Popped(c, m, n, w)) == RestoreEntry(Mask(c, m), e, w)
            && Entries(c, Popped(c, m, n, w), n - 1) == Entries(c, m, n)[..n - 1]
            && EntriesClear(c, Popped(c, m, n, w), Entries(c, m, n)[..n - 1])
  {
    hide EntryAt, Write;
    var e := Entries(c, m, n)[n - 1];
    assert Entries(c, m, n - 1) == Entries(c, m, n)[..n - 1];
    if !w.Skips(e.addr) {
      WriteClear(c, m, e.addr, e.data, n - 1);
    }
  }
}
