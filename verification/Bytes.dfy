/** Byte-addressed memory and the eight-byte words that the undo log works in. */
module Bytes {

  type Byte = b: int | 0 <= b < 256

  /** The addressable memory; the index of a byte is its address. */
  type Mem = seq<Byte>

  /** An eight-byte word, least significant byte first. */
  type Word = w: seq<Byte> | |w| == 8 witness [0, 0, 0, 0, 0, 0, 0, 0]

  const WORD_LIMIT := 0x1_0000_0000_0000_0000

  /** The address of the aligned word that holds byte `a`. */
  function Align(a: int): int {
    a - a % 8
  }

  predicate InRange(m: Mem, a: int, n: int) {
    0 <= a && 0 <= n && a + n <= |m|
  }

  predicate Within(i: int, p: int, n: int) {
    p <= i < p + n
  }

  /** Whether [p1, p1 + s1) and [p2, p2 + s2) share a byte, as kspecem_overlaps decides it. */
  predicate Overlaps(p1: int, s1: int, p2: int, s2: int) {
    (p1 <= p2 && p1 + s1 > p2) || (p2 <= p1 && p2 + s2 > p1)
  }

  function ReadWord(m: Mem, a: int): Word
    requires InRange(m, a, 8)
  {
    m[a..a + 8]
  }

  function Write(m: Mem, a: int, bytes: seq<Byte>): (r: Mem)
    requires InRange(m, a, |bytes|)
    ensures |r| == |m|
    ensures forall i :: 0 <= i < |m| ==> r[i] == if a <= i < a + |bytes| then bytes[i - a] else m[i]
  {
    m[..a] + bytes + m[a + |bytes|..]
  }

  lemma WriteBack(m: Mem, a: int)
    requires InRange(m, a, 8)
    ensures Write(m, a, ReadWord(m, a)) == m
  {
  }

  /** For non-empty ranges the overlap test is exactly "some byte in common". */
  lemma OverlapsMeansSharedByte(p1: int, s1: int, p2: int, s2: int)
    requires s1 > 0 && s2 > 0
    ensures Overlaps(p1, s1, p2, s2) <==> exists i :: Within(i, p1, s1) && Within(i, p2, s2)
  {
    if Overlaps(p1, s1, p2, s2) {
      var i := if p1 <= p2 then p2 else p1;
      assert Within(i, p1, s1) && Within(i, p2, s2);
    }
  }

  // ----- A pointer stored in memory -----

  function EncodeN(v: int, n: nat): (bytes: seq<Byte>)
    ensures |bytes| == n
    decreases n
  {
    if n == 0 then [] else [v % 256] + EncodeN(v / 256, n - 1)
  }

  function Decode(bytes: seq<Byte>): int {
    if bytes == [] then 0 else bytes[0] + 256 * Decode(bytes[1..])
  }

  function Pow256(n: nat): int {
    if n == 0 then 1 else 256 * Pow256(n - 1)
  }

  lemma {:induction false} DecodeEncodeN(v: int, n: nat)
    requires 0 <= v < Pow256(n)
    ensures Decode(EncodeN(v, n)) == v
    decreases n
  {
    if n > 0 {
      DecodeEncodeN(v / 256, n - 1);
      assert EncodeN(v, n)[1..] == EncodeN(v / 256, n - 1);
    }
  }

  function Encode(v: int): Word {
    EncodeN(v, 8)
  }

  lemma {:induction false} DecodeNBound(bytes: seq<Byte>)
    ensures 0 <= Decode(bytes) < Pow256(|bytes|)
  {
    if bytes != [] {
      DecodeNBound(bytes[1..]);
    }
  }

  lemma WordLimit()
    ensures Pow256(8) == WORD_LIMIT
  {
    assert Pow256(2) == 0x1_0000;
    assert Pow256(4) == 0x1_0000_0000;
    assert Pow256(6) == 0x1_0000_0000_0000;
  }

  lemma DecodeBound(word: Word)
    ensures 0 <= Decode(word) < WORD_LIMIT
  {
    DecodeNBound(word);
    WordLimit();
  }

  lemma DecodeEncode(v: int)
    requires 0 <= v < WORD_LIMIT
    ensures Decode(Encode(v)) == v
  {
    WordLimit();
    DecodeEncodeN(v, 8);
  }
}
