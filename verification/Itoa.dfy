/** Numbers to text, in any base from 2 to 36. */
module Itoa {

  const MIN_LONG_LONG := -0x8000_0000_0000_0000

  /** What the conversion can handle: a negative number has a sign only in base 10. */
  predicate Convertible(num: int, base: int) {
    2 <= base <= 36 && MIN_LONG_LONG < num < -MIN_LONG_LONG && (num >= 0 || base == 10)
  }

  function Digit(v: int): char
    requires 0 <= v < 36
  {
    if v > 9 then 'a' + (v - 10) as char else '0' + v as char
  }

  predicate IsDigit(c: char, base: int) {
    ('0' <= c <= '9' && c as int - '0' as int < base) || ('a' <= c <= 'z' && c as int - 'a' as int + 10 < base)
  }

  function DigitValue(c: char): int {
    if c <= '9' then c as int - '0' as int else c as int - 'a' as int + 10
  }

  lemma DigitRoundTrip(v: int, base: int)
    requires 0 <= v < base <= 36
    ensures IsDigit(Digit(v), base) && DigitValue(Digit(v)) == v && (Digit(v) == '0' <==> v == 0) && Digit(v) != '-'
  {
  }

  lemma ValueRoundTrip(c: char, base: int)
    requires IsDigit(c, base) && base <= 36
    ensures 0 <= DigitValue(c) < base && Digit(DigitValue(c)) == c
  {
  }

  /** The digits of a number, most significant first; none for zero. */
  function Numeral(n: nat, base: int): string
    requires 2 <= base <= 36
  {
    if n == 0 then "" else
    assert n / base < n by { Smaller(n, base); }
    Numeral(n / base, base) + [Digit(n % base)]
  }

  lemma Smaller(n: nat, base: int)
    requires n > 0 && base >= 2
    ensures 0 <= n / base < n
  {
    var q := n / base;
    assert n == q * base + n % base;
    if q >= n {
      assert q * base >= n * base by { Times(n, q, base); }
      assert n * base >= n * 2 by { Times(2, base, n); }
      assert false;
    }
  }

  lemma Times(a: int, b: int, c: nat)
    requires a <= b
    ensures a * c <= b * c && c * a <= c * b
  {
  }

  function Text(num: int, base: int): string
    requires Convertible(num, base)
  {
    if num == 0 then "0" else if num < 0 then "-" + Numeral(-num, base) else Numeral(num, base)
  }

  // ----- Reading a number back -----

  predicate AllDigits(s: string, base: int) {
    forall k :: 0 <= k < |s| ==> IsDigit(s[k], base)
  }

  /** The value of a string of digits. */
  function Value(s: string, base: int): (r: int)
    requires AllDigits(s, base) && 2 <= base <= 36
    ensures r >= 0
  {
    if s == "" then 0 else
    ValueRoundTrip(s[|s| - 1], base);
    var v := Value(s[..|s| - 1], base);
    assert v * base >= 0;
    v * base + DigitValue(s[|s| - 1])
  }

  predicate NoLeadingZero(s: string, base: int) {
    s != "" && AllDigits(s, base) && s[0] != '0'
  }

  /** The proper spelling of a number: no leading zeros, and a sign only before a number that is not zero. */
  predicate Canonical(s: string, base: int) {
    || s == "0"
    || NoLeadingZero(s, base)
    || (base == 10 && s != "" && s[0] == '-' && NoLeadingZero(s[1..], base))
  }

  function Parse(s: string, base: int): int
    requires Canonical(s, base) && 2 <= base <= 36
  {
    if s[0] == '-' then -Value(s[1..], base) else Value(s, base)
  }

  // ----- There and back -----

  /** A numeral is the numeral of the quotient and one more digit. */
  lemma LastDigit(n: nat, base: int) returns (q: nat, d: int)
    requires 2 <= base <= 36 && n > 0
    ensures q < n && 0 <= d < base && n == q * base + d && Numeral(n, base) == Numeral(q, base) + [Digit(d)]
  {
    Smaller(n, base);
    q, d := n / base, n % base;
  }

  lemma ValueAppend(s: string, d: int, base: int)
    requires 2 <= base <= 36 && AllDigits(s, base) && 0 <= d < base
    ensures AllDigits(s + [Digit(d)], base) && Value(s + [Digit(d)], base) == Value(s, base) * base + d
  {
    DigitRoundTrip(d, base);
    assert (s + [Digit(d)])[..|s|] == s;
  }

  lemma {:induction false} NumeralRoundTrip(n: nat, base: int)
    requires 2 <= base <= 36
    ensures AllDigits(Numeral(n, base), base) && Value(Numeral(n, base), base) == n
    ensures n > 0 ==> NoLeadingZero(Numeral(n, base), base) && Numeral(n, base)[0] != '-'
  {
    hide Digit, DigitValue, IsDigit;
    if n > 0 {
      var q, d := LastDigit(n, base);
      hide Numeral;
      NumeralRoundTrip(q, base);
      DigitRoundTrip(d, base);
      ValueAppend(Numeral(q, base), d, base);
      assert q == 0 ==> d != 0;
      assert q == 0 ==> Numeral(q, base) == "" by { NumeralOfZero(base); }
    }
  }

  lemma NumeralOfZero(base: int)
    requires 2 <= base <= 36
    ensures Numeral(0, base) == ""
  {
  }

  lemma Divides(q: nat, base: int, v: int)
    requires 0 <= v < base
    ensures (q * base + v) / base == q && (q * base + v) % base == v
  {
    var n := q * base + v;
    var d := n / base - q;
    assert n == (n / base) * base + n % base;
    assert d * base == v - n % base;
    if d >= 1 {
      Times(1, d, base);
      assert false;
    } else if d <= -1 {
      Times(d, -1, base);
      assert false;
    }
  }

  lemma {:induction false} ValueRoundTrips(s: string, base: int)
    requires NoLeadingZero(s, base) && 2 <= base <= 36
    ensures Value(s, base) > 0 && Numeral(Value(s, base), base) == s
  {
    var n := |s| - 1;
    var rest := s[..n];
    var q, v := Value(rest, base), DigitValue(s[n]);
    ValueRoundTrip(s[n], base);
    if rest == "" {
      assert q == 0;
      DigitRoundTrip(v, base);
    } else {
      ValueRoundTrips(rest, base);
      Times(1, q, base);
    }
    Divides(q, base, v);
    assert Numeral(Value(s, base), base) == Numeral(q, base) + [Digit(v)];
  }

  /** The text of a number is a proper spelling of it. */
  lemma TextThenParse(num: int, base: int)
    requires Convertible(num, base)
    ensures Canonical(Text(num, base), base) && Parse(Text(num, base), base) == num
  {
    var t := Text(num, base);
    if num < 0 {
      NumeralRoundTrip(-num, base);
      assert t[1..] == Numeral(-num, base);
    } else {
      NumeralRoundTrip(num, base);
    }
  }

  /** And it is the only one. */
  lemma ParseThenText(s: string, base: int)
    requires 2 <= base <= 36 && Canonical(s, base) && Convertible(Parse(s, base), base)
    ensures Text(Parse(s, base), base) == s
  {
    if s[0] == '-' {
      ValueRoundTrips(s[1..], base);
      assert s == "-" + s[1..];
    } else if s != "0" {
      ValueRoundTrips(s, base);
    } else {
      assert s[..|s| - 1] == "";
      assert Value(s, base) == 0;
    }
  }

  // ----- The conversion itself -----

  function Reversed(s: string): (r: string)
    ensures |r| == |s|
  {
    seq(|s|, k requires 0 <= k < |s| => s[|s| - 1 - k])
  }

  lemma ReversedAppend(s: string, c: char)
    ensures Reversed(s + [c]) == [c] + Reversed(s)
  {
  }

  /** Reverses the first `length` characters in place. */
  method ReverseStr(str: array<char>, length: nat)
    requires length <= str.Length
    modifies str
    ensures str[..length] == Reversed(old(str[..length])) && str[length..] == old(str[length..])
  {
    var start, end := 0, length - 1;
    while start < end
      invariant 0 <= start && start + end == length - 1 && start <= end + 1
      invariant forall k :: 0 <= k < start || end < k < length ==> str[k] == old(str[length - 1 - k])
      invariant forall k :: start <= k <= end || length <= k < str.Length ==> str[k] == old(str[k])
    {
      str[start], str[end] := str[end], str[start];
      start, end := start + 1, end - 1;
    }
  }

  /** One more digit, written least significant first. */
  lemma OneMoreDigit(n: nat, base: int, done: string)
    requires 2 <= base <= 36 && n > 0
    ensures 0 <= n / base < n && 0 <= n % base < base
    ensures |Numeral(n, base)| == |Numeral(n / base, base)| + 1
    ensures Numeral(n / base, base) + Reversed(done + [Digit(n % base)]) == Numeral(n, base) + Reversed(done)
  {
    Smaller(n, base);
    ReversedAppend(done, Digit(n % base));
  }

  /** The digit loop: writes the digits of a number backwards from the start of the buffer. */
  method WriteDigits(start: nat, str: array<char>, base: int) returns (i: nat)
    requires 2 <= base <= 36 && |Numeral(start, base)| < str.Length
    modifies str
    ensures i == |Numeral(start, base)| && Reversed(str[..i]) == Numeral(start, base) && str[i..] == old(str[i..])
  {
    hide Numeral;
    var num: nat := start;
    i := 0;
    assert Reversed(str[..0]) == "";
    while num != 0
      invariant i + |Numeral(num, base)| == |Numeral(start, base)|
      invariant Numeral(num, base) + Reversed(str[..i]) == Numeral(start, base)
      invariant forall k :: i <= k < str.Length ==> str[k] == old(str[k])
      decreases num
    {
      ghost var done := str[..i];
      OneMoreDigit(num, base, done);
      var rem := num % base;
      str[i] := if rem > 9 then (rem - 10) as char + 'a' else rem as char + '0';
      i := i + 1;
      num := num / base;
      assert str[..i] == done + [Digit(rem)];
    }
    NumeralOfZero(base);
  }

  /** The end of the conversion: the sign, the terminating zero, and the reversal of `n` digits. */
  method Finish(str: array<char>, n: nat, isNegative: bool) returns (i: nat)
    requires n + (if isNegative then 1 else 0) < str.Length
    modifies str
    ensures i < str.Length && str[..i] == (if isNegative then "-" else "") + Reversed(old(str[..n]))
    ensures str[i] == '\0' && str[i + 1..] == old(str[i + 1..])
  {
    hide Reversed;
    i := n;
    if isNegative {
      str[i] := '-';
      i := i + 1;
    }
    str[i] := '\0';
    assert str[..i] == old(str[..n]) + if isNegative then "-" else "";
    ghost var rest := str[i..];
    assert rest == ['\0'] + old(str[i + 1..]);
    ReverseStr(str, i);
    ReversedAppend(old(str[..n]), '-');
    assert old(str[..n]) + "" == old(str[..n]);
    assert str[i] == rest[0] && str[i + 1..] == rest[1..];
  }

  /** Writes the text of `num0` and a terminating zero into the buffer. */
  method Itoa(num0: int, str: array<char>, base: int)
    requires Convertible(num0, base) && |Text(num0, base)| < str.Length
    modifies str
    ensures var n := |Text(num0, base)|;
            str[..n] == Text(num0, base) && str[n] == '\0' && str[n + 1..] == old(str[n + 1..])
  {
    hide Numeral, Reversed;
    var num, i, isNegative := num0, 0, false;
    if num == 0 {
      str[0] := '0';
      str[1] := '\0';
      return;
    }
    if num < 0 && base == 10 {
      isNegative := true;
      num := -num;
    }
    i := WriteDigits(num, str, base);
    ghost var rest := str[i..];
    i := Finish(str, i, isNegative);
    assert str[i + 1..] == old(str[i + 1..]);
  }
}
