/** Decimal notation, and the numbers std::stoi reads. */
module Decimals {
  import opened Lexing
  import opened Options
  import opened Tokens
  import opened GeneratorSpec

  function Digit(d: nat): char
    requires d < 10
  {
    "0123456789"[d]
  }

  /** A number without leading zeros. */
  function Decimal(n: nat): (s: string)
    ensures s != ""
  {
    if n < 10 then [Digit(n)] else Decimal(n / 10) + [Digit(n % 10)]
  }

  function Zeros(z: nat): (s: string)
    ensures |s| == z && forall k :: 0 <= k < z ==> s[k] == '0'
  {
    seq(z, _ => '0')
  }

  predicate Digits(s: string) { forall k :: 0 <= k < |s| ==> IsDigit(s[k]) }

  lemma DigitMeans(d: nat)
    requires d < 10
    ensures IsDigit(Digit(d)) && Digit(d) as int - '0' as int == d
  {
  }

  lemma Append(s: string, ch: char)
    requires Digits(s) && IsDigit(ch)
    ensures Digits(s + [ch]) && Value(s + [ch]) == Value(s) * 10 + (ch as int - '0' as int)
  {
    assert (s + [ch])[..|s|] == s;
  }

  lemma {:induction false} ZerosAreZero(z: nat)
    ensures Digits(Zeros(z)) && Value(Zeros(z)) == 0
  {
    if z != 0 {
      ZerosAreZero(z - 1);
      assert Zeros(z - 1) + ['0'] == Zeros(z);
      Append(Zeros(z - 1), '0');
    }
  }

  /** The digits of a number, with any leading zeros, have its value. */
  lemma {:induction false} ValueOfDecimal(z: nat, n: nat)
    ensures Digits(Zeros(z) + Decimal(n)) && Value(Zeros(z) + Decimal(n)) == n
    decreases n
  {
    if n < 10 {
      ZerosAreZero(z);
      DigitMeans(n);
      Append(Zeros(z), Digit(n));
    } else {
      ValueOfDecimal(z, n / 10);
      DigitMeans(n % 10);
      Append(Zeros(z) + Decimal(n / 10), Digit(n % 10));
      assert Zeros(z) + Decimal(n / 10) + [Digit(n % 10)] == Zeros(z) + Decimal(n);
    }
  }

  lemma DigitOf(ch: char) returns (d: nat)
    requires IsDigit(ch)
    ensures d < 10 && Digit(d) == ch
  {
    d := ch as int - '0' as int;
  }

  /** One more digit. */
  lemma MoreDigits(z: nat, n: nat, d: nat)
    requires d < 10
    ensures 0 < n ==> Zeros(z) + Decimal(n) + [Digit(d)] == Zeros(z) + Decimal(n * 10 + d)
    ensures n == 0 ==> Zeros(z) + Decimal(n) + [Digit(d)] == Zeros(z + 1) + Decimal(d)
  {
    if 0 < n {
      LastDigit(n, d);
      hide Zeros, Decimal, Digit;
      assert Zeros(z) + (Decimal(n) + [Digit(d)]) == Zeros(z) + Decimal(n) + [Digit(d)];
    } else {
      assert Zeros(z) + [Digit(0)] == Zeros(z + 1);
    }
  }

  lemma LastDigit(n: nat, d: nat)
    requires 0 < n && d < 10
    ensures Decimal(n * 10 + d) == Decimal(n) + [Digit(d)]
  {
    var m := n * 10 + d;
    assert m / 10 == n && m % 10 == d;
  }

  /** Every nonempty string of digits is some number with leading zeros. */
  lemma {:induction false} DigitsAreDecimal(s: string) returns (z: nat, n: nat)
    requires s != "" && Digits(s)
    ensures s == Zeros(z) + Decimal(n)
    decreases |s|
  {
    var last := |s| - 1;
    var d := DigitOf(s[last]);
    assert s == s[..last] + [s[last]];
    if last == 0 {
      z, n := 0, d;
      assert s == Zeros(0) + [Digit(d)];
    } else {
      hide Decimal;
      z, n := DigitsAreDecimal(s[..last]);
      MoreDigits(z, n, d);
      z, n := if n == 0 then z + 1 else z, if n == 0 then d else n * 10 + d;
    }
  }

  const INT_MAX: nat := 0x7fff_ffff

  /** std::stoi reads a number up to what follows its digits, ignores leading zeros, and throws if
      there is no digit or the number does not fit. */
  lemma StoiReads(z: nat, n: nat, tail: string)
    requires tail != "" ==> !IsDigit(tail[0])
    ensures Stoi(Zeros(z) + Decimal(n) + tail) == if n <= INT_MAX then Some(n) else None
    ensures Stoi(tail) == None
  {
    var digits := Zeros(z) + Decimal(n);
    ValueOfDecimal(z, n);
    hide Value, Decimal;
    SpanIs(digits + tail, 0, IsDigit, |digits|);
    assert (digits + tail)[..|digits|] == digits;
    SpanIs(tail, 0, IsDigit, 0);
  }

  /** A string it reads starts with a number that fits, up to something else than a digit. */
  lemma StoiReadsOnly(s: string) returns (z: nat, n: nat, tail: string)
    requires Stoi(s).Some?
    ensures s == Zeros(z) + Decimal(n) + tail && n <= INT_MAX && (tail != "" ==> !IsDigit(tail[0]))
    ensures Stoi(s) == Some(n)
  {
    var k := Span(s, 0, IsDigit);
    hide Value, Decimal;
    tail := s[k..];
    z, n := DigitsAreDecimal(s[..k]);
    assert s == s[..k] + s[k..];
    StoiReads(z, n, tail);
  }

  /** Some numbers as they are written. */
  lemma Samples()
    ensures Decimal(0) == "0" && Decimal(10) == "10" && Decimal(2026) == "2026"
    ensures Stoi("0") == Some(0) && Stoi("10") == Some(10)
  {
    LastDigit(1, 0);
    LastDigit(2, 0);
    LastDigit(20, 2);
    LastDigit(202, 6);
    assert Decimal(0) == "0" && Decimal(1) == "1" && Decimal(2) == "2";
    hide Decimal;
    StoiReads(0, 0, "");
    StoiReads(0, 10, "");
    hide Stoi;
    assert Zeros(0) + Decimal(0) + "" == "0" && Zeros(0) + Decimal(10) + "" == "10";
  }
}
