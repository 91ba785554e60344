/** Decimal and hexadecimal text, as produced by `std::to_chars`, `str(int)` and `oxenc::to_hex`. */
module Decimal {
  import opened Common

  type Bytes = seq<byte>

  const MINUS: byte := 0x2D
  const COMMA: byte := 0x2C

  predicate IsDigit(b: byte) {
    0x30 <= b <= 0x39
  }

  predicate AllDigits(b: Bytes) {
    forall i :: 0 <= i < |b| ==> IsDigit(b[i])
  }

  /** The number that a run of digits denotes (leading zeros allowed). */
  function Value(digits: Bytes): (n: nat)
    requires AllDigits(digits)
  {
    if digits == [] then 0
    else Value(digits[..|digits| - 1]) * 10 + (digits[|digits| - 1] - 0x30) as int
  }

  /** Shortest decimal form of a natural number. */
  function Dec(n: nat): (s: Bytes)
    ensures |s| >= 1 && AllDigits(s) && Value(s) == n
  {
    if n < 10 then
      [0x30 + n as byte]
    else
      var front := Dec(n / 10);
      var s := front + [0x30 + (n % 10) as byte];
      assert s[..|s| - 1] == front;
      s
  }

  function DecInt(i: int): (s: Bytes)
    ensures s != [] && COMMA !in s
  {
    if i < 0 then [MINUS] + Dec(-i) else Dec(i)
  }

  lemma DecIntInjective(a: int, b: int)
    requires DecInt(a) == DecInt(b)
    ensures a == b
  {
    assert a < 0 <==> DecInt(a)[0] == MINUS;
    assert b < 0 <==> DecInt(b)[0] == MINUS;
    if a < 0 {
      assert DecInt(a)[1..] == Dec(-a);
      assert DecInt(b)[1..] == Dec(-b);
    }
  }

  function Pow10(k: nat): nat {
    if k == 0 then 1 else 10 * Pow10(k - 1)
  }

  /** The width of a decimal is fixed by the powers of ten around it. */
  lemma {:induction false} DecWidth(n: nat, k: nat)
    requires k >= 1
    ensures |Dec(n)| <= k <==> n < Pow10(k)
    decreases n
  {
    if n < 10 {
      Pow10AtLeast(k);
    } else if k == 1 {
      assert Pow10(1) == 10 * Pow10(0);
    } else {
      DecWidth(n / 10, k - 1);
      assert Pow10(k) == 10 * Pow10(k - 1);
    }
  }

  lemma {:induction false} Pow10AtLeast(k: nat)
    requires k >= 1
    ensures Pow10(k) >= 10
  {
    if k > 1 { Pow10AtLeast(k - 1); }
  }

  function HexDigit(v: int): (b: byte)
    requires 0 <= v < 16
  {
    if v < 10 then 0x30 + v as byte else 0x57 + v as byte
  }

  /** Lower-case hexadecimal. */
  function Hex(b: Bytes): (s: Bytes)
    ensures |s| == 2 * |b|
  {
    if b == [] then [] else [HexDigit(b[0] as int / 16), HexDigit(b[0] as int % 16)] + Hex(b[1..])
  }

  /** The value of a lower-case hexadecimal digit. */
  function HexValue(c: byte): int {
    if c <= 0x39 then c as int - 0x30 else c as int - 0x61 + 10
  }

  predicate IsHexDigit(c: byte) {
    0x30 <= c <= 0x39 || 0x61 <= c <= 0x66
  }

  /** Each byte is written as two digits, the high one first. */
  lemma {:induction false} HexAt(b: Bytes, i: nat)
    requires i < |b|
    ensures IsHexDigit(Hex(b)[2 * i]) && IsHexDigit(Hex(b)[2 * i + 1])
    ensures HexValue(Hex(b)[2 * i]) * 16 + HexValue(Hex(b)[2 * i + 1]) == b[i] as int
  {
    if i > 0 {
      HexAt(b[1..], i - 1);
      assert Hex(b)[2..] == Hex(b[1..]);
      assert Hex(b)[2 * i] == Hex(b[1..])[2 * (i - 1)] && Hex(b)[2 * i + 1] == Hex(b[1..])[2 * (i - 1) + 1];
    }
  }

  lemma {:induction false} HexInjective(a: Bytes, b: Bytes)
    requires Hex(a) == Hex(b)
    ensures a == b
  {
    if a != [] && b != [] {
      assert Hex(a)[..2] == [HexDigit(a[0] as int / 16), HexDigit(a[0] as int % 16)];
      assert Hex(b)[..2] == [HexDigit(b[0] as int / 16), HexDigit(b[0] as int % 16)];
      assert Hex(a)[2..] == Hex(a[1..]) && Hex(b)[2..] == Hex(b[1..]);
      assert Hex(a)[0] == Hex(b)[0] && Hex(a)[1] == Hex(b)[1];
      HexInjective(a[1..], b[1..]);
      assert a == [a[0]] + a[1..] && b == [b[0]] + b[1..];
    }
  }
}
