/** Where an account id sits on the ring: `calc_swarm_space` of spns/swarmpubkey.cpp. */
module RingPoint {
  import opened Common
  import opened SwarmSpace

  /** Exclusive or of two naturals, bit by bit. */
  function Xor(a: nat, b: nat): nat
    decreases a + b
  {
    if a == 0 then b
    else if b == 0 then a
    else 2 * Xor(a / 2, b / 2) + (a + b) % 2
  }

  function Bit(n: nat, i: nat): nat {
    if i == 0 then n % 2 else Bit(n / 2, i - 1)
  }

  function Pow2(k: nat): nat {
    if k == 0 then 1 else 2 * Pow2(k - 1)
  }

  /** Big-endian load. */
  function LoadBig(b: seq<byte>): nat {
    if b == [] then 0 else LoadBig(b[..|b| - 1]) * 256 + b[|b| - 1] as int
  }

  /** The k-th 8-byte word of a key. */
  function Word(key: seq<byte>, k: nat): nat
    requires 8 * k + 8 <= |key|
  {
    LoadBig(key[8 * k..8 * k + 8])
  }

  /** Exclusive or of the first `n` words of a key. */
  function XorWords(key: seq<byte>, n: nat): nat
    requires 8 * n <= |key|
  {
    if n == 0 then 0 else Xor(XorWords(key, n - 1), Word(key, n - 1))
  }

  lemma {:induction false} ZeroBits(i: nat)
    ensures Bit(0, i) == 0
  {
    if i > 0 { ZeroBits(i - 1); }
  }

  lemma XorHalves(a: nat, b: nat)
    requires a != 0 && b != 0
    ensures Xor(a, b) / 2 == Xor(a / 2, b / 2) && Xor(a, b) % 2 == (a + b) % 2
  {
  }

  lemma ParityOfSum(a: nat, b: nat)
    ensures (a + b) % 2 == (a % 2 + b % 2) % 2
  {
  }

  lemma BitOfHalf(n: nat, i: nat)
    requires i > 0
    ensures Bit(n, i) == Bit(n / 2, i - 1)
  {
  }

  lemma XorWithZero(n: nat, i: nat)
    ensures Bit(n, i) == (Bit(0, i) + Bit(n, i)) % 2
  {
    ZeroBits(i);
    BitIsBit(n, i);
  }

  lemma {:induction false} XorBits(a: nat, b: nat, i: nat)
    ensures Bit(Xor(a, b), i) == (Bit(a, i) + Bit(b, i)) % 2
    decreases i
  {
    if a == 0 {
      XorWithZero(b, i);
    } else if b == 0 {
      XorWithZero(a, i);
    } else {
      XorHalves(a, b);
      if i == 0 {
        ParityOfSum(a, b);
      } else {
        XorBits(a / 2, b / 2, i - 1);
        BitOfHalf(Xor(a, b), i);
        BitOfHalf(a, i);
        BitOfHalf(b, i);
      }
    }
  }

  lemma {:induction false} BitIsBit(n: nat, i: nat)
    ensures Bit(n, i) < 2
  {
    if i > 0 { BitIsBit(n / 2, i - 1); }
  }

  lemma {:induction false} XorBound(a: nat, b: nat, k: nat)
    requires a < Pow2(k) && b < Pow2(k)
    ensures Xor(a, b) < Pow2(k)
  {
    if a != 0 && b != 0 {
      XorBound(a / 2, b / 2, k - 1);
    }
  }

  lemma {:induction false} LoadBound(b: seq<byte>)
    ensures LoadBig(b) < Pow2(8 * |b|)
  {
    if b != [] {
      var front := b[..|b| - 1];
      LoadBound(front);
      assert 8 * |b| == 8 * |front| + 8;
      Pow2Byte(8 * |front|);
    }
  }

  lemma Pow2Byte(k: nat)
    ensures Pow2(k + 8) == 256 * Pow2(k)
  {
    assert Pow2(k + 2) == 4 * Pow2(k);
    assert Pow2(k + 4) == 4 * Pow2(k + 2);
    assert Pow2(k + 6) == 4 * Pow2(k + 4);
    assert Pow2(k + 8) == 4 * Pow2(k + 6);
  }

  lemma Pow2Is()
    ensures Pow2(64) == TWO_64
  {
    assert Pow2(0) == 1;
    Pow2Byte(0);
    Pow2Byte(8);
    Pow2Byte(16);
    Pow2Byte(24);
    Pow2Byte(32);
    Pow2Byte(40);
    Pow2Byte(48);
    Pow2Byte(56);
  }

  lemma {:induction false} WordsBound(key: seq<byte>, n: nat)
    requires 8 * n <= |key|
    ensures XorWords(key, n) < Pow2(64)
  {
    if n == 0 {
      Pow2Is();
    } else {
      WordsBound(key, n - 1);
      LoadBound(key[8 * (n - 1)..8 * (n - 1) + 8]);
      XorBound(XorWords(key, n - 1), Word(key, n - 1), 64);
    }
  }

  /** The parity of bit `i` over the first `n` words of a key. */
  function Parity(key: seq<byte>, n: nat, i: nat): nat
    requires 8 * n <= |key|
  {
    if n == 0 then 0 else (Parity(key, n - 1, i) + Bit(Word(key, n - 1), i)) % 2
  }

  /** Bit by bit, the point is the parity of the words. */
  lemma {:induction false} PointIsParity(key: seq<byte>, n: nat, i: nat)
    requires 8 * n <= |key|
    ensures Bit(XorWords(key, n), i) == Parity(key, n, i)
  {
    if n == 0 {
      ZeroBits(i);
    } else {
      PointIsParity(key, n - 1, i);
      XorBits(XorWords(key, n - 1), Word(key, n - 1), i);
    }
  }

  // ----- the point in terms of the bytes of the id -----

  lemma TwiceProduct(p: nat, x: nat)
    ensures (2 * p) * x == 2 * (p * x)
  {
  }

  /** Bits of a number put together from a high and a low part. */
  lemma {:induction false} BitSplit(x: nat, y: nat, k: nat, i: nat)
    requires y < Pow2(k)
    ensures Bit(Pow2(k) * x + y, i) == if i < k then Bit(y, i) else Bit(x, i - k)
    decreases k
  {
    if k > 0 {
      var q := Pow2(k - 1) * x;
      TwiceProduct(Pow2(k - 1), x);
      assert Pow2(k) * x + y == 2 * q + y;
      if i > 0 {
        BitSplit(x, y / 2, k - 1, i - 1);
        assert (2 * q + y) / 2 == q + y / 2;
      }
    }
  }

  /** A big-endian load puts the last byte lowest. */
  lemma {:induction false} BitOfLoad(b: seq<byte>, i: nat)
    requires i < 8 * |b|
    ensures Bit(LoadBig(b), i) == Bit(b[|b| - 1 - i / 8] as int, i % 8)
  {
    var front, last := b[..|b| - 1], b[|b| - 1] as int;
    assert Pow2(8) == 256 by { Pow2Byte(0); }
    BitSplit(LoadBig(front), last, 8, i);
    if i >= 8 {
      BitOfLoad(front, i - 8);
    }
  }

  /** Bit `i` of the point, from the bytes of the id. */
  function PointBit(id: seq<byte>, i: nat): nat
    requires |id| == 33 && i < 64
  {
    (Bit(id[8 - i / 8] as int, i % 8) + Bit(id[16 - i / 8] as int, i % 8)
     + Bit(id[24 - i / 8] as int, i % 8) + Bit(id[32 - i / 8] as int, i % 8)) % 2
  }

  lemma BitOfWord(id: seq<byte>, k: nat, i: nat)
    requires |id| == 33 && k < 4 && i < 64
    ensures Bit(Word(id[1..], k), i) == Bit(id[8 * k + 8 - i / 8] as int, i % 8)
  {
    var word := id[1..][8 * k..8 * k + 8];
    BitOfLoad(word, i);
    assert word[7 - i / 8] == id[8 * k + 8 - i / 8];
  }

  lemma AddParity(a: nat, b: nat)
    ensures (a % 2 + b) % 2 == (a + b) % 2
  {
  }

  lemma ParityOfFour(key: seq<byte>, i: nat)
    requires |key| == 32
    ensures Parity(key, 4, i) ==
            (Bit(Word(key, 0), i) + Bit(Word(key, 1), i) + Bit(Word(key, 2), i) + Bit(Word(key, 3), i)) % 2
  {
    var w0, w1, w2, w3 := Bit(Word(key, 0), i), Bit(Word(key, 1), i), Bit(Word(key, 2), i), Bit(Word(key, 3), i);
    AddParity(w0, w1);
    AddParity(w0 + w1, w2);
    AddParity(w0 + w1 + w2, w3);
    assert Parity(key, 1, i) == w0 % 2;
    assert Parity(key, 2, i) == (w0 + w1) % 2;
    assert Parity(key, 3, i) == (w0 + w1 + w2) % 2;
  }

  /** The point of an id, bit by bit in terms of its bytes; the prefix byte has no part in it. */
  lemma PointFromBytes(id: seq<byte>, i: nat)
    requires |id| == 33 && i < 64
    ensures Bit(XorWords(id[1..], 4), i) == PointBit(id, i)
  {
    PointIsParity(id[1..], 4, i);
    ParityOfFour(id[1..], i);
    BitOfWord(id, 0, i);
    BitOfWord(id, 1, i);
    BitOfWord(id, 2, i);
    BitOfWord(id, 3, i);
  }

  lemma PointBits(id: seq<byte>)
    requires |id| == 33
    ensures XorWords(id[1..], 4) < TWO_64
    ensures forall i :: 0 <= i < 64 ==> Bit(XorWords(id[1..], 4), i) == PointBit(id, i)
  {
    WordsBound(id[1..], 4);
    Pow2Is();
    forall i | 0 <= i < 64 ensures Bit(XorWords(id[1..], 4), i) == PointBit(id, i) {
      PointFromBytes(id, i);
    }
  }

  /** Numbers with the same low bits are the same. */
  lemma {:induction false} BitsDetermine(a: nat, b: nat, k: nat)
    requires a < Pow2(k) && b < Pow2(k) && forall i :: 0 <= i < k ==> Bit(a, i) == Bit(b, i)
    ensures a == b
  {
    if k > 0 {
      assert Bit(a, 0) == Bit(b, 0);
      forall i | 0 <= i < k - 1 ensures Bit(a / 2, i) == Bit(b / 2, i) {
        assert Bit(a, i + 1) == Bit(b, i + 1);
      }
      BitsDetermine(a / 2, b / 2, k - 1);
    }
  }

  /** So the bytes determine the point of an account completely. */
  lemma PointIs(id: seq<byte>, point: nat)
    requires |id| == 33 && point < TWO_64 && forall i :: 0 <= i < 64 ==> Bit(point, i) == PointBit(id, i)
    ensures AccountOf(id).space == point
  {
    Pow2Is();
    forall i | 0 <= i < 64 ensures Bit(AccountOf(id).space, i) == Bit(point, i) {
      PointFromBytes(id, i);
    }
    BitsDetermine(AccountOf(id).space, point, 64);
  }

  /**
   `calc_swarm_space`: the loop over the four words after the prefix byte. Bit `i` of the result is
   the parity of bit `i % 8` of four bytes of the id, those in place `i / 8` from the end of each word.
   */
  method CalcSwarmSpace(id: seq<byte>) returns (res: nat)
    requires |id| == 33
    ensures res == XorWords(id[1..], 4) && res < TWO_64
    ensures forall i :: 0 <= i < 64 ==> Bit(res, i) == PointBit(id, i)
  {
    res := 0;
    ghost var k := 0;
    var i := 1;
    while i < 33
      invariant 0 <= k <= 4 && i == 1 + 8 * k
      invariant res == XorWords(id[1..], k)
    {
      var word := LoadAt(id, i, k);
      res := Xor(res, word);
      i, k := i + 8, k + 1;
    }
    PointBits(id);
  }

  /** `load_big_to_host` at an offset of the id. */
  method LoadAt(id: seq<byte>, i: nat, ghost k: nat) returns (word: nat)
    requires |id| == 33 && i == 1 + 8 * k && k < 4
    ensures word == Word(id[1..], k)
  {
    assert id[i..i + 8] == id[1..][8 * k..8 * k + 8];
    word := LoadBig(id[i..i + 8]);
  }

  /** The account of an id: its point is a 64-bit value. */
  function AccountOf(id: seq<byte>): Account
    requires |id| == 33
  {
    WordsBound(id[1..], 4);
    Pow2Is();
    Account(id, XorWords(id[1..], 4))
  }
}
