/**
 A device's subscription (spns/hive/subscription.cpp, spns/hive/subscription.hpp) and the
 subaccount comparison of spns/bytes.hpp.
 */
module Subscriptions {
  import opened Common
  import opened Decimal

  /** Seconds. */
  const SIGNATURE_EXPIRY: int := 14 * 24 * 3600
  const SIGNATURE_EARLY: int := 24 * 3600

  datatype Subaccount = Subaccount(tag: Bytes, sig: Bytes)

  /** `sigTs` is in seconds since the epoch. */
  datatype Subscription = Subscription(
    subaccount: Option<Subaccount>, namespaces: seq<i16>, wantData: bool, sigTs: int, sig: Bytes)

  /** `Subaccount::is_same`: two unset subaccounts are NOT the same. */
  predicate SameSubaccount(a: Option<Subaccount>, b: Option<Subaccount>) {
    a.Some? && b.Some? && a.value.tag == b.value.tag
  }

  /** `Subscription::is_same`. */
  predicate IsSame(a: Subscription, b: Subscription) {
    SameSubaccount(a.subaccount, b.subaccount) && a.namespaces == b.namespaces && a.wantData == b.wantData
  }

  predicate Ascending(ns: seq<i16>) {
    forall i, j :: 0 <= i < j < |ns| ==> ns[i] < ns[j]
  }

  /** What the constructor demands of its data, signature aside. */
  predicate Acceptable(ns: seq<i16>, sigTs: int, now: int) {
    ns != [] && Ascending(ns) && sigTs != 0 && now - SIGNATURE_EXPIRY < sigTs < now + SIGNATURE_EARLY
  }

  // ----- the signed message -----

  /** The bytes of "MONITOR". */
  const MONITOR: Bytes := [0x4D, 0x4F, 0x4E, 0x49, 0x54, 0x4F, 0x52]

  function Flag(wantData: bool): Bytes {
    [if wantData then 0x31 else 0x30]
  }

  /** Comma-separated namespace list. */
  function Joined(ns: seq<i16>): Bytes {
    if ns == [] then [] else if |ns| == 1 then DecInt(ns[0]) else DecInt(ns[0]) + [COMMA] + Joined(ns[1..])
  }

  function Message(account: Bytes, sigTs: int, wantData: bool, ns: seq<i16>): Bytes {
    MONITOR + Hex(account) + DecInt(sigTs) + Flag(wantData) + Joined(ns)
  }

  /** The places of five concatenated parts. */
  lemma PlacesOfFive(a: Bytes, b: Bytes, c: Bytes, d: byte, e: Bytes)
    ensures var m, g, h, w := a + b + c + [d] + e, |a|, |a| + |b|, |a| + |b| + |c|;
            |m| == w + 1 + |e| && m[..g] == a && m[g..h] == b && m[h..w] == c && m[w] == d && m[w + 1..] == e
  {
  }

  /** The signed text reads "MONITOR", then two hexadecimal digits for each byte of the account. */
  predicate Prefixed(m: Bytes, account: Bytes) {
    && |m| >= 7 + 2 * |account| && m[..7] == [0x4D, 0x4F, 0x4E, 0x49, 0x54, 0x4F, 0x52]
    && forall i :: 0 <= i < |account| ==> Pair(m, 7 + 2 * i, account[i])
  }

  /** The byte stands at the place `j` as two hexadecimal digits. */
  predicate Pair(m: Bytes, j: nat, b: byte) {
    && j + 1 < |m| && IsHexDigit(m[j]) && IsHexDigit(m[j + 1])
    && HexValue(m[j]) * 16 + HexValue(m[j + 1]) == b as int
  }

  lemma PairAt(m: Bytes, hex: Bytes, account: Bytes, i: nat)
    requires hex == Hex(account) && |m| >= 7 + |hex| && m[7..7 + |hex|] == hex && i < |account|
    ensures Pair(m, 7 + 2 * i, account[i])
  {
    HexAt(account, i);
    assert m[7..7 + |hex|][2 * i] == m[7 + 2 * i];
    assert m[7..7 + |hex|][2 * i + 1] == m[7 + 2 * i + 1];
  }

  lemma PrefixedBy(m: Bytes, account: Bytes)
    requires |m| >= 7 + |Hex(account)| && m[..7] == MONITOR && m[7..7 + |Hex(account)|] == Hex(account)
    ensures Prefixed(m, account)
  {
    forall i | 0 <= i < |account| ensures Pair(m, 7 + 2 * i, account[i]) {
      PairAt(m, Hex(account), account, i);
    }
  }

  /**
   The signed text, place by place: after "MONITOR" and the account the timestamp, "1" for the data
   flag or else "0", and the namespaces.
   */
  lemma MessageLayout(account: Bytes, sigTs: int, wantData: bool, ns: seq<i16>)
    ensures var m, h, w := Message(account, sigTs, wantData, ns), 7 + 2 * |account|, 7 + 2 * |account| + |DecInt(sigTs)|;
            && Prefixed(m, account) && |m| > w
            && m[h..w] == DecInt(sigTs)
            && m[w] == (if wantData then 0x31 else 0x30)
            && m[w + 1..] == Joined(ns)
  {
    PlacesOfFive(MONITOR, Hex(account), DecInt(sigTs), Flag(wantData)[0], Joined(ns));
    PrefixedBy(Message(account, sigTs, wantData, ns), account);
  }

  /** A number is written as the digits of its value, after a minus sign if it is negative. */
  lemma NumberText(i: int)
    ensures i >= 0 ==> AllDigits(DecInt(i)) && Value(DecInt(i)) == i
    ensures i < 0 ==> DecInt(i)[0] == 0x2D && AllDigits(DecInt(i)[1..]) && Value(DecInt(i)[1..]) == -i
  {
    if i < 0 {
      assert DecInt(i)[1..] == Dec(-i);
    }
  }

  lemma JoinedFirst(ns: seq<i16>)
    requires |ns| >= 2
    ensures Joined(ns) == DecInt(ns[0]) + [COMMA] + Joined(ns[1..])
  {
  }

  lemma {:induction false} JoinedSnoc(ns: seq<i16>, x: i16)
    ensures Joined(ns + [x]) == if ns == [] then DecInt(x) else Joined(ns) + [COMMA] + DecInt(x)
  {
    if ns != [] {
      assert (ns + [x])[0] == ns[0] && (ns + [x])[1..] == ns[1..] + [x];
      JoinedFirst(ns + [x]);
      JoinedSnoc(ns[1..], x);
      if |ns| > 1 {
        JoinedFirst(ns);
        JoinTogether(DecInt(ns[0]) + [COMMA], Joined(ns[1..]), [COMMA], DecInt(x));
      }
    } else {
      assert ns + [x] == [x];
    }
  }

  lemma JoinTogether(a: Bytes, b: Bytes, c: Bytes, d: Bytes)
    ensures a + (b + c + d) == a + b + c + d
  {
  }

  lemma TakeNext<T>(s: seq<T>, i: nat)
    requires i < |s|
    ensures s[..i + 1] == s[..i] + [s[i]]
  {
  }

  lemma JoinedNext(ns: seq<i16>, i: nat)
    requires i < |ns|
    ensures Joined(ns[..i + 1]) == if i == 0 then DecInt(ns[i]) else Joined(ns[..i]) + [0x2C] + DecInt(ns[i])
  {
    TakeNext(ns, i);
    JoinedSnoc(ns[..i], ns[i]);
  }

  function JoinedTail(ns: seq<i16>): (r: Bytes)
    requires ns != []
    ensures r == [] || r[0] == COMMA
  {
    if |ns| == 1 then [] else [COMMA] + Joined(ns[1..])
  }

  lemma JoinedSplit(ns: seq<i16>)
    requires ns != []
    ensures Joined(ns) == DecInt(ns[0]) + JoinedTail(ns)
  {
  }

  /** A comma-free head followed by nothing or a comma is no shorter than another such head. */
  lemma HeadNotShorter(a: Bytes, ra: Bytes, b: Bytes, rb: Bytes)
    requires COMMA !in b && (ra == [] || ra[0] == COMMA) && a + ra == b + rb
    ensures |b| <= |a|
  {
    assert forall i :: 0 <= i < |b| ==> (a + ra)[i] == b[i] && b[i] != COMMA;
    assert ra != [] ==> (a + ra)[|a|] == COMMA;
  }

  /** Equal concatenations with equally long heads split equally. */
  lemma SplitEqual(a: Bytes, ra: Bytes, b: Bytes, rb: Bytes)
    requires |a| == |b| && a + ra == b + rb
    ensures a == b && ra == rb
  {
    assert a == (a + ra)[..|a|] && b == (b + rb)[..|b|];
    assert ra == (a + ra)[|a|..] && rb == (b + rb)[|b|..];
  }

  lemma TailOfTail(ns: seq<i16>)
    requires ns != []
    ensures JoinedTail(ns) == [] <==> |ns| == 1
    ensures |ns| > 1 ==> JoinedTail(ns)[1..] == Joined(ns[1..])
  {
  }

  lemma {:induction false} JoinedInjective(a: seq<i16>, b: seq<i16>)
    requires Joined(a) == Joined(b)
    ensures a == b
  {
    if a != [] && b != [] {
      JoinedSameHead(a, b);
      if |a| > 1 {
        TailOfTail(a);
        TailOfTail(b);
        JoinedInjective(a[1..], b[1..]);
      }
      assert a == [a[0]] + a[1..] && b == [b[0]] + b[1..];
    }
  }

  lemma JoinedSameHead(a: seq<i16>, b: seq<i16>)
    requires a != [] && b != [] && Joined(a) == Joined(b)
    ensures a[0] == b[0] && JoinedTail(a) == JoinedTail(b)
  {
    JoinedSplit(a);
    JoinedSplit(b);
    HeadNotShorter(DecInt(a[0]), JoinedTail(a), DecInt(b[0]), JoinedTail(b));
    HeadNotShorter(DecInt(b[0]), JoinedTail(b), DecInt(a[0]), JoinedTail(a));
    SplitEqual(DecInt(a[0]), JoinedTail(a), DecInt(b[0]), JoinedTail(b));
    DecIntInjective(a[0], b[0]);
  }

  /** The same prefix followed by fields of equal widths: the fields agree one by one. */
  lemma FieldsAgree(p: Bytes, h1: Bytes, t1: Bytes, f1: Bytes, j1: Bytes, h2: Bytes, t2: Bytes, f2: Bytes, j2: Bytes)
    requires |h1| == |h2| && |t1| == |t2| && |f1| == |f2|
    requires p + h1 + t1 + f1 + j1 == p + h2 + t2 + f2 + j2
    ensures h1 == h2 && t1 == t2 && f1 == f2 && j1 == j2
  {
    SplitEqual(p + h1 + t1 + f1, j1, p + h2 + t2 + f2, j2);
    SplitEqual(p + h1 + t1, f1, p + h2 + t2, f2);
    SplitEqual(p + h1, t1, p + h2, t2);
    SplitEqual(p, h1, p, h2);
  }

  /**
   Unique decodability. When two signed messages coincide, they carry the same account,
   timestamp, data flag and namespaces exactly when their timestamps have the same width.
   */
  lemma MessageDecodable(acc1: Bytes, ts1: int, wd1: bool, ns1: seq<i16>,
                         acc2: Bytes, ts2: int, wd2: bool, ns2: seq<i16>)
    requires |acc1| == |acc2|
    requires Message(acc1, ts1, wd1, ns1) == Message(acc2, ts2, wd2, ns2)
    ensures (acc1 == acc2 && ts1 == ts2 && wd1 == wd2 && ns1 == ns2) <==> |DecInt(ts1)| == |DecInt(ts2)|
  {
    if |DecInt(ts1)| == |DecInt(ts2)| {
      FieldsAgree(MONITOR, Hex(acc1), DecInt(ts1), Flag(wd1), Joined(ns1),
                  Hex(acc2), DecInt(ts2), Flag(wd2), Joined(ns2));
      HexInjective(acc1, acc2);
      DecIntInjective(ts1, ts2);
      assert Flag(wd1)[0] == Flag(wd2)[0];
      JoinedInjective(ns1, ns2);
    }
  }

  /** A clock at which only ten-digit timestamps pass validation (2001-09-23 to 2286-11-19). */
  predicate TenDigitWindow(now: int) {
    1_000_000_000 + SIGNATURE_EXPIRY <= now + 1 && now + SIGNATURE_EARLY <= 10_000_000_000
  }

  lemma TenDigits(ts: int)
    requires 1_000_000_000 <= ts < 10_000_000_000
    ensures |DecInt(ts)| == 10
  {
    DecWidth(ts, 9);
    DecWidth(ts, 10);
    assert Pow10(9) == 1_000_000_000 by {
      assert Pow10(3) == 1000;
      assert Pow10(6) == 1_000_000;
    }
  }

  /**
   Two subscriptions accepted at possibly different clocks, both inside the ten-digit era, are
   signed with the same text only if they ask for the same thing.
   */
  lemma AcceptedMessagesDecodable(acc1: Bytes, s1: Subscription, now1: int,
                                  acc2: Bytes, s2: Subscription, now2: int)
    requires |acc1| == |acc2| && TenDigitWindow(now1) && TenDigitWindow(now2)
    requires Acceptable(s1.namespaces, s1.sigTs, now1) && Acceptable(s2.namespaces, s2.sigTs, now2)
    requires Message(acc1, s1.sigTs, s1.wantData, s1.namespaces) == Message(acc2, s2.sigTs, s2.wantData, s2.namespaces)
    ensures acc1 == acc2 && s1.sigTs == s2.sigTs && s1.wantData == s2.wantData && s1.namespaces == s2.namespaces
  {
    TenDigits(s1.sigTs);
    TenDigits(s2.sigTs);
    MessageDecodable(acc1, s1.sigTs, s1.wantData, s1.namespaces, acc2, s2.sigTs, s2.wantData, s2.namespaces);
  }

  lemma TrailingOne(t: nat)
    requires t > 0
    ensures DecInt(10 * t + 1) == DecInt(t) + [0x31]
  {
    assert (10 * t + 1) / 10 == t && (10 * t + 1) % 10 == 1;
  }

  lemma TwelveAndTwo()
    ensures DecInt(12) == [0x31, 0x32] && DecInt(2) == [0x32]
  {
    assert Dec(12) == Dec(1) + [0x32];
  }

  lemma MoveOne(head: Bytes, digits: Bytes)
    ensures head + digits + [0x31] + [0x31, 0x32] == head + (digits + [0x31]) + [0x31] + [0x32]
  {
  }

  /** Every timestamp collides with the one that has a further digit 1. */
  lemma CollidesWithLonger(acc: Bytes, t: nat)
    requires t > 0
    ensures Message(acc, t, true, [12]) == Message(acc, 10 * t + 1, true, [2])
  {
    TrailingOne(t);
    TwelveAndTwo();
    MoveOne(MONITOR + Hex(acc), DecInt(t));
  }

  /** Past the ten-digit era the text is ambiguous: "1" can end the timestamp or set the flag. */
  lemma MixedWidthsCollide(acc: Bytes)
    ensures Message(acc, 9_999_999_999, true, [12]) == Message(acc, 99_999_999_991, true, [2])
  {
    CollidesWithLonger(acc, 9_999_999_999);
  }

  /**
   The constructor. `verify` stands for `verify_storage_signature` (false means it throws);
   `skip` is `_skip_validation`.
   */
  method Construct(account: Bytes, subaccount: Option<Subaccount>, ns: seq<i16>, wantData: bool, sigTs: int,
                   sig: Bytes, skip: bool, now: int, verify: Bytes -> bool)
    returns (r: Result<Subscription>)
    ensures r.Ok? <==>
              && ns != [] && (forall i, j :: 0 <= i < j < |ns| ==> ns[i] < ns[j])
              && sigTs != 0 && now - 14 * 24 * 3600 < sigTs < now + 24 * 3600
              && (skip || verify(Message(account, sigTs, wantData, ns)))
    ensures r.Ok? ==> WellFormed(r.value) && Acceptable(ns, sigTs, now)
    ensures r.Ok? ==> r.value == Subscription(subaccount, ns, wantData, sigTs, sig)
  {
    var bad := CheckNamespaces(ns);
    if bad.Some? {
      return Err(bad.value);
    }
    if sigTs == 0 {
      return Err("signature timestamp is missing");
    }
    if now - sigTs >= SIGNATURE_EXPIRY {
      return Err("sig_ts timestamp is too old");
    }
    if sigTs - now >= SIGNATURE_EARLY {
      return Err("sig_ts timestamp is too far in the future");
    }
    if !skip {
      var msg := BuildMessage(account, sigTs, wantData, ns);
      if !verify(msg) {
        return Err("signature verification failed");
      }
    }
    return Ok(Subscription(subaccount, ns, wantData, sigTs, sig));
  }

  /** What is wrong with the namespaces, if anything. */
  method CheckNamespaces(ns: seq<i16>) returns (bad: Option<string>)
    ensures bad.None? <==> ns != [] && Ascending(ns)
  {
    if |ns| == 0 {
      return Some("namespaces missing or empty");
    }
    var i := 1;
    while i < |ns|
      invariant 1 <= i <= |ns|
      invariant Ascending(ns[..i])
    {
      if ns[i - 1] > ns[i] {
        return Some("namespaces are not sorted numerically");
      }
      if ns[i - 1] == ns[i] {
        return Some("namespaces contains duplicates");
      }
      assert forall j :: 0 <= j < i ==> ns[..i][j] <= ns[..i][i - 1];
      i := i + 1;
    }
    assert ns[..|ns|] == ns;
    return None;
  }

  /** The string-building part of the constructor. */
  method BuildMessage(account: Bytes, sigTs: int, wantData: bool, ns: seq<i16>) returns (msg: Bytes)
    ensures msg == Message(account, sigTs, wantData, ns)
  {
    msg := AppendJoined(MONITOR + Hex(account) + DecInt(sigTs) + Flag(wantData), ns);
  }

  method AppendJoined(head: Bytes, ns: seq<i16>) returns (msg: Bytes)
    ensures msg == head + Joined(ns)
  {
    msg := head;
    for i := 0 to |ns|
      invariant msg == head + Joined(ns[..i])
    {
      JoinedNext(ns, i);
      if i > 0 {
        msg := msg + [COMMA];
      }
      msg := msg + DecInt(ns[i]);
    }
    assert ns[..|ns|] == ns;
  }

  // ----- covers -----

  ghost predicate WellFormed(s: Subscription) {
    s.namespaces != [] && Ascending(s.namespaces)
  }

  /** `big` delivers everything `small` needs. */
  ghost predicate Suffices(big: Subscription, small: Subscription) {
    && SameSubaccount(big.subaccount, small.subaccount)
    && (small.wantData ==> big.wantData)
    && forall x :: x in small.namespaces ==> x in big.namespaces
  }

  /** The two-index walk of `Subscription::covers`. */
  method Covers(self: Subscription, other: Subscription) returns (r: bool)
    requires WellFormed(self) && WellFormed(other)
    ensures r <==> Suffices(self, other)
  {
    if !SameSubaccount(self.subaccount, other.subaccount) {
      return false;
    }
    if other.wantData && !self.wantData {
      return false;
    }
    var i, j := 0, 0;
    while j < |other.namespaces|
      invariant 0 <= i <= |self.namespaces| && 0 <= j <= |other.namespaces|
      invariant forall k :: 0 <= k < j ==> other.namespaces[k] in self.namespaces
      invariant forall k, l :: 0 <= k < i && j <= l < |other.namespaces| ==> self.namespaces[k] < other.namespaces[l]
      decreases |self.namespaces| - i
    {
      if i >= |self.namespaces| {
        assert other.namespaces[j] !in self.namespaces;
        return false;
      }
      if self.namespaces[i] > other.namespaces[j] {
        assert other.namespaces[j] !in self.namespaces;
        return false;
      }
      if self.namespaces[i] == other.namespaces[j] {
        j := j + 1;
      }
      i := i + 1;
    }
    return true;
  }

  /**
   On subscriptions that carry a subaccount `covers` is a preorder; on the others it is never
   true, not even of a subscription and itself.
   */
  lemma CoversIsPreorder(a: Subscription, b: Subscription, c: Subscription)
    ensures Suffices(a, a) <==> a.subaccount.Some?
    ensures Suffices(a, b) && Suffices(b, c) ==> Suffices(a, c)
  {
  }
}
