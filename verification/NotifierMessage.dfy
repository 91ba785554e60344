/**
 The message that the hive sends to a notifier for each matching subscription, and the buffer
 size estimated for it (`process_notifications`).
 */
module NotifierMessage {
  import opened Common
  import opened Decimal
  import opened Bencode
  import opened BencodeItems

  const MSG_HASH_MIN_SIZE: nat := 32
  const MSG_HASH_MAX_SIZE: nat := 99

  /** `data` is the message data when the storage server sent it and the subscription wants it. */
  datatype Push = Push(
    service: Bytes, svcdata: Option<Bytes>, hash: Bytes, svcid: Bytes, account: Bytes, encKey: Bytes,
    ns: i16, timestamp: i64, expiry: i64, data: Option<Bytes>)

  /** What reaches the buffer: a registered service, parsed hash and account, in-memory strings. */
  predicate Sendable(p: Push) {
    && 0 < |p.service| <= 32 && MSG_HASH_MIN_SIZE <= |p.hash| <= MSG_HASH_MAX_SIZE
    && |p.account| == 33 && |p.encKey| == 32 && |p.svcid| < TWO_64
    && (p.svcdata.Some? ==> |p.svcdata.value| < TWO_64)
    && (p.data.Some? ==> |p.data.value| < TWO_64)
  }

  function Optional(key: byte, value: Option<Bytes>): seq<Entry> {
    if value.Some? then [Entry([key], Text(value.value))] else []
  }

  function Texts(p: Push): seq<Entry> {
    [Entry([0x23], Text(p.hash)), Entry([0x26], Text(p.svcid)), Entry([0x40], Text(p.account)), Entry([0x5E], Text(p.encKey))]
  }

  function Numbers(p: Push): seq<Entry> {
    [Entry([0x6E], Number(p.ns)), Entry([0x74], Number(p.timestamp)), Entry([0x7A], Number(p.expiry))]
  }

  /** The entries in the order they are appended. */
  function Entries(p: Push): seq<Entry> {
    [Entry([], Text(p.service))] + Optional(0x21, p.svcdata) + Texts(p) + Numbers(p) + Optional(0x7E, p.data)
  }

  function Encoded(p: Push): Bytes {
    PrintDict(Entries(p))
  }

  /** `size_needed`. */
  function SizeNeeded(p: Push): int {
    2 + 35
    + 3 + 21 + |p.svcid|
    + 3 + 35
    + 3 + 21 + |p.hash|
    + 3 + 36
    + 3 + 8
    + 3 + 15
    + 3 + 15
    + (if p.svcdata.Some? then 3 + 21 + |p.svcdata.value| else 0)
    + (if p.data.Some? then 3 + 21 + |p.data.value| else 0)
  }

  function FieldSize(e: Entry): nat {
    |PrintString(e.key)| + |PrintScalar(e.value)|
  }

  function FieldSizes(es: seq<Entry>): nat {
    if es == [] then 0 else FieldSize(es[0]) + FieldSizes(es[1..])
  }

  lemma {:induction false} PrintEntriesSize(es: seq<Entry>)
    ensures |PrintEntries(es)| == FieldSizes(es)
  {
    if es != [] { PrintEntriesSize(es[1..]); }
  }

  lemma {:induction false} FieldSizesConcat(a: seq<Entry>, b: seq<Entry>)
    ensures FieldSizes(a + b) == FieldSizes(a) + FieldSizes(b)
  {
    if a == [] {
      assert a + b == b;
    } else {
      assert (a + b)[1..] == a[1..] + b;
      FieldSizesConcat(a[1..], b);
    }
  }

  lemma FieldSizesOne(e: Entry)
    ensures FieldSizes([e]) == FieldSize(e)
  {
    assert [e][1..] == [];
  }

  /** A text field: key, length prefix of at most 20 digits, colon, bytes. */
  lemma TextFieldSize(key: byte, t: Bytes)
    requires |t| < TWO_64
    ensures FieldSize(Entry([key], Text(t))) <= 3 + 21 + |t|
    ensures |t| < 100 ==> FieldSize(Entry([key], Text(t))) <= 3 + 3 + |t|
  {
    Widths();
    assert |Dec(1)| == 1;
  }

  /** An integer field: a 64-bit value takes up to 22 bytes, a 16-bit value up to 8. */
  lemma NumberFieldSize(key: byte, n: i64)
    ensures FieldSize(Entry([key], Number(n))) <= 3 + 22
    ensures -0x8000 <= n < 0x8000 ==> FieldSize(Entry([key], Number(n))) <= 3 + 8
  {
    Widths();
    assert |Dec(1)| == 1;
  }

  lemma OptionalSize(key: byte, value: Option<Bytes>)
    requires value.Some? ==> |value.value| < TWO_64
    ensures FieldSizes(Optional(key, value)) <= if value.Some? then 3 + 21 + |value.value| else 0
  {
    if value.Some? {
      FieldSizesOne(Entry([key], Text(value.value)));
      TextFieldSize(key, value.value);
    }
  }

  lemma FieldSizesPair(a: Entry, b: Entry)
    ensures FieldSizes([a, b]) == FieldSize(a) + FieldSize(b)
  {
    assert [a, b] == [a] + [b];
    FieldSizesConcat([a], [b]);
    FieldSizesOne(a);
    FieldSizesOne(b);
  }

  lemma TextsSize(p: Push)
    requires Sendable(p)
    ensures FieldSizes(Texts(p)) <= (6 + |p.hash|) + (24 + |p.svcid|) + (6 + 33) + (6 + 32)
  {
    var m := Texts(p);
    assert m == [m[0], m[1]] + [m[2], m[3]];
    FieldSizesConcat([m[0], m[1]], [m[2], m[3]]);
    FieldSizesPair(m[0], m[1]);
    FieldSizesPair(m[2], m[3]);
    TextFieldSize(0x23, p.hash);
    TextFieldSize(0x26, p.svcid);
    TextFieldSize(0x40, p.account);
    TextFieldSize(0x5E, p.encKey);
  }

  lemma NumbersSize(p: Push)
    ensures FieldSizes(Numbers(p)) <= 11 + 25 + 25
  {
    var m := Numbers(p);
    assert m == [m[0], m[1]] + [m[2]];
    FieldSizesConcat([m[0], m[1]], [m[2]]);
    FieldSizesPair(m[0], m[1]);
    FieldSizesOne(m[2]);
    NumberFieldSize(0x6E, p.ns);
    NumberFieldSize(0x74, p.timestamp);
    NumberFieldSize(0x7A, p.expiry);
  }

  lemma ServiceFieldSize(service: Bytes)
    requires |service| <= 32
    ensures FieldSizes([Entry([], Text(service))]) <= 2 + 35
  {
    FieldSizesOne(Entry([], Text(service)));
    Widths();
    assert |Dec(0)| == 1;
  }

  /**
   The estimate always suffices, with two bytes to spare. The two timestamp fields alone are
   underestimated (a 64-bit integer can take 22 bytes, not 15), and the dict's own delimiters are
   not counted; the generous allowance for the hash's length prefix makes up for both.
   */
  lemma EstimateSuffices(p: Push)
    requires Sendable(p)
    ensures |Encoded(p)| + 2 <= SizeNeeded(p)
  {
    var service := [Entry([], Text(p.service))];
    PrintEntriesSize(Entries(p));
    FieldSizesConcat(service + Optional(0x21, p.svcdata) + Texts(p) + Numbers(p), Optional(0x7E, p.data));
    FieldSizesConcat(service + Optional(0x21, p.svcdata) + Texts(p), Numbers(p));
    FieldSizesConcat(service + Optional(0x21, p.svcdata), Texts(p));
    FieldSizesConcat(service, Optional(0x21, p.svcdata));
    ServiceFieldSize(p.service);
    OptionalSize(0x21, p.svcdata);
    OptionalSize(0x7E, p.data);
    TextsSize(p);
    NumbersSize(p);
  }

  lemma TextFieldAtLeast(key: Bytes, t: Bytes)
    ensures FieldSize(Entry(key, Text(t))) >= 4 + |key| + |t|
    ensures |key| == 1 && 10 <= |t| ==> FieldSize(Entry(key, Text(t))) >= 6 + |t|
  {
    DecWidth(|t|, 1);
    assert Pow10(1) == 10 by { assert Pow10(0) == 1; }
  }

  lemma NumberFieldAtLeast(key: byte, n: int)
    ensures FieldSize(Entry([key], Number(n))) >= 6
  {
  }

  lemma TextsAtLeast(p: Push)
    requires Sendable(p)
    ensures FieldSizes(Texts(p)) >= (6 + |p.hash|) + (5 + |p.svcid|) + (6 + 33) + (6 + 32)
  {
    var m := Texts(p);
    assert m == [m[0], m[1]] + [m[2], m[3]];
    FieldSizesConcat([m[0], m[1]], [m[2], m[3]]);
    FieldSizesPair(m[0], m[1]);
    FieldSizesPair(m[2], m[3]);
    TextFieldAtLeast([0x23], p.hash);
    TextFieldAtLeast([0x26], p.svcid);
    TextFieldAtLeast([0x40], p.account);
    TextFieldAtLeast([0x5E], p.encKey);
  }

  lemma NumbersAtLeast(p: Push)
    ensures FieldSizes(Numbers(p)) >= 18
  {
    var m := Numbers(p);
    assert m == [m[0], m[1]] + [m[2]];
    FieldSizesConcat([m[0], m[1]], [m[2]]);
    FieldSizesPair(m[0], m[1]);
    FieldSizesOne(m[2]);
    NumberFieldAtLeast(0x6E, p.ns);
    NumberFieldAtLeast(0x74, p.timestamp);
    NumberFieldAtLeast(0x7A, p.expiry);
  }

  lemma OptionalAtLeast(key: byte, value: Option<Bytes>)
    ensures FieldSizes(Optional(key, value)) >= if value.Some? then 5 + |value.value| else 0
  {
    if value.Some? {
      FieldSizesOne(Entry([key], Text(value.value)));
      TextFieldAtLeast([key], value.value);
    }
  }

  /** Nor does the estimate overshoot by much: by less than 140 bytes. */
  lemma EstimateIsClose(p: Push)
    requires Sendable(p)
    ensures SizeNeeded(p) < |Encoded(p)| + 140
  {
    var service := [Entry([], Text(p.service))];
    PrintEntriesSize(Entries(p));
    FieldSizesConcat(service + Optional(0x21, p.svcdata) + Texts(p) + Numbers(p), Optional(0x7E, p.data));
    FieldSizesConcat(service + Optional(0x21, p.svcdata) + Texts(p), Numbers(p));
    FieldSizesConcat(service + Optional(0x21, p.svcdata), Texts(p));
    FieldSizesConcat(service, Optional(0x21, p.svcdata));
    FieldSizesOne(service[0]);
    TextFieldAtLeast([], p.service);
    OptionalAtLeast(0x21, p.svcdata);
    OptionalAtLeast(0x7E, p.data);
    TextsAtLeast(p);
    NumbersAtLeast(p);
  }

  /** Exactly the timestamps that fit the 15 bytes their own line of the estimate allows. */
  lemma TimestampFitsItsLine(t: i64)
    ensures |PrintInt(t)| <= 15 <==> -1_000_000_000_000 < t < 10_000_000_000_000
  {
    assert Pow10(6) == 1_000_000 && Pow10(12) == 1_000_000_000_000 && Pow10(13) == 10_000_000_000_000;
    var i: int := t;
    DecWidth(if i < 0 then -i else i, 12);
    DecWidth(if i < 0 then -i else i, 13);
  }

  /** The notifier reads back exactly the entries that were appended. */
  lemma NotifierReadsEntries(p: Push)
    ensures DecodeItem(Encoded(p)) == Some(Decoded(Dict(Entries(p)), []))
  {
    DecodePrintedItem(Dict(Entries(p)), []);
    assert PrintItem(Dict(Entries(p))) + [] == Encoded(p);
  }

  lemma FourTexts(p: Push)
    ensures forall k: Bytes :: Lookup(Texts(p), k) ==
              if k == [0x23] then Some(Text(p.hash)) else if k == [0x26] then Some(Text(p.svcid))
              else if k == [0x40] then Some(Text(p.account)) else if k == [0x5E] then Some(Text(p.encKey)) else None
  {
    var m := Texts(p);
    assert m == [m[0], m[1]] + [m[2], m[3]];
    TwoEntries(m[0], m[1]);
    TwoEntries(m[2], m[3]);
    forall k: Bytes ensures Lookup(m, k) == Or(Lookup([m[0], m[1]], k), Lookup([m[2], m[3]], k)) {
      LookupConcat([m[0], m[1]], [m[2], m[3]], k);
    }
  }

  lemma EntriesLookup(p: Push, k: Bytes)
    ensures Lookup(Entries(p), k) ==
            Or(Or(Or(Or(Lookup([Entry([], Text(p.service))], k), Lookup(Optional(0x21, p.svcdata), k)), Lookup(Texts(p), k)),
                  Lookup(Numbers(p), k)), Lookup(Optional(0x7E, p.data), k))
  {
    var service := [Entry([], Text(p.service))];
    LookupConcat(service + Optional(0x21, p.svcdata) + Texts(p) + Numbers(p), Optional(0x7E, p.data), k);
    LookupConcat(service + Optional(0x21, p.svcdata) + Texts(p), Numbers(p), k);
    LookupConcat(service + Optional(0x21, p.svcdata), Texts(p), k);
    LookupConcat(service, Optional(0x21, p.svcdata), k);
  }

  function Texted(value: Option<Bytes>): Option<Scalar> {
    if value.Some? then Some(Text(value.value)) else None
  }

  /** Which value the notifier finds under which key, and that there are no other keys. */
  lemma NotifierReadsFields(p: Push, k: Bytes)
    ensures var d := DecodeItem(Encoded(p));
            && d.Some? && d.value.value.Dict?
            && Lookup(d.value.value.entries, k) ==
               if k == [] then Some(Text(p.service))
               else if k == [0x21] then Texted(p.svcdata)
               else if k == [0x23] then Some(Text(p.hash))
               else if k == [0x26] then Some(Text(p.svcid))
               else if k == [0x40] then Some(Text(p.account))
               else if k == [0x5E] then Some(Text(p.encKey))
               else if k == [0x6E] then Some(Number(p.ns))
               else if k == [0x74] then Some(Number(p.timestamp))
               else if k == [0x7A] then Some(Number(p.expiry))
               else if k == [0x7E] then Texted(p.data)
               else None
  {
    NotifierReadsEntries(p);
    EntriesLookup(p, k);
    FourTexts(p);
    OptionalEntry([Entry([], Text(p.service))]);
    OptionalEntry(Optional(0x21, p.svcdata));
    OptionalEntry(Optional(0x7E, p.data));
    ThreeEntries(Numbers(p)[0], Numbers(p)[1], Numbers(p)[2]);
  }

  /** A key before another: the empty one first, single bytes by value. */
  predicate Before(a: Bytes, b: Bytes) {
    |b| == 1 && (a == [] || (|a| == 1 && a[0] < b[0]))
  }

  /** The keys are appended in ascending order, as the dict format demands. */
  lemma KeysAscend(p: Push, i: nat, j: nat)
    requires i < j < |Entries(p)|
    ensures Before(Entries(p)[i].key, Entries(p)[j].key)
  {
  }
}
