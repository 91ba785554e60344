/**
 The bencoded values that the notifiers exchange: byte strings, integers, dicts of those, and
 lists of all three, with a decoder that stops where the value ends.
 */
module BencodeItems {
  import opened Common
  import opened Decimal
  import opened Bencode

  const INT: byte := 0x69
  const DICT: byte := 0x64

  datatype Scalar = Text(bytes: Bytes) | Number(n: int)

  datatype Entry = Entry(key: Bytes, value: Scalar)

  datatype Item = Plain(value: Scalar) | Dict(entries: seq<Entry>)

  // ----- printing -----

  function PrintInt(n: int): Bytes {
    [INT] + DecInt(n) + [END]
  }

  function PrintScalar(s: Scalar): (r: Bytes)
    ensures r != [] && (IsDigit(r[0]) || r[0] == INT)
  {
    match s
    case Text(b) => PrintString(b)
    case Number(n) => PrintInt(n)
  }

  function PrintEntries(es: seq<Entry>): Bytes {
    if es == [] then [] else PrintString(es[0].key) + PrintScalar(es[0].value) + PrintEntries(es[1..])
  }

  function PrintDict(es: seq<Entry>): Bytes {
    [DICT] + PrintEntries(es) + [END]
  }

  function PrintItem(i: Item): (r: Bytes)
    ensures r != [] && (IsDigit(r[0]) || r[0] == INT || r[0] == DICT)
  {
    match i
    case Plain(s) => PrintScalar(s)
    case Dict(es) => PrintDict(es)
  }

  function PrintItems(xs: seq<Item>): Bytes {
    if xs == [] then [] else PrintItem(xs[0]) + PrintItems(xs[1..])
  }

  function PrintItemList(xs: seq<Item>): Bytes {
    [LIST] + PrintItems(xs) + [END]
  }

  /** The delimiters: "N:", "i...e", "d...e" and "l...e". */
  lemma Delimiters(s: Bytes, n: int, es: seq<Entry>, xs: seq<Item>)
    ensures PrintString(s)[|Dec(|s|)|] == 0x3A
    ensures PrintInt(n)[0] == 0x69 && PrintInt(n)[|PrintInt(n)| - 1] == 0x65
    ensures PrintDict(es)[0] == 0x64 && PrintDict(es)[|PrintDict(es)| - 1] == 0x65
    ensures PrintItemList(xs)[0] == 0x6C && PrintItemList(xs)[|PrintItemList(xs)| - 1] == 0x65
  {
  }

  // ----- looking up a key -----

  function Lookup(es: seq<Entry>, key: Bytes): Option<Scalar> {
    if es == [] then None else if es[0].key == key then Some(es[0].value) else Lookup(es[1..], key)
  }

  function Or<T>(a: Option<T>, b: Option<T>): Option<T> {
    if a.Some? then a else b
  }

  lemma {:induction false} LookupConcat(a: seq<Entry>, b: seq<Entry>, key: Bytes)
    ensures Lookup(a + b, key) == Or(Lookup(a, key), Lookup(b, key))
  {
    if a == [] {
      assert a + b == b;
    } else {
      assert (a + b)[1..] == a[1..] + b;
      LookupConcat(a[1..], b, key);
    }
  }

  lemma OptionalEntry(es: seq<Entry>)
    requires |es| <= 1
    ensures forall k: Bytes :: Lookup(es, k) == if |es| == 1 && es[0].key == k then Some(es[0].value) else None
  {
  }

  lemma TwoEntries(a: Entry, b: Entry)
    ensures forall k: Bytes :: Lookup([a, b], k) == if a.key == k then Some(a.value) else if b.key == k then Some(b.value) else None
  {
    assert [a, b][1..] == [b];
    OptionalEntry([b]);
  }

  lemma ThreeEntries(a: Entry, b: Entry, c: Entry)
    ensures forall k: Bytes :: Lookup([a, b, c], k) == if a.key == k then Some(a.value) else Lookup([b, c], k)
    ensures forall k: Bytes :: Lookup([b, c], k) == if b.key == k then Some(b.value) else if c.key == k then Some(c.value) else None
  {
    assert [a, b, c][1..] == [b, c];
    TwoEntries(b, c);
  }

  // ----- decoding from the front -----

  datatype Decoded<T> = Decoded(value: T, rest: Bytes)

  function DecodeUnsigned(b: Bytes): Option<Decoded<nat>> {
    var n := DigitRun(b);
    if n == 0 || n >= |b| || b[n] != END then None else Some(Decoded(Value(b[..n]), b[n + 1..]))
  }

  function DecodeInt(b: Bytes): Option<Decoded<int>> {
    var negative := b != [] && b[0] == MINUS;
    match DecodeUnsigned(if negative then b[1..] else b)
    case None => None
    case Some(d) => Some(Decoded(if negative then 0 - d.value else d.value, d.rest))
  }

  function DecodeScalar(b: Bytes): Option<Decoded<Scalar>> {
    if b != [] && b[0] == INT then
      match DecodeInt(b[1..])
      case None => None
      case Some(d) => Some(Decoded(Number(d.value), d.rest))
    else
      match ConsumeString(b)
      case Err(_) => None
      case Ok(p) => Some(Decoded(Text(p.text), p.rest))
  }

  function DecodeEntries(b: Bytes): Option<Decoded<seq<Entry>>>
    decreases |b|
  {
    if b == [] then None
    else if b[0] == END then Some(Decoded([], b[1..]))
    else
      match ConsumeString(b)
      case Err(_) => None
      case Ok(key) =>
        match DecodeScalar(key.rest)
        case None => None
        case Some(d) =>
          if |d.rest| >= |b| then None
          else
            match DecodeEntries(d.rest)
            case None => None
            case Some(es) => Some(Decoded([Entry(key.text, d.value)] + es.value, es.rest))
  }

  function DecodeItem(b: Bytes): Option<Decoded<Item>> {
    if b != [] && b[0] == DICT then
      match DecodeEntries(b[1..])
      case None => None
      case Some(es) => Some(Decoded(Dict(es.value), es.rest))
    else
      match DecodeScalar(b)
      case None => None
      case Some(d) => Some(Decoded(Plain(d.value), d.rest))
  }

  function DecodeItems(b: Bytes): Option<Decoded<seq<Item>>>
    decreases |b|
  {
    if b == [] then None
    else if b[0] == END then Some(Decoded([], b[1..]))
    else
      match DecodeItem(b)
      case None => None
      case Some(d) =>
        if |d.rest| >= |b| then None
        else
          match DecodeItems(d.rest)
          case None => None
          case Some(xs) => Some(Decoded([d.value] + xs.value, xs.rest))
  }

  function DecodeItemList(b: Bytes): Option<Decoded<seq<Item>>> {
    if b == [] || b[0] != LIST then None else DecodeItems(b[1..])
  }

  // ----- round trips -----

  lemma {:induction false} DigitRunBeforeEnd(digits: Bytes, tail: Bytes)
    requires AllDigits(digits)
    ensures DigitRun(digits + [END] + tail) == |digits|
  {
    var body := digits + [END] + tail;
    if digits == [] {
      assert body[0] == END;
    } else {
      assert body[0] == digits[0];
      assert body[1..] == digits[1..] + [END] + tail;
      DigitRunBeforeEnd(digits[1..], tail);
    }
  }

  lemma DigitsThenEnd(digits: Bytes, tail: Bytes)
    requires digits != [] && AllDigits(digits)
    ensures var body := digits + [END] + tail;
            && DigitRun(body) == |digits| && body[0] != MINUS
            && body[..|digits|] == digits && body[|digits|] == END && body[|digits| + 1..] == tail
  {
    var body := digits + [END] + tail;
    DigitRunBeforeEnd(digits, tail);
    assert body[0] == digits[0];
    assert body[..|digits|] == digits && body[|digits|] == END && body[|digits| + 1..] == tail;
  }

  lemma DecodeDigits(digits: Bytes, tail: Bytes)
    requires digits != [] && AllDigits(digits)
    ensures DecodeUnsigned(digits + [END] + tail) == Some(Decoded(Value(digits), tail))
  {
    DigitsThenEnd(digits, tail);
  }

  lemma DecodePositive(b: Bytes, d: Decoded<nat>)
    requires b != [] && b[0] != MINUS && DecodeUnsigned(b) == Some(d)
    ensures DecodeInt(b) == Some(Decoded(d.value as int, d.rest))
  {
  }

  lemma DecodeNegative(b: Bytes, d: Decoded<nat>)
    requires DecodeUnsigned(b) == Some(d)
    ensures DecodeInt([MINUS] + b) == Some(Decoded(0 - d.value, d.rest))
  {
    assert ([MINUS] + b)[1..] == b;
  }

  lemma DecodePrintedInt(n: int, tail: Bytes)
    ensures DecodeInt(DecInt(n) + [END] + tail) == Some(Decoded(n, tail))
  {
    var digits := Dec(if n < 0 then -n else n);
    DecodeDigits(digits, tail);
    if n < 0 {
      assert DecInt(n) + [END] + tail == [MINUS] + (digits + [END] + tail);
      DecodeNegative(digits + [END] + tail, Decoded(Value(digits), tail));
    } else {
      DigitsThenEnd(digits, tail);
      DecodePositive(digits + [END] + tail, Decoded(Value(digits), tail));
    }
  }

  lemma HeadAndTail(h: byte, body: Bytes, e: Bytes, t: Bytes)
    ensures ([h] + body + e) + t == [h] + (body + e + t)
    ensures ([h] + (body + e + t))[0] == h && ([h] + (body + e + t))[1..] == body + e + t
  {
  }

  lemma DecodePrintedNumber(n: int, tail: Bytes)
    ensures DecodeScalar(PrintInt(n) + tail) == Some(Decoded(Number(n), tail))
  {
    HeadAndTail(INT, DecInt(n), [END], tail);
    DecodePrintedInt(n, tail);
  }

  lemma DecodePrintedText(t: Bytes, tail: Bytes)
    ensures DecodeScalar(PrintString(t) + tail) == Some(Decoded(Text(t), tail))
  {
    assert (PrintString(t) + tail)[0] == PrintString(t)[0];
    ConsumePrinted(t, tail);
  }

  lemma DecodePrintedScalar(s: Scalar, tail: Bytes)
    ensures DecodeScalar(PrintScalar(s) + tail) == Some(Decoded(s, tail))
  {
    match s
    case Text(t) => DecodePrintedText(t, tail);
    case Number(n) => DecodePrintedNumber(n, tail);
  }

  lemma Front(v: Bytes, m: Bytes, e: Bytes, t: Bytes)
    requires v != []
    ensures (v + m) + e + t == v + (m + e + t) && (v + (m + e + t))[0] == v[0]
  {
  }

  lemma Regroup(k: Bytes, v: Bytes, m: Bytes, e: Bytes, t: Bytes)
    ensures (k + v + m) + e + t == k + (v + (m + e + t)) && k + v + m == k + (v + m)
  {
  }

  lemma DecodeEntriesCons(b: Bytes, key: Bytes, r1: Bytes, value: Scalar, r2: Bytes, es: seq<Entry>, tail: Bytes)
    requires b != [] && b[0] != END && |r2| < |b|
    requires ConsumeString(b) == Ok(Parsed(key, r1)) && DecodeScalar(r1) == Some(Decoded(value, r2))
    requires DecodeEntries(r2) == Some(Decoded(es, tail))
    ensures DecodeEntries(b) == Some(Decoded([Entry(key, value)] + es, tail))
  {
  }

  lemma PrintedEntriesSplit(es: seq<Entry>, tail: Bytes)
    requires es != []
    ensures var b, rest := PrintEntries(es) + [END] + tail, PrintEntries(es[1..]) + [END] + tail;
            && b == PrintString(es[0].key) + (PrintScalar(es[0].value) + rest)
            && b[0] != END && |rest| < |b|
  {
    var k, v := PrintString(es[0].key), PrintScalar(es[0].value);
    Regroup(k, v, PrintEntries(es[1..]), [END], tail);
    Front(k, v + PrintEntries(es[1..]), [END], tail);
  }

  lemma EntriesStep(es: seq<Entry>, tail: Bytes)
    requires es != [] && DecodeEntries(PrintEntries(es[1..]) + [END] + tail) == Some(Decoded(es[1..], tail))
    ensures DecodeEntries(PrintEntries(es) + [END] + tail) == Some(Decoded([es[0]] + es[1..], tail))
  {
    var rest := PrintEntries(es[1..]) + [END] + tail;
    PrintedEntriesSplit(es, tail);
    ConsumePrinted(es[0].key, PrintScalar(es[0].value) + rest);
    DecodePrintedScalar(es[0].value, rest);
    DecodeEntriesCons(PrintEntries(es) + [END] + tail, es[0].key, PrintScalar(es[0].value) + rest, es[0].value, rest,
                      es[1..], tail);
  }

  lemma {:induction false} DecodePrintedEntries(es: seq<Entry>, tail: Bytes)
    ensures DecodeEntries(PrintEntries(es) + [END] + tail) == Some(Decoded(es, tail))
  {
    if es == [] {
      Front([END], [], [], tail);
      assert PrintEntries(es) + [END] + tail == [END] + tail;
    } else {
      DecodePrintedEntries(es[1..], tail);
      EntriesStep(es, tail);
      assert es == [es[0]] + es[1..];
    }
  }

  lemma DecodePrintedDict(es: seq<Entry>, tail: Bytes)
    ensures DecodeItem(PrintDict(es) + tail) == Some(Decoded(Dict(es), tail))
  {
    HeadAndTail(DICT, PrintEntries(es), [END], tail);
    DecodePrintedEntries(es, tail);
  }

  lemma DecodePrintedItem(i: Item, tail: Bytes)
    ensures DecodeItem(PrintItem(i) + tail) == Some(Decoded(i, tail))
  {
    match i
    case Plain(s) =>
      assert (PrintScalar(s) + tail)[0] == PrintScalar(s)[0] != DICT;
      DecodePrintedScalar(s, tail);
    case Dict(es) =>
      DecodePrintedDict(es, tail);
  }

  lemma DecodeItemsCons(b: Bytes, x: Item, r: Bytes, xs: seq<Item>, tail: Bytes)
    requires b != [] && b[0] != END && |r| < |b|
    requires DecodeItem(b) == Some(Decoded(x, r)) && DecodeItems(r) == Some(Decoded(xs, tail))
    ensures DecodeItems(b) == Some(Decoded([x] + xs, tail))
  {
  }

  lemma PrintedItemsSplit(xs: seq<Item>, tail: Bytes)
    requires xs != []
    ensures var b, rest := PrintItems(xs) + [END] + tail, PrintItems(xs[1..]) + [END] + tail;
            b == PrintItem(xs[0]) + rest && b[0] != END && |rest| < |b|
  {
    Front(PrintItem(xs[0]), PrintItems(xs[1..]), [END], tail);
  }

  lemma {:induction false} DecodePrintedItems(xs: seq<Item>, tail: Bytes)
    ensures DecodeItems(PrintItems(xs) + [END] + tail) == Some(Decoded(xs, tail))
  {
    var b := PrintItems(xs) + [END] + tail;
    if xs == [] {
      assert b == [END] + tail && b[1..] == tail;
    } else {
      var rest := PrintItems(xs[1..]) + [END] + tail;
      PrintedItemsSplit(xs, tail);
      DecodePrintedItem(xs[0], rest);
      DecodePrintedItems(xs[1..], tail);
      DecodeItemsCons(b, xs[0], rest, xs[1..], tail);
      assert xs == [xs[0]] + xs[1..];
    }
  }

  /** Whatever follows a printed list, the decoder finds the same items and leaves the rest. */
  lemma DecodePrintedList(xs: seq<Item>, tail: Bytes)
    ensures DecodeItemList(PrintItemList(xs) + tail) == Some(Decoded(xs, tail))
  {
    HeadAndTail(LIST, PrintItems(xs), [END], tail);
    DecodePrintedItems(xs, tail);
  }

  // ----- widths -----

  lemma Widths()
    ensures forall n: nat {:trigger Dec(n)} :: n < 0x1_0000_0000_0000_0000 ==> |Dec(n)| <= 20
    ensures forall n: nat {:trigger Dec(n)} :: n <= 0x8000_0000_0000_0000 ==> |Dec(n)| <= 19
    ensures forall n: nat {:trigger Dec(n)} :: n < 100_000 ==> |Dec(n)| <= 5
    ensures forall n: nat {:trigger Dec(n)} :: n < 10_000 ==> |Dec(n)| <= 4
    ensures forall n: nat {:trigger Dec(n)} :: n < 1_000 ==> |Dec(n)| <= 3
    ensures forall n: nat {:trigger Dec(n)} :: n < 100 ==> |Dec(n)| <= 2
  {
    assert Pow10(2) == 100 && Pow10(3) == 1_000 && Pow10(4) == 10_000 && Pow10(5) == 100_000;
    assert Pow10(10) == 10_000_000_000 && Pow10(15) == 1_000_000_000_000_000;
    assert Pow10(19) == 10_000_000_000_000_000_000;
    assert Pow10(20) == 100_000_000_000_000_000_000;
    forall n: nat
      ensures n < 0x1_0000_0000_0000_0000 ==> |Dec(n)| <= 20
      ensures n <= 0x8000_0000_0000_0000 ==> |Dec(n)| <= 19
      ensures n < 100_000 ==> |Dec(n)| <= 5
      ensures n < 10_000 ==> |Dec(n)| <= 4
      ensures n < 1_000 ==> |Dec(n)| <= 3
      ensures n < 100 ==> |Dec(n)| <= 2
    {
      DecWidth(n, 20);
      DecWidth(n, 19);
      DecWidth(n, 5);
      DecWidth(n, 4);
      DecWidth(n, 3);
      DecWidth(n, 2);
    }
  }
}
