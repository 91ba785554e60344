/**
 The padded plaintext of a push notification (`encrypt_notify_payload` of
 spns/notifiers/util.py) and the size of what is finally sent.
 */
module PushPayload {
  import opened Common
  import opened Decimal
  import opened Bencode
  import opened BencodeItems

  const BLOCK: nat := 256
  const MAX_MSG_SIZE: int := 2500

  /** Section 2.8 of RFC 8439: a 16-byte tag; the extended-nonce variant's nonce has 24 bytes. */
  const NONCE_SIZE: nat := 24
  const TAG_SIZE: nat := 16

  /** The notifier's view of a message; `hash` is its (ASCII) hash, `body` is absent or the data. */
  datatype Notice = Notice(account: Bytes, hash: Bytes, ns: i16, timestamp: i64, expiry: i64, body: Option<Bytes>)

  predicate WellFormed(n: Notice) {
    |n.account| == 33 && (forall i :: 0 <= i < |n.hash| ==> n.hash[i] < 0x80)
  }

  // ----- the metadata -----

  const QUOTE: byte := 0x22
  const BACKSLASH: byte := 0x5C

  /** `json.dumps` of one ASCII character. */
  function JsonChar(c: byte): Bytes
    requires c < 0x80
  {
    if c == QUOTE || c == BACKSLASH then [BACKSLASH, c]
    else if c == 0x08 then [BACKSLASH, 0x62]
    else if c == 0x09 then [BACKSLASH, 0x74]
    else if c == 0x0A then [BACKSLASH, 0x6E]
    else if c == 0x0C then [BACKSLASH, 0x66]
    else if c == 0x0D then [BACKSLASH, 0x72]
    else if c < 0x20 || c == 0x7F then [BACKSLASH, 0x75, 0x30, 0x30, HexDigit(c as int / 16), HexDigit(c as int % 16)]
    else [c]
  }

  function JsonChars(s: Bytes): Bytes
    requires forall i :: 0 <= i < |s| ==> s[i] < 0x80
  {
    if s == [] then [] else JsonChar(s[0]) + JsonChars(s[1..])
  }

  function JsonString(s: Bytes): Bytes
    requires forall i :: 0 <= i < |s| ==> s[i] < 0x80
  {
    [QUOTE] + JsonChars(s) + [QUOTE]
  }

  /** A hash that JSON leaves alone. */
  predicate Unescaped(s: Bytes) {
    forall i :: 0 <= i < |s| ==> 0x20 <= s[i] < 0x7F && s[i] != QUOTE && s[i] != BACKSLASH
  }

  /** `, "k": ` between pairs, `"k": ` before the first. */
  function JsonKey(k: byte, first: bool): Bytes {
    (if first then [] else [COMMA, 0x20]) + [QUOTE, k, QUOTE, COLON, 0x20]
  }

  /** The account in hexadecimal, quoted. */
  function JsonHex(account: Bytes): Bytes {
    [QUOTE] + Hex(account) + [QUOTE]
  }

  /** A body longer than the limit is announced but not carried. */
  predicate TooBig(n: Notice, maxMsgSize: int) {
    n.body.Some? && n.body.value != [] && maxMsgSize >= 0 && |n.body.value| > maxMsgSize
  }

  /** The body that travels; an empty one counts as absent. */
  function Carried(n: Notice, maxMsgSize: int): Option<Bytes> {
    if n.body.Some? && n.body.value != [] && !TooBig(n, maxMsgSize) then n.body else None
  }

  function JsonSize(n: Notice): Bytes {
    if n.body.Some? && n.body.value != [] then JsonKey(0x6C, false) + Dec(|n.body.value|) else []
  }

  function JsonTooBig(n: Notice, maxMsgSize: int): Bytes {
    if TooBig(n, maxMsgSize) then JsonKey(0x42, false) + [0x74, 0x72, 0x75, 0x65] else []
  }

  function JsonNumbers(n: Notice): Bytes {
    JsonKey(0x6E, false) + DecInt(n.ns) + JsonKey(0x74, false) + DecInt(n.timestamp) + JsonKey(0x7A, false) + DecInt(n.expiry)
  }

  /** `json.dumps(metadata)`: keys in insertion order. */
  function MetadataJson(n: Notice, maxMsgSize: int): Bytes
    requires WellFormed(n)
  {
    [0x7B] + JsonKey(0x40, true) + JsonHex(n.account) + JsonKey(0x23, false) + JsonString(n.hash)
    + JsonNumbers(n) + JsonSize(n) + JsonTooBig(n, maxMsgSize) + [0x7D]
  }

  /** The same metadata as a dict with sorted keys, sent by APNs when there is no body. */
  function MetadataDict(n: Notice, maxMsgSize: int): seq<Entry> {
    [Entry([0x23], Text(n.hash)), Entry([0x40], Text(Hex(n.account)))]
    + (if TooBig(n, maxMsgSize) then [Entry([0x42], Number(1))] else [])
    + (if n.body.Some? && n.body.value != [] then [Entry([0x6C], Number(|n.body.value|))] else [])
    + [Entry([0x6E], Number(n.ns)), Entry([0x74], Number(n.timestamp)), Entry([0x7A], Number(n.expiry))]
  }

  // ----- the payload -----

  /** The bencoded list before padding; `hack` is `broken_nobody_hack`. */
  function Items(n: Notice, maxMsgSize: int, hack: bool): seq<Item>
    requires WellFormed(n)
  {
    var json := Plain(Text(MetadataJson(n, maxMsgSize)));
    match Carried(n, maxMsgSize)
    case Some(body) => [json, Plain(Text(body))]
    case None => if hack then [Dict(MetadataDict(n, maxMsgSize))] else [json]
  }

  function Zeros(k: nat): Bytes {
    seq(k, _ => 0)
  }

  /** The plaintext: padded with zero bytes to a whole number of blocks. */
  function Padded(payload: Bytes): Bytes {
    payload + Padding(payload)
  }

  function Padding(payload: Bytes): (z: Bytes)
    ensures |z| < BLOCK && forall i :: 0 <= i < |z| ==> z[i] == 0
  {
    var over := |payload| % BLOCK;
    if over != 0 then Zeros(BLOCK - over) else []
  }

  function Plaintext(n: Notice, maxMsgSize: int, hack: bool): Bytes
    requires WellFormed(n)
  {
    Padded(PrintItemList(Items(n, maxMsgSize, hack)))
  }

  /** Size of base64 with padding. */
  function Base64Size(n: nat): nat {
    (n + 2) / 3 * 4
  }

  /** Nonce, ciphertext and tag, base64-encoded by the notifier. */
  function EnvelopeSize(plaintext: Bytes): nat {
    Base64Size(NONCE_SIZE + |plaintext| + TAG_SIZE)
  }

  // ----- padding -----

  lemma PaddedSize(payload: Bytes)
    ensures |Padded(payload)| % BLOCK == 0
    ensures |payload| <= |Padded(payload)| < |payload| + BLOCK
  {
    var over := |payload| % BLOCK;
    if over != 0 {
      assert |payload| + (BLOCK - over) == BLOCK * (|payload| / BLOCK + 1);
    }
  }

  /** Whole blocks: padding up to a bound that is itself a whole number of blocks stays within it. */
  lemma PaddedWithin(payload: Bytes, blocks: nat)
    requires |payload| <= BLOCK * blocks
    ensures |Padded(payload)| <= BLOCK * blocks
  {
    PaddedSize(payload);
    var q := |Padded(payload)| / BLOCK;
    assert |Padded(payload)| == BLOCK * q;
  }

  /**
   The zero padding does not change what the list decodes to, for every message and mode: the
   decoder finds the same items and leaves exactly the padding.
   */
  lemma PaddingIsHarmless(n: Notice, maxMsgSize: int, hack: bool)
    requires WellFormed(n)
    ensures var xs := Items(n, maxMsgSize, hack);
            DecodeItemList(Plaintext(n, maxMsgSize, hack)) == Some(Decoded(xs, Padding(PrintItemList(xs))))
  {
    var xs := Items(n, maxMsgSize, hack);
    DecodePrintedList(xs, Padding(PrintItemList(xs)));
  }

  /**
   Exactly which bodies travel, and what else does: a non-empty body within the limit (any body when
   the limit is negative) is the second item; otherwise there is the metadata alone.
   */
  lemma BodyTravelsIff(n: Notice, maxMsgSize: int, hack: bool)
    requires WellFormed(n)
    ensures var d := DecodeItemList(Plaintext(n, maxMsgSize, hack));
            && d.Some?
            && d.value.value ==
               if n.body.Some? && |n.body.value| > 0 && (maxMsgSize < 0 || |n.body.value| <= maxMsgSize)
               then [Plain(Text(MetadataJson(n, maxMsgSize))), Plain(Text(n.body.value))]
               else [if hack then Dict(MetadataDict(n, maxMsgSize)) else Plain(Text(MetadataJson(n, maxMsgSize)))]
  {
    PaddingIsHarmless(n, maxMsgSize, hack);
  }

  /** `json` holds the value `v` under the one-character key `k`. */
  ghost predicate Holds(json: Bytes, k: byte, v: Bytes) {
    exists a: Bytes, b: Bytes :: json == a + ([0x22, k, 0x22, 0x3A, 0x20] + v) + b && b != [] && (b[0] == 0x2C || b[0] == 0x7D)
  }

  lemma HoldsAt(json: Bytes, k: byte, v: Bytes, a: Bytes, b: Bytes)
    requires json == a + ([QUOTE, k, QUOTE, COLON, 0x20] + v) + b && b != [] && (b[0] == COMMA || b[0] == 0x7D)
    ensures Holds(json, k, v)
  {
  }

  lemma KeyParts(k: byte)
    ensures JsonKey(k, true) == [QUOTE, k, QUOTE, COLON, 0x20]
    ensures JsonKey(k, false) == [COMMA, 0x20] + [QUOTE, k, QUOTE, COLON, 0x20]
  {
  }

  /** A field that is not the first one, wherever it stands. */
  lemma FieldHolds(a: Bytes, k: byte, v: Bytes, b: Bytes)
    requires b != [] && (b[0] == COMMA || b[0] == 0x7D)
    ensures Holds(a + (JsonKey(k, false) + v) + b, k, v)
  {
    KeyParts(k);
    assert a + (JsonKey(k, false) + v) + b == (a + [COMMA, 0x20]) + ([QUOTE, k, QUOTE, COLON, 0x20] + v) + b;
    HoldsAt(a + (JsonKey(k, false) + v) + b, k, v, a + [COMMA, 0x20], b);
  }

  lemma Ends(n: Notice, maxMsgSize: int)
    ensures var b := JsonSize(n) + JsonTooBig(n, maxMsgSize) + [0x7D]; b[0] == COMMA || b[0] == 0x7D
    ensures var b := JsonTooBig(n, maxMsgSize) + [0x7D]; b[0] == COMMA || b[0] == 0x7D
  {
  }

  lemma NineParts(a: Bytes, b: Bytes, c: Bytes, d: Bytes, e: Bytes, f: Bytes, g: Bytes, h: Bytes, i: Bytes)
    ensures a + b + c + d + e + f + g + h + i == a + (b + c) + ((d + e) + (f + (g + h + i)))
    ensures a + b + c + d + e + f + g + h + i == (a + b + c) + (d + e) + (f + (g + h + i))
    ensures a + b + c + d + e + f + g + h + i == (a + b + c + d + e) + f + (g + h + i)
    ensures a + b + c + d + e + f + g + h + i == (a + b + c + d + e + f) + g + (h + i)
    ensures a + b + c + d + e + f + g + h + i == (a + b + c + d + e + f + g) + h + i
  {
  }

  lemma SixParts(a: Bytes, b: Bytes, c: Bytes, d: Bytes, e: Bytes, f: Bytes)
    ensures a + b + c + d + e + f == (a + b) + (c + d) + (e + f)
  {
  }

  lemma FiveParts(a: Bytes, b: Bytes, c: Bytes, d: Bytes, e: Bytes)
    ensures a + (b + c + d) + e == a + b + (c + d + e)
    ensures a + (b + c + d) + e == (a + b) + c + (d + e)
    ensures a + (b + c + d) + e == (a + b + c) + d + e
  {
  }

  /** The parts of the metadata around each of its fields. */
  lemma MetadataParts(n: Notice, maxMsgSize: int)
    requires WellFormed(n)
    ensures var json, rest := MetadataJson(n, maxMsgSize), JsonSize(n) + JsonTooBig(n, maxMsgSize) + [0x7D];
            var front := [0x7B] + JsonKey(0x40, true) + JsonHex(n.account);
            var names := front + JsonKey(0x23, false) + JsonString(n.hash);
            && json == [0x7B] + (JsonKey(0x40, true) + JsonHex(n.account)) + ((JsonKey(0x23, false) + JsonString(n.hash)) + (JsonNumbers(n) + rest))
            && json == front + (JsonKey(0x23, false) + JsonString(n.hash)) + (JsonNumbers(n) + rest)
            && json == names + JsonNumbers(n) + rest
            && json == (names + JsonNumbers(n)) + JsonSize(n) + (JsonTooBig(n, maxMsgSize) + [0x7D])
            && json == (names + JsonNumbers(n) + JsonSize(n)) + JsonTooBig(n, maxMsgSize) + [0x7D]
  {
    NineParts([0x7B], JsonKey(0x40, true), JsonHex(n.account), JsonKey(0x23, false), JsonString(n.hash), JsonNumbers(n),
              JsonSize(n), JsonTooBig(n, maxMsgSize), [0x7D]);
  }

  lemma NumbersFirst(n: Notice, rest: Bytes)
    ensures (JsonNumbers(n) + rest)[0] == COMMA
  {
    KeyParts(0x6E);
  }

  /** The account stands under its key, at the front. */
  lemma MetadataAccount(n: Notice, maxMsgSize: int)
    requires WellFormed(n)
    ensures Holds(MetadataJson(n, maxMsgSize), 0x40, JsonHex(n.account))
  {
    var rest := JsonSize(n) + JsonTooBig(n, maxMsgSize) + [0x7D];
    MetadataParts(n, maxMsgSize);
    KeyParts(0x40);
    KeyParts(0x23);
    HoldsAt(MetadataJson(n, maxMsgSize), 0x40, JsonHex(n.account), [0x7B],
            (JsonKey(0x23, false) + JsonString(n.hash)) + (JsonNumbers(n) + rest));
  }

  /** The hash stands under its key. */
  lemma MetadataHash(n: Notice, maxMsgSize: int)
    requires WellFormed(n)
    ensures Holds(MetadataJson(n, maxMsgSize), 0x23, JsonString(n.hash))
  {
    var rest := JsonSize(n) + JsonTooBig(n, maxMsgSize) + [0x7D];
    MetadataParts(n, maxMsgSize);
    NumbersFirst(n, rest);
    FieldHolds([0x7B] + JsonKey(0x40, true) + JsonHex(n.account), 0x23, JsonString(n.hash), JsonNumbers(n) + rest);
  }

  /** Three fields in a row, wherever they stand. */
  lemma ThreeFieldsHold(a: Bytes, n: Notice, b: Bytes)
    requires b != [] && (b[0] == COMMA || b[0] == 0x7D)
    ensures Holds(a + JsonNumbers(n) + b, 0x6E, DecInt(n.ns))
    ensures Holds(a + JsonNumbers(n) + b, 0x74, DecInt(n.timestamp))
    ensures Holds(a + JsonNumbers(n) + b, 0x7A, DecInt(n.expiry))
  {
    var ns, ts, ex := JsonKey(0x6E, false) + DecInt(n.ns), JsonKey(0x74, false) + DecInt(n.timestamp), JsonKey(0x7A, false) + DecInt(n.expiry);
    SixParts(JsonKey(0x6E, false), DecInt(n.ns), JsonKey(0x74, false), DecInt(n.timestamp), JsonKey(0x7A, false), DecInt(n.expiry));
    FiveParts(a, ns, ts, ex, b);
    KeyParts(0x74);
    KeyParts(0x7A);
    FieldHolds(a, 0x6E, DecInt(n.ns), ts + ex + b);
    FieldHolds(a + ns, 0x74, DecInt(n.timestamp), ex + b);
    FieldHolds(a + ns + ts, 0x7A, DecInt(n.expiry), b);
  }

  /** The three numbers stand under their keys. */
  lemma MetadataNumbers(n: Notice, maxMsgSize: int)
    requires WellFormed(n)
    ensures Holds(MetadataJson(n, maxMsgSize), 0x6E, DecInt(n.ns))
    ensures Holds(MetadataJson(n, maxMsgSize), 0x74, DecInt(n.timestamp))
    ensures Holds(MetadataJson(n, maxMsgSize), 0x7A, DecInt(n.expiry))
  {
    MetadataParts(n, maxMsgSize);
    Ends(n, maxMsgSize);
    ThreeFieldsHold([0x7B] + JsonKey(0x40, true) + JsonHex(n.account) + JsonKey(0x23, false) + JsonString(n.hash), n,
                    JsonSize(n) + JsonTooBig(n, maxMsgSize) + [0x7D]);
  }

  /** So do the length of a body, and the mark of one that is too long to travel. */
  lemma MetadataAnnounces(n: Notice, maxMsgSize: int)
    requires WellFormed(n) && n.body.Some? && |n.body.value| > 0
    ensures Holds(MetadataJson(n, maxMsgSize), 0x6C, Dec(|n.body.value|))
    ensures 0 <= maxMsgSize < |n.body.value| ==> Holds(MetadataJson(n, maxMsgSize), 0x42, [0x74, 0x72, 0x75, 0x65])
  {
    var names := [0x7B] + JsonKey(0x40, true) + JsonHex(n.account) + JsonKey(0x23, false) + JsonString(n.hash);
    MetadataParts(n, maxMsgSize);
    Ends(n, maxMsgSize);
    FieldHolds(names + JsonNumbers(n), 0x6C, Dec(|n.body.value|), JsonTooBig(n, maxMsgSize) + [0x7D]);
    if TooBig(n, maxMsgSize) {
      FieldHolds(names + JsonNumbers(n) + JsonSize(n), 0x42, [0x74, 0x72, 0x75, 0x65], [0x7D]);
    }
  }

  /** Where everything stands in the JSON form of the metadata. */
  lemma MetadataFields(n: Notice, maxMsgSize: int)
    requires WellFormed(n)
    ensures var json := MetadataJson(n, maxMsgSize);
            && Holds(json, 0x40, JsonHex(n.account)) && Holds(json, 0x23, JsonString(n.hash))
            && Holds(json, 0x6E, DecInt(n.ns)) && Holds(json, 0x74, DecInt(n.timestamp)) && Holds(json, 0x7A, DecInt(n.expiry))
            && (n.body.Some? && |n.body.value| > 0 ==> Holds(json, 0x6C, Dec(|n.body.value|)))
            && (n.body.Some? && 0 <= maxMsgSize < |n.body.value| ==> Holds(json, 0x42, [0x74, 0x72, 0x75, 0x65]))
  {
    MetadataAccount(n, maxMsgSize);
    MetadataHash(n, maxMsgSize);
    MetadataNumbers(n, maxMsgSize);
    if n.body.Some? && |n.body.value| > 0 {
      MetadataAnnounces(n, maxMsgSize);
    }
  }

  function LengthEntry(n: Notice): seq<Entry> {
    if n.body.Some? && n.body.value != [] then [Entry([0x6C], Number(|n.body.value|))] else []
  }

  function TooBigEntry(n: Notice, maxMsgSize: int): seq<Entry> {
    if TooBig(n, maxMsgSize) then [Entry([0x42], Number(1))] else []
  }

  lemma DictLookup(n: Notice, maxMsgSize: int, k: Bytes)
    ensures var es := MetadataDict(n, maxMsgSize);
            Lookup(es, k) == Or(Or(Or(Lookup(es[..2], k), Lookup(TooBigEntry(n, maxMsgSize), k)), Lookup(LengthEntry(n), k)),
                                Lookup(es[|es| - 3..], k))
  {
    var es := MetadataDict(n, maxMsgSize);
    assert es == es[..2] + TooBigEntry(n, maxMsgSize) + LengthEntry(n) + es[|es| - 3..];
    LookupConcat(es[..2] + TooBigEntry(n, maxMsgSize) + LengthEntry(n), es[|es| - 3..], k);
    LookupConcat(es[..2] + TooBigEntry(n, maxMsgSize), LengthEntry(n), k);
    LookupConcat(es[..2], TooBigEntry(n, maxMsgSize), k);
  }

  /** The dict form: the same values under the same keys, and no other keys. */
  lemma DictFields(n: Notice, maxMsgSize: int, k: Bytes)
    ensures var body := n.body.Some? && |n.body.value| > 0;
            Lookup(MetadataDict(n, maxMsgSize), k) ==
            if k == [0x23] then Some(Text(n.hash))
            else if k == [0x40] then Some(Text(Hex(n.account)))
            else if k == [0x42] then (if body && 0 <= maxMsgSize < |n.body.value| then Some(Number(1)) else None)
            else if k == [0x6C] then (if body then Some(Number(|n.body.value|)) else None)
            else if k == [0x6E] then Some(Number(n.ns))
            else if k == [0x74] then Some(Number(n.timestamp))
            else if k == [0x7A] then Some(Number(n.expiry))
            else None
  {
    var es := MetadataDict(n, maxMsgSize);
    DictLookup(n, maxMsgSize, k);
    TwoEntries(es[0], es[1]);
    ThreeEntries(es[|es| - 3], es[|es| - 2], es[|es| - 1]);
    OptionalEntry(TooBigEntry(n, maxMsgSize));
    OptionalEntry(LengthEntry(n));
    assert es[..2] == [es[0], es[1]] && es[|es| - 3..] == [es[|es| - 3], es[|es| - 2], es[|es| - 1]];
  }

  // ----- reading JSON strings -----

  /** The characters between the quotes of a JSON string, as a JSON reader takes them. */
  function Unescape(b: Bytes): Option<Bytes>
    decreases |b|
  {
    if b == [] then Some([])
    else if b[0] != 0x5C then Before(b[0], Unescape(b[1..]))
    else if |b| < 2 then None
    else if b[1] == 0x22 || b[1] == 0x5C then Before(b[1], Unescape(b[2..]))
    else if b[1] == 0x62 then Before(8, Unescape(b[2..]))
    else if b[1] == 0x74 then Before(9, Unescape(b[2..]))
    else if b[1] == 0x6E then Before(10, Unescape(b[2..]))
    else if b[1] == 0x66 then Before(12, Unescape(b[2..]))
    else if b[1] == 0x72 then Before(13, Unescape(b[2..]))
    else if b[1] == 0x75 && |b| >= 6 && b[2] == 0x30 == b[3] && IsHexDigit(b[4]) && IsHexDigit(b[5]) then
      Before((HexValue(b[4]) * 16 + HexValue(b[5])) as byte, Unescape(b[6..]))
    else None
  }

  function Before(c: byte, rest: Option<Bytes>): Option<Bytes> {
    if rest.Some? then Some([c] + rest.value) else None
  }

  lemma UnescapePair(c: byte, e: byte, rest: Bytes)
    requires (c == e && (c == 0x22 || c == 0x5C)) || (c == 8 && e == 0x62) || (c == 9 && e == 0x74) || (c == 10 && e == 0x6E)
             || (c == 12 && e == 0x66) || (c == 13 && e == 0x72)
    ensures Unescape([0x5C, e] + rest) == Before(c, Unescape(rest))
  {
    assert ([0x5C, e] + rest)[2..] == rest;
  }

  lemma UnescapeHex(c: byte, rest: Bytes)
    requires c < 0x80
    ensures Unescape([0x5C, 0x75, 0x30, 0x30, HexDigit(c as int / 16), HexDigit(c as int % 16)] + rest) == Before(c, Unescape(rest))
  {
    var b := [0x5C, 0x75, 0x30, 0x30, HexDigit(c as int / 16), HexDigit(c as int % 16)];
    assert (b + rest)[6..] == rest;
    assert (b + rest)[4] == b[4] && (b + rest)[5] == b[5];
  }

  lemma UnescapePlain(c: byte, rest: Bytes)
    requires c != 0x5C
    ensures Unescape([c] + rest) == Before(c, Unescape(rest))
  {
    assert ([c] + rest)[1..] == rest;
  }

  lemma UnescapeChar(c: byte, rest: Bytes)
    requires c < 0x80
    ensures Unescape(JsonChar(c) + rest) == Before(c, Unescape(rest))
  {
    if c == QUOTE || c == BACKSLASH {
      UnescapePair(c, c, rest);
    } else if c == 0x08 {
      UnescapePair(c, 0x62, rest);
    } else if c == 0x09 {
      UnescapePair(c, 0x74, rest);
    } else if c == 0x0A {
      UnescapePair(c, 0x6E, rest);
    } else if c == 0x0C {
      UnescapePair(c, 0x66, rest);
    } else if c == 0x0D {
      UnescapePair(c, 0x72, rest);
    } else if c < 0x20 || c == 0x7F {
      UnescapeHex(c, rest);
    } else {
      UnescapePlain(c, rest);
    }
  }

  /** A JSON reader gets the hash back, whatever had to be escaped in it; and no bare quote ends it early. */
  lemma {:induction false} UnescapeString(s: Bytes)
    requires forall i :: 0 <= i < |s| ==> s[i] < 0x80
    ensures Unescape(JsonChars(s)) == Some(s)
  {
    if s != [] {
      UnescapeString(s[1..]);
      UnescapeChar(s[0], JsonChars(s[1..]));
      assert s == [s[0]] + s[1..];
    }
  }

  // ----- sizes -----

  lemma {:induction false} UnescapedIsVerbatim(s: Bytes)
    requires Unescaped(s)
    ensures JsonChars(s) == s
  {
    if s != [] {
      UnescapedIsVerbatim(s[1..]);
      assert s == [s[0]] + s[1..];
    }
  }

  lemma IntWidths(i: i64)
    ensures |DecInt(i)| <= 20
    ensures -0x8000 <= i < 0x8000 ==> |DecInt(i)| <= 6
  {
    Widths();
  }

  /** The metadata takes at most 250 characters plus what announces the body. */
  lemma MetadataSize(n: Notice, maxMsgSize: int)
    requires WellFormed(n) && |n.hash| <= 99 && Unescaped(n.hash)
    ensures |MetadataJson(n, maxMsgSize)| <= 250 + |JsonSize(n)| + |JsonTooBig(n, maxMsgSize)|
  {
    UnescapedIsVerbatim(n.hash);
    IntWidths(n.ns);
    IntWidths(n.timestamp);
    IntWidths(n.expiry);
  }

  lemma ListSize(meta: Bytes, body: Bytes)
    ensures |PrintItemList([Plain(Text(meta)), Plain(Text(body))])| == 2 + |PrintString(meta)| + |PrintString(body)|
    ensures |PrintItemList([Plain(Text(meta))])| == 2 + |PrintString(meta)|
  {
    var a, b := Plain(Text(meta)), Plain(Text(body));
    assert [a, b][1..] == [b] && [b][1..] == [] && [a][1..] == [];
    assert PrintItems([b]) == PrintItem(b) + PrintItems([]);
    assert PrintItems([a]) == PrintItem(a) + PrintItems([]);
    assert PrintItems([a, b]) == PrintItem(a) + PrintItems([b]);
  }

  /** With a body within the limit: at most eleven blocks. */
  lemma CarriedSize(n: Notice)
    requires WellFormed(n) && |n.hash| <= 99 && Unescaped(n.hash) && Carried(n, MAX_MSG_SIZE).Some?
    ensures |PrintItemList([Plain(Text(MetadataJson(n, MAX_MSG_SIZE))), Plain(Text(n.body.value))])| <= 2816
  {
    var meta := MetadataJson(n, MAX_MSG_SIZE);
    MetadataSize(n, MAX_MSG_SIZE);
    Widths();
    ListSize(meta, n.body.value);
    assert |JsonSize(n)| <= 11;
    assert |meta| < 1_000;
  }

  /** Without one, JSON metadata: at most two blocks. */
  lemma BodylessSize(n: Notice)
    requires WellFormed(n) && |n.hash| <= 99 && Unescaped(n.hash)
    requires n.body.Some? ==> |n.body.value| < TWO_64
    ensures |PrintItemList([Plain(Text(MetadataJson(n, MAX_MSG_SIZE)))])| <= 512
  {
    var meta := MetadataJson(n, MAX_MSG_SIZE);
    MetadataSize(n, MAX_MSG_SIZE);
    Widths();
    ListSize(meta, []);
    assert |JsonSize(n)| <= 27 && |JsonTooBig(n, MAX_MSG_SIZE)| <= 11;
    assert |meta| < 1_000;
  }

  lemma PrintEntriesTextBound(k: byte, t: Bytes)
    requires |t| <= 99
    ensures |PrintString([k]) + PrintScalar(Text(t))| <= 3 + 3 + |t|
  {
    Widths();
    assert |Dec(1)| == 1;
  }

  lemma PrintEntriesNumberBound(k: byte, i: int)
    requires -TWO_64 < i < TWO_64
    ensures |PrintString([k]) + PrintScalar(Number(i))| <= 3 + 23
  {
    Widths();
    assert |Dec(1)| == 1;
  }

  lemma {:induction false} NumberEntriesBound(es: seq<Entry>)
    requires forall i :: 0 <= i < |es| ==> |es[i].key| == 1 && es[i].value.Number? && -TWO_64 < es[i].value.n < TWO_64
    ensures |PrintEntries(es)| <= 26 * |es|
  {
    if es != [] {
      assert es[0].key == [es[0].key[0]];
      PrintEntriesNumberBound(es[0].key[0], es[0].value.n);
      NumberEntriesBound(es[1..]);
    }
  }

  lemma PrintEntriesCons(e: Entry, es: seq<Entry>)
    ensures PrintEntries([e] + es) == PrintString(e.key) + PrintScalar(e.value) + PrintEntries(es)
  {
    assert ([e] + es)[1..] == es;
  }

  lemma EntriesSize(a: Entry, b: Entry, numbers: seq<Entry>)
    requires |a.key| == 1 && a.value.Text? && |a.value.bytes| <= 99
    requires |b.key| == 1 && b.value.Text? && |b.value.bytes| <= 99
    requires forall i :: 0 <= i < |numbers| ==>
               |numbers[i].key| == 1 && numbers[i].value.Number? && -TWO_64 < numbers[i].value.n < TWO_64
    ensures |PrintEntries([a] + ([b] + numbers))| <= 210 + 26 * |numbers|
  {
    PrintEntriesCons(a, [b] + numbers);
    PrintEntriesCons(b, numbers);
    assert a.key == [a.key[0]] && b.key == [b.key[0]];
    PrintEntriesTextBound(a.key[0], a.value.bytes);
    PrintEntriesTextBound(b.key[0], b.value.bytes);
    NumberEntriesBound(numbers);
  }

  /** The APNs dict form: at most two blocks as well. */
  lemma DictSize(n: Notice)
    requires WellFormed(n) && |n.hash| <= 99
    requires n.body.Some? ==> |n.body.value| < TWO_64
    ensures |PrintItemList([Dict(MetadataDict(n, MAX_MSG_SIZE))])| <= 512
  {
    var es := MetadataDict(n, MAX_MSG_SIZE);
    EntriesSize(es[0], es[1], es[2..]);
    assert es == [es[0]] + ([es[1]] + es[2..]);
    var d := Dict(es);
    assert [d][1..] == [];
    assert PrintItems([d]) == PrintItem(d) + PrintItems([]);
  }

  lemma ItemsSize(n: Notice, hack: bool)
    requires WellFormed(n) && |n.hash| <= 99 && Unescaped(n.hash)
    requires n.body.Some? ==> |n.body.value| < TWO_64
    ensures |PrintItemList(Items(n, MAX_MSG_SIZE, hack))| <= if Carried(n, MAX_MSG_SIZE).Some? then 2816 else 512
  {
    if Carried(n, MAX_MSG_SIZE).Some? {
      CarriedSize(n);
    } else if hack {
      DictSize(n);
    } else {
      BodylessSize(n);
    }
  }

  /** What is sent: 40 bytes more than the plaintext, in base64. */
  lemma EnvelopeIs(plaintext: Bytes)
    ensures EnvelopeSize(plaintext) == (|plaintext| + 42) / 3 * 4
    ensures |plaintext| <= 2816 ==> EnvelopeSize(plaintext) <= 3808
  {
    assert NONCE_SIZE + |plaintext| + TAG_SIZE + 2 == |plaintext| + 42;
  }

  lemma PaddedBound(payload: Bytes, blocks: nat)
    requires |payload| <= 256 * blocks
    ensures |Padded(payload)| % 256 == 0 && |Padded(payload)| <= 256 * blocks
  {
    PaddedSize(payload);
    PaddedWithin(payload, blocks);
  }

  /** Whole blocks, at most `max` bytes, and at most 3808 characters in base64 with nonce and tag. */
  predicate Fits(p: Bytes, max: nat) {
    |p| % 256 == 0 && |p| <= max && EnvelopeSize(p) == (|p| + 42) / 3 * 4 && EnvelopeSize(p) <= 3808
  }

  lemma BoundsFrom(payload: Bytes, carried: bool)
    requires |payload| <= if carried then 2816 else 512
    ensures Fits(Padded(payload), if carried then 2816 else 512)
  {
    PaddedBound(payload, if carried then 11 else 2);
    EnvelopeIs(Padded(payload));
  }

  /**
   For every message whose hash has at most 99 unescaped ASCII characters, with the notifiers'
   limit and in either mode: whole blocks, at most 2816 bytes, at most 3808 characters sent.
   */
  lemma PlaintextBound(n: Notice, hack: bool)
    requires WellFormed(n) && |n.hash| <= 99 && Unescaped(n.hash)
    requires n.body.Some? ==> |n.body.value| < TWO_64
    ensures Fits(Plaintext(n, 2500, hack), if Carried(n, 2500).Some? then 2816 else 512)
  {
    ItemsSize(n, hack);
    BoundsFrom(PrintItemList(Items(n, MAX_MSG_SIZE, hack)), Carried(n, MAX_MSG_SIZE).Some?);
  }

  /** The construction as the source performs it, by updating the body and extending the payload. */
  method BuildPlaintext(n: Notice, maxMsgSize: int, hack: bool) returns (payload: Bytes)
    requires WellFormed(n)
    ensures payload == Plaintext(n, maxMsgSize, hack)
  {
    var body := n.body;
    if body.Some? && body.value != [] {
      if maxMsgSize >= 0 && |body.value| > maxMsgSize {
        body := None;
      }
    }
    var json := Plain(Text(MetadataJson(n, maxMsgSize)));
    if body.Some? && body.value != [] {
      payload := PrintItemList([json, Plain(Text(body.value))]);
    } else if hack {
      payload := PrintItemList([Dict(MetadataDict(n, maxMsgSize))]);
    } else {
      payload := PrintItemList([json]);
    }
    assert payload == PrintItemList(Items(n, maxMsgSize, hack));
    payload := PadPayload(payload);
  }

  /** `payload += b"\0" * (256 - over)`. */
  method PadPayload(payload: Bytes) returns (padded: Bytes)
    ensures padded == Padded(payload)
  {
    padded := payload;
    var over := |payload| % BLOCK;
    if over != 0 {
      padded := padded + Zeros(BLOCK - over);
    } else {
      assert payload + [] == payload;
    }
  }
}
