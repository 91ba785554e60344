/**
 Bencoded byte strings and lists of them: the parser and the response builder of
 spns/onion_request.py.
 */
module Bencode {
  import opened Common
  import opened Decimal

  const COLON: byte := 0x3A
  const LIST: byte := 0x6C
  const END: byte := 0x65

  /** `N:` followed by the N bytes. */
  function PrintString(s: Bytes): (r: Bytes)
    ensures |r| == |Dec(|s|)| + 1 + |s| && IsDigit(r[0])
  {
    Dec(|s|) + [COLON] + s
  }

  // ----- bencode_consume_string -----

  /** The length of the run of digits at the front. */
  function DigitRun(body: Bytes): (n: nat)
    ensures n <= |body| && AllDigits(body[..n])
    ensures n < |body| ==> !IsDigit(body[n])
  {
    if body == [] || !IsDigit(body[0]) then 0
    else
      var n := 1 + DigitRun(body[1..]);
      assert forall i :: 1 <= i < n ==> body[i] == body[1..][..n - 1][i - 1];
      n
  }

  datatype Parsed = Parsed(text: Bytes, rest: Bytes)

  /** `Err` stands for ValueError. */
  function ConsumeString(body: Bytes): Result<Parsed> {
    var n := DigitRun(body);
    if n == 0 || n >= |body| || body[n] != COLON then Err("did not find `N:` length prefix")
    else
      var len := Value(body[..n]);
      if n + 1 + len > |body| then Err("length exceeds buffer")
      else Ok(Parsed(body[n + 1..n + 1 + len], body[n + 1 + len..]))
  }

  /** `digits : text rest`, where the digits denote the length of the text. */
  ghost predicate Splits(body: Bytes, digits: Bytes, text: Bytes, rest: Bytes) {
    digits != [] && AllDigits(digits) && Value(digits) == |text| && body == digits + [COLON] + text + rest
  }

  lemma {:induction false} DigitRunOf(digits: Bytes, tail: Bytes)
    requires AllDigits(digits)
    ensures DigitRun(digits + [COLON] + tail) == |digits|
  {
    var body := digits + [COLON] + tail;
    if digits == [] {
      assert body[0] == COLON;
    } else {
      assert body[0] == digits[0];
      assert body[1..] == digits[1..] + [COLON] + tail;
      DigitRunOf(digits[1..], tail);
    }
  }

  /**
   The parser accepts exactly the bodies of that shape, and returns exactly that split: sound,
   complete and deterministic (leading zeros in the length are accepted).
   */
  lemma ConsumeIffSplits(body: Bytes, text: Bytes, rest: Bytes)
    ensures ConsumeString(body) == Ok(Parsed(text, rest)) <==> exists digits :: Splits(body, digits, text, rest)
  {
    if digits :| Splits(body, digits, text, rest) {
      var n := |digits|;
      assert body == digits + [COLON] + (text + rest);
      DigitRunOf(digits, text + rest);
      assert body[..n] == digits && body[n] == COLON;
      assert body[n + 1..n + 1 + |text|] == text;
      assert body[n + 1 + |text|..] == rest;
    }
    if ConsumeString(body) == Ok(Parsed(text, rest)) {
      var n := DigitRun(body);
      assert body == body[..n] + [COLON] + text + rest;
      assert Splits(body, body[..n], text, rest);
    }
  }

  /** Round trip: a printed string followed by anything is read back with that remainder. */
  lemma ConsumePrinted(s: Bytes, rest: Bytes)
    ensures ConsumeString(PrintString(s) + rest) == Ok(Parsed(s, rest))
  {
    assert Splits(PrintString(s) + rest, Dec(|s|), s, rest);
    ConsumeIffSplits(PrintString(s) + rest, s, rest);
  }

  method ConsumeStringLoop(body: Bytes) returns (r: Result<Parsed>)
    ensures r == ConsumeString(body)
  {
    var pos := 0;
    while pos < |body| && IsDigit(body[pos])
      invariant 0 <= pos <= |body|
      invariant DigitRun(body) == pos + DigitRun(body[pos..])
    {
      assert body[pos..][1..] == body[pos + 1..];
      pos := pos + 1;
    }
    if pos == 0 || pos >= |body| || body[pos] != COLON {
      return Err("did not find `N:` length prefix");
    }
    var len := Value(body[..pos]);
    pos := pos + 1;
    if pos + len > |body| {
      return Err("length exceeds buffer");
    }
    return Ok(Parsed(body[pos..pos + len], body[pos + len..]));
  }

  // ----- the request list and the response -----

  datatype Request = Request(meta: Bytes, body: Bytes)

  /** The list part of `handle_v4_onionreq_plaintext`; `Err` is any of its exceptions. */
  function ParseRequest(b: Bytes): Result<Request> {
    if b == [] || b[0] != LIST || b[|b| - 1] != END then Err("expected bencoded list")
    else
      match ConsumeString(b[1..|b| - 1])
      case Err(e) => Err(e)
      case Ok(first) =>
        if |first.rest| > 1 then
          match ConsumeString(first.rest)
          case Err(e) => Err(e)
          case Ok(second) => if second.rest != [] then Err("found more than 2 parts") else Ok(Request(first.text, second.text))
        else Ok(Request(first.text, []))
  }

  /** The final join of the response. */
  function BuildResponse(meta: Bytes, data: Bytes): Bytes {
    [LIST] + Dec(|meta|) + [COLON] + meta + Dec(|data|) + [COLON] + data + [END]
  }

  /** The request parser reads back what the response builder writes, the empty body included. */
  lemma ParseBuilt(meta: Bytes, data: Bytes)
    ensures ParseRequest(BuildResponse(meta, data)) == Ok(Request(meta, data))
  {
    var b := BuildResponse(meta, data);
    assert b[1..|b| - 1] == PrintString(meta) + PrintString(data);
    ConsumePrinted(meta, PrintString(data));
    ConsumePrinted(data, []);
    assert PrintString(data) + [] == PrintString(data);
  }

  /**
   Exactly what the request parser accepts: after the metadata string either a whole second
   string, or at most one byte, which is ignored whatever it is.
   */
  ghost predicate RequestShape(inner: Bytes, r: Request) {
    exists d1, rest :: Splits(inner, d1, r.meta, rest) && BodyShape(rest, r.body)
  }

  ghost predicate BodyShape(rest: Bytes, body: Bytes) {
    if |rest| > 1 then exists d2 :: Splits(rest, d2, body, []) else body == []
  }

  lemma ParseIffShape(b: Bytes, r: Request)
    ensures ParseRequest(b) == Ok(r) <==>
            |b| >= 2 && b[0] == 0x6C && b[|b| - 1] == 0x65 && RequestShape(b[1..|b| - 1], r)
  {
    if |b| >= 2 && b[0] == LIST && b[|b| - 1] == END {
      var inner := b[1..|b| - 1];
      if d1, rest :| Splits(inner, d1, r.meta, rest) && BodyShape(rest, r.body) {
        ConsumeIffSplits(inner, r.meta, rest);
        ConsumeIffSplits(rest, r.body, []);
      }
      if ParseRequest(b) == Ok(r) {
        var first := ConsumeString(inner).value;
        ConsumeIffSplits(inner, first.text, first.rest);
        ConsumeIffSplits(first.rest, r.body, []);
        assert BodyShape(first.rest, r.body);
      }
    }
  }
}
