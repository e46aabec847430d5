/**
 * The webhook signature (packages/purse-sdk/src/webhooks.ts): the header both sides agree
 * on, the comparison that does not say how close a guess was, and the check as a whole.
 */
module Webhooks {
  import opened Common
  import opened Texts
  import Utf8

  const EQUALS: Unit := 61
  const LETTER_T: Unit := 116
  const SIGNATURE_SCHEME: Text := [118, 49]
  const HEADER_MAX: nat := 4096

  // ---- Bits --------------------------------------------------------------------------

  /** Exclusive or, bit by bit. */
  function Xor(a: nat, b: nat): nat {
    if a == 0 && b == 0 then 0 else 2 * Xor(a / 2, b / 2) + if a % 2 != b % 2 then 1 else 0
  }

  function Or(a: nat, b: nat): nat {
    if a == 0 && b == 0 then 0 else 2 * Or(a / 2, b / 2) + if a % 2 == 1 || b % 2 == 1 then 1 else 0
  }

  lemma {:induction false} XorZero(a: nat, b: nat)
    ensures Xor(a, b) == 0 <==> a == b
  {
    if a != 0 || b != 0 {
      XorZero(a / 2, b / 2);
    }
  }

  lemma {:induction false} OrZero(a: nat, b: nat)
    ensures Or(a, b) == 0 <==> a == 0 && b == 0
  {
    if a != 0 || b != 0 {
      OrZero(a / 2, b / 2);
    }
  }

  // ---- The comparison ----------------------------------------------------------------

  /** The byte of `given` compared with place `i`, wrapped round; zero when there are none. */
  function Against(given: seq<Byte>, i: nat): nat {
    if given == [] then 0 else given[i % |given|] as nat
  }

  /**
   * `constantTimeEqual`: differences are collected, never acted on, and the verdict is
   * equality of the two byte strings, whatever their lengths.
   */
  method ConstantTimeEqual(expected: seq<Byte>, given: seq<Byte>) returns (equal: bool)
    ensures equal <==> expected == given
  {
    var diff := Xor(|expected|, |given|);
    XorZero(|expected|, |given|);
    for i := 0 to |expected|
      invariant diff == 0 <==> |expected| == |given| && forall j | 0 <= j < i :: expected[j] as nat == Against(given, j)
    {
      var bit := Xor(expected[i] as nat, Against(given, i));
      XorZero(expected[i] as nat, Against(given, i));
      OrZero(diff, bit);
      diff := Or(diff, bit);
    }
    if |expected| == |given| {
      Unwrapped(expected, given);
    }
    return diff == 0;
  }

  /** At equal lengths nothing wraps. */
  lemma {:induction false} Unwrapped(expected: seq<Byte>, given: seq<Byte>)
    requires |expected| == |given|
    ensures (forall j | 0 <= j < |expected| :: expected[j] as nat == Against(given, j)) <==> expected == given
  {
    forall j | 0 <= j < |expected| ensures Against(given, j) == given[j] as nat {
    }
  }

  // ---- The header --------------------------------------------------------------------

  /** `JavaScript` white space and line terminators. */
  predicate Space(u: Unit) {
    || 9 <= u <= 13 || u == 32 || u == 160 || u == 0x1680 || 0x2000 <= u <= 0x200a
    || u == 0x2028 || u == 0x2029 || u == 0x202f || u == 0x205f || u == 0x3000 || u == 0xfeff
  }

  function TrimStart(t: Text): Text {
    if t != [] && Space(t[0]) then TrimStart(t[1..]) else t
  }

  function TrimEnd(t: Text): Text {
    if t != [] && Space(t[|t| - 1]) then TrimEnd(t[..|t| - 1]) else t
  }

  function Trim(t: Text): Text {
    TrimEnd(TrimStart(t))
  }

  /** Where a unit first stands, or the length. */
  function IndexOf(t: Text, u: Unit): (i: nat)
    ensures i <= |t| && (i < |t| ==> t[i] == u) && forall j | 0 <= j < i :: t[j] != u
  {
    if t == [] || t[0] == u then 0 else 1 + IndexOf(t[1..], u)
  }

  /** `split(',')`: one part more than there are commas. */
  function Split(t: Text): (parts: seq<Text>)
    ensures parts != [] && forall p | p in parts :: COMMA !in p
    decreases |t|
  {
    var i := IndexOf(t, COMMA);
    if i == |t| then [t] else [t[..i]] + Split(t[i + 1..])
  }

  predicate HexUnit(u: Unit) {
    Digit(u) || 97 <= u <= 102
  }

  /** Sixty-four lower-case hex digits. */
  predicate SignatureShape(t: Text) {
    |t| == 64 && forall i | 0 <= i < |t| :: HexUnit(t[i])
  }

  /** One to twelve digits. */
  predicate TimestampShape(t: Text) {
    1 <= |t| <= 12 && forall i | 0 <= i < |t| :: Digit(t[i])
  }

  datatype Fields = Fields(timestamp: Option<nat>, signatures: seq<Text>)

  datatype Parsed = Parsed(timestamp: nat, signatures: seq<Text>)

  lemma {:induction false} DecimalNonNegative(t: Text)
    requires forall i | 0 <= i < |t| :: Digit(t[i])
    ensures Decimal(t) >= 0
  {
    if t != [] {
      DecimalNonNegative(t[..|t| - 1]);
    }
  }

  function PartName(part: Text): Text {
    Trim(part[..IndexOf(part, EQUALS)])
  }

  function PartValue(part: Text): Text
    requires IndexOf(part, EQUALS) < |part|
  {
    Trim(part[IndexOf(part, EQUALS) + 1..])
  }

  /**
   * One part taken in; a part without a name, a second or misshapen timestamp, a misshapen
   * signature refuses the header.
   */
  function Absorb(so: Fields, part: Text): Option<Fields> {
    var eq := IndexOf(part, EQUALS);
    if eq == 0 || eq == |part| then None
    else if PartName(part) == [LETTER_T] then
      if so.timestamp.Some? || !TimestampShape(PartValue(part)) then None
      else
        DecimalNonNegative(PartValue(part));
        Some(so.(timestamp := Some(Decimal(PartValue(part)))))
    else if PartName(part) == SIGNATURE_SCHEME then
      if !SignatureShape(PartValue(part)) then None else Some(so.(signatures := so.signatures + [PartValue(part)]))
    else Some(so)
  }

  function AbsorbAll(so: Fields, parts: seq<Text>): Option<Fields>
    decreases parts
  {
    if parts == [] then Some(so)
    else
      match Absorb(so, parts[0])
      case None => None
      case Some(more) => AbsorbAll(more, parts[1..])
  }

  function Finish(fields: Option<Fields>): Option<Parsed> {
    if fields.None? || fields.value.timestamp.None? || fields.value.signatures == [] then None
    else Some(Parsed(fields.value.timestamp.value, fields.value.signatures))
  }

  function ParseHeader(header: Text): Option<Parsed> {
    if |header| == 0 || |header| > HEADER_MAX then None else Finish(AbsorbAll(Fields(None, []), Split(header)))
  }

  /** `parseSignatureHeader`: part by part, stopping at the first that cannot be. */
  method ParseSignatureHeader(header: Option<Text>) returns (parsed: Option<Parsed>)
    ensures parsed == if header.None? then None else ParseHeader(header.value)
  {
    if header.None? || |header.value| == 0 || |header.value| > HEADER_MAX {
      return None;
    }
    var parts := Split(header.value);
    var timestamp: Option<nat> := None;
    var signatures: seq<Text> := [];
    for i := 0 to |parts|
      invariant AbsorbAll(Fields(None, []), parts) == AbsorbAll(Fields(timestamp, signatures), parts[i..])
    {
      var part := parts[i];
      assert parts[i..][0] == part && parts[i..][1..] == parts[i + 1..];
      var eq := IndexOf(part, EQUALS);
      if eq == 0 || eq == |part| {
        return None;
      }
      var name, value := Trim(part[..eq]), Trim(part[eq + 1..]);
      if name == [LETTER_T] {
        if timestamp.Some? || !TimestampShape(value) {
          return None;
        }
        DecimalNonNegative(value);
        timestamp := Some(Decimal(value));
      } else if name == SIGNATURE_SCHEME {
        if !SignatureShape(value) {
          return None;
        }
        signatures := signatures + [value];
      }
    }
    if timestamp.None? || signatures == [] {
      return None;
    }
    return Some(Parsed(timestamp.value, signatures));
  }

  // ---- Signing and verifying ---------------------------------------------------------

  const DOT: Unit := 46

  function Join(parts: seq<Text>): Text {
    if parts == [] then [] else if |parts| == 1 then parts[0] else parts[0] + [COMMA] + Join(parts[1..])
  }

  function TimestampPart(timestamp: nat): Text {
    [LETTER_T, EQUALS] + Digits(timestamp)
  }

  function SignaturePart(signature: Text): Text {
    SIGNATURE_SCHEME + [EQUALS] + signature
  }

  function SignedText(timestamp: nat, body: Text): Text {
    Digits(timestamp) + [DOT] + body
  }

  /** The header `signWebhook` sends. */
  function Header(timestamp: nat, signature: Text): Text {
    Join([TimestampPart(timestamp), SignaturePart(signature)])
  }

  datatype Failure = MalformedHeader | TimestampOutOfWindow | SignatureMismatch

  function Distance(a: int, b: int): int {
    if a < b then b - a else a - b
  }

  /**
   * `verifyWebhook`: accepted exactly when the header parses, its time is within the
   * tolerance, and some candidate is the keyed hash of the time and body. Every candidate
   * is compared, whatever came before it.
   */
  method VerifyWebhook(body: Text, header: Option<Text>, hmac: Text -> Text, nowSeconds: int, tolerance: int)
      returns (r: Result<nat, Failure>)
    requires forall payload :: SignatureShape(hmac(payload))
    ensures var parsed := if header.None? then None else ParseHeader(header.value);
      r == if parsed.None? then Err(MalformedHeader)
           else if nowSeconds - parsed.value.timestamp > tolerance || parsed.value.timestamp - nowSeconds > tolerance
             then Err(TimestampOutOfWindow)
           else if hmac(SignedText(parsed.value.timestamp, body)) in parsed.value.signatures
             then Ok(parsed.value.timestamp)
           else Err(SignatureMismatch)
  {
    var parsed := ParseSignatureHeader(header);
    if parsed.None? {
      return Err(MalformedHeader);
    }
    if Distance(nowSeconds, parsed.value.timestamp) > tolerance {
      return Err(TimestampOutOfWindow);
    }
    var expected := hmac(SignedText(parsed.value.timestamp, body));
    var signatures := parsed.value.signatures;
    ParsedShapes(header.value);
    var matched := false;
    for i := 0 to |signatures|
      invariant matched <==> expected in signatures[..i]
    {
      assert signatures[i] in signatures;
      var same := ConstantTimeEqual(Utf8.Encode(expected), Utf8.Encode(signatures[i]));
      SameEncoded(expected, signatures[i]);
      assert signatures[..i + 1] == signatures[..i] + [signatures[i]];
      matched := same || matched;
    }
    assert signatures[..|signatures|] == signatures;
    return if matched then Ok(parsed.value.timestamp) else Err(SignatureMismatch);
  }

  lemma {:induction false} SameEncoded(a: Text, b: Text)
    requires SignatureShape(a) && SignatureShape(b)
    ensures Utf8.Encode(a) == Utf8.Encode(b) <==> a == b
  {
    Utf8.PlainUnits(a);
    Utf8.PlainUnits(b);
    if Utf8.Encode(a) == Utf8.Encode(b) {
      Utf8.EncodeInjective(a, b);
    }
  }

  lemma {:induction false} AbsorbedShapes(so: Fields, parts: seq<Text>)
    requires forall s | s in so.signatures :: SignatureShape(s)
    ensures AbsorbAll(so, parts).Some? ==> forall s | s in AbsorbAll(so, parts).value.signatures :: SignatureShape(s)
    decreases parts
  {
    if parts != [] && Absorb(so, parts[0]).Some? {
      AbsorbedShapes(Absorb(so, parts[0]).value, parts[1..]);
    }
  }

  lemma {:induction false} ParsedShapes(header: Text)
    requires ParseHeader(header).Some?
    ensures forall s | s in ParseHeader(header).value.signatures :: SignatureShape(s)
  {
    AbsorbedShapes(Fields(None, []), Split(header));
  }
}
