/** Parsing undoes signing, and what a receiver does not know does not matter. */
module WebhookTheorems {
  import opened Common
  import opened Texts
  import opened Webhooks

  // ---- Parts come back ---------------------------------------------------------------

  lemma {:induction false} IndexAfter(t: Text, u: Unit, rest: Text)
    requires u !in t
    ensures IndexOf(t + [u] + rest, u) == |t|
    ensures IndexOf(t, u) == |t|
  {
    if t != [] {
      assert (t + [u] + rest)[1..] == t[1..] + [u] + rest;
      IndexAfter(t[1..], u, rest);
    }
  }

  lemma {:induction false} SplitFirst(first: Text, rest: Text)
    requires COMMA !in first
    ensures Split(first + [COMMA] + rest) == [first] + Split(rest)
  {
    var t := first + [COMMA] + rest;
    IndexAfter(first, COMMA, rest);
    assert t[..|first|] == first && t[|first| + 1..] == rest;
  }

  /** Splitting undoes joining. */
  lemma {:induction false} SplitJoin(parts: seq<Text>)
    requires parts != [] && forall p | p in parts :: COMMA !in p
    ensures Split(Join(parts)) == parts
  {
    if |parts| == 1 {
      IndexAfter(parts[0], COMMA, []);
    } else {
      SplitJoin(parts[1..]);
      SplitFirst(parts[0], Join(parts[1..]));
    }
  }

  /** A name and a value that need no trimming. */
  lemma {:induction false} Trimmed(t: Text)
    requires t == [] || (!Space(t[0]) && !Space(t[|t| - 1]))
    ensures Trim(t) == t
  {
  }

  lemma {:induction false} PartOf(name: Text, value: Text)
    requires name != [] && EQUALS !in name
    requires !Space(name[0]) && !Space(name[|name| - 1])
    requires value != [] && !Space(value[0]) && !Space(value[|value| - 1])
    ensures var part := name + [EQUALS] + value;
      && IndexOf(part, EQUALS) == |name| < |part| && PartName(part) == name && PartValue(part) == value
  {
    var part := name + [EQUALS] + value;
    IndexAfter(name, EQUALS, value);
    assert part[..|name|] == name && part[|name| + 1..] == value;
    Trimmed(name);
    Trimmed(value);
  }

  lemma {:induction false} TimestampShaped(timestamp: nat)
    ensures COMMA !in TimestampPart(timestamp)
    ensures TimestampShape(Digits(timestamp)) <==> timestamp < TenTo(12)
  {
    DigitsAre(timestamp);
    DigitsLength(timestamp, 12);
  }

  lemma {:induction false} TimestampAbsorbed(timestamp: nat, signatures: seq<Text>)
    ensures COMMA !in TimestampPart(timestamp)
    ensures Absorb(Fields(None, signatures), TimestampPart(timestamp))
         == if timestamp < TenTo(12) then Some(Fields(Some(timestamp), signatures)) else None
  {
    var digits := Digits(timestamp);
    TimestampShaped(timestamp);
    DigitsAre(timestamp);
    NamedPart([LETTER_T], digits, TimestampPart(timestamp));
  }

  /** A name of one or two letters, an equals sign and an unspaced value. */
  lemma {:induction false} NamedPart(name: Text, value: Text, part: Text)
    requires part == name + [EQUALS] + value && (name == [LETTER_T] || name == SIGNATURE_SCHEME)
    requires value != [] && !Space(value[0]) && !Space(value[|value| - 1])
    ensures 0 < IndexOf(part, EQUALS) < |part| && PartName(part) == name && PartValue(part) == value
  {
    PartOf(name, value);
  }

  lemma {:induction false} SignatureAbsorbed(so: Fields, signature: Text)
    requires SignatureShape(signature)
    ensures COMMA !in SignaturePart(signature)
    ensures Absorb(so, SignaturePart(signature)) == Some(so.(signatures := so.signatures + [signature]))
  {
    NamedPart(SIGNATURE_SCHEME, signature, SignaturePart(signature));
  }

  function SignatureParts(signatures: seq<Text>): (parts: seq<Text>)
    ensures |parts| == |signatures|
  {
    seq(|signatures|, i requires 0 <= i < |signatures| => SignaturePart(signatures[i]))
  }

  lemma {:induction false} SignaturesAbsorbed(so: Fields, signatures: seq<Text>)
    requires forall s | s in signatures :: SignatureShape(s)
    ensures AbsorbAll(so, SignatureParts(signatures)) == Some(so.(signatures := so.signatures + signatures))
    decreases signatures
  {
    if signatures != [] {
      var first, rest := signatures[0], signatures[1..];
      SignatureAbsorbed(so, first);
      SignaturesAbsorbed(so.(signatures := so.signatures + [first]), rest);
      assert SignatureParts(signatures)[1..] == SignatureParts(rest);
      assert so.signatures + [first] + rest == so.signatures + signatures;
    } else {
      assert so.signatures + signatures == so.signatures;
    }
  }

  lemma {:induction false} NoCommas(signatures: seq<Text>)
    requires forall s | s in signatures :: SignatureShape(s)
    ensures forall p | p in SignatureParts(signatures) :: COMMA !in p
  {
    forall p | p in SignatureParts(signatures) ensures COMMA !in p {
      var i :| 0 <= i < |signatures| && SignatureParts(signatures)[i] == p;
      SignatureAbsorbed(Fields(None, []), signatures[i]);
    }
  }

  /** The header of a rotation: one time, several signatures. */
  function RotationHeader(timestamp: nat, signatures: seq<Text>): Text {
    Join([TimestampPart(timestamp)] + SignatureParts(signatures))
  }

  /**
   * A header built from a time and any number of signatures parses back to exactly those
   * when the time has at most twelve digits and the header fits the cap, and to nothing
   * otherwise.
   */
  lemma {:induction false} RotationRoundTrip(timestamp: nat, signatures: seq<Text>)
    requires signatures != [] && forall s | s in signatures :: SignatureShape(s)
    ensures var header := RotationHeader(timestamp, signatures);
      ParseHeader(header) == if timestamp < 1_000_000_000_000 && |header| <= 4096
          then Some(Parsed(timestamp, signatures)) else None
  {
    TenToTwelve();
    if |RotationHeader(timestamp, signatures)| <= HEADER_MAX {
      var parts := [TimestampPart(timestamp)] + SignatureParts(signatures);
      TimestampAbsorbed(timestamp, []);
      SignaturesAbsorbed(Fields(Some(timestamp), []), signatures);
      NoCommas(signatures);
      JoinNotEmpty(parts, 0);
      ParseJoined(parts);
      assert parts[1..] == SignatureParts(signatures);
      assert [] + signatures == signatures;
    }
  }

  lemma {:induction false} ParseJoined(parts: seq<Text>)
    requires parts != [] && (forall p | p in parts :: COMMA !in p) && 0 < |Join(parts)| <= HEADER_MAX
    ensures ParseHeader(Join(parts)) == Finish(AbsorbAll(Fields(None, []), parts))
  {
    SplitJoin(parts);
  }

  /**
   * The round trip: parsing the header signing builds gives back its time and signature
   * exactly when the time is below 10^12; a later one is signed but never parses.
   */
  lemma {:induction false} HeaderRoundTrip(timestamp: nat, signature: Text)
    requires SignatureShape(signature)
    ensures ParseHeader(Header(timestamp, signature))
         == if timestamp < 1_000_000_000_000 then Some(Parsed(timestamp, [signature])) else None
  {
    TenToTwelve();
    assert SignatureParts([signature]) == [SignaturePart(signature)];
    assert [TimestampPart(timestamp)] + SignatureParts([signature])
      == [TimestampPart(timestamp), SignaturePart(signature)];
    JoinTwo(TimestampPart(timestamp), SignaturePart(signature));
    DigitsLength(timestamp, 12);
    RotationRoundTrip(timestamp, [signature]);
  }

  lemma {:induction false} JoinTwo(a: Text, b: Text)
    ensures Join([a, b]) == a + [COMMA] + b
  {
    assert [a, b][1..] == [b];
  }

  // ---- Unknown schemes ---------------------------------------------------------------

  /** A part of a scheme this receiver does not know. */
  predicate Unknown(part: Text) {
    && COMMA !in part && 0 < IndexOf(part, EQUALS) < |part|
    && PartName(part) != [LETTER_T] && PartName(part) != SIGNATURE_SCHEME
  }

  lemma {:induction false} AbsorbConcat(so: Fields, a: seq<Text>, b: seq<Text>)
    ensures AbsorbAll(so, a + b) == if AbsorbAll(so, a).None? then None else AbsorbAll(AbsorbAll(so, a).value, b)
    decreases a
  {
    if a == [] {
      assert a + b == b;
    } else {
      assert (a + b)[1..] == a[1..] + b;
      if Absorb(so, a[0]).Some? {
        AbsorbConcat(Absorb(so, a[0]).value, a[1..], b);
      }
    }
  }

  /** A part of an unknown scheme, wherever it stands, does not change what a header says. */
  lemma {:induction false} UnknownPartsIgnored(before: seq<Text>, unknown: Text, after: seq<Text>)
    requires Unknown(unknown) && before + after != []
    requires forall p | p in before + after :: COMMA !in p
    requires 0 < |Join(before + after)| <= 4096 && |Join(before + [unknown] + after)| <= 4096
    ensures ParseHeader(Join(before + [unknown] + after)) == ParseHeader(Join(before + after))
  {
    var whole, less := before + [unknown] + after, before + after;
    forall p | p in whole ensures COMMA !in p {
      assert p in before || p == unknown || p in after;
      assert p in before || p in after ==> p in less;
    }
    JoinNotEmpty(whole, |before|);
    ParseJoined(whole);
    ParseJoined(less);
    AbsorbSkips(Fields(None, []), before, unknown, after);
  }

  lemma {:induction false} AbsorbSkips(so: Fields, before: seq<Text>, unknown: Text, after: seq<Text>)
    requires Unknown(unknown)
    ensures AbsorbAll(so, before + [unknown] + after) == AbsorbAll(so, before + after)
  {
    AbsorbConcat(so, before, after);
    AbsorbConcat(so, before, [unknown] + after);
    assert before + [unknown] + after == before + ([unknown] + after);
    assert ([unknown] + after)[1..] == after;
  }

  lemma {:induction false} JoinNotEmpty(parts: seq<Text>, i: nat)
    requires i < |parts| && parts[i] != []
    ensures Join(parts) != []
  {
    if |parts| > 1 && i > 0 {
      JoinNotEmpty(parts[1..], i - 1);
    }
  }

  // ---- Exactly what a header says ----------------------------------------------------

  /** What stands after a part's first equals sign, without the space around it. */
  function ValueOf(part: Text): Text {
    if IndexOf(part, EQUALS) < |part| then PartValue(part) else []
  }

  function ValueIf(part: Text, name: Text): seq<Text> {
    if PartName(part) == name then [ValueOf(part)] else []
  }

  /** The values of the parts of this name, in order. */
  function ValuesOf(parts: seq<Text>, name: Text): seq<Text> {
    if parts == [] then [] else ValueIf(parts[0], name) + ValuesOf(parts[1..], name)
  }

  /** The part names something. */
  predicate Named(part: Text) {
    0 < IndexOf(part, EQUALS) < |part|
  }

  predicate AllNamed(parts: seq<Text>) {
    forall i | 0 <= i < |parts| :: Named(parts[i])
  }

  /** Sixty-four of the digits and the letters a to f. */
  predicate Hex64(t: Text) {
    |t| == 64 && forall i | 0 <= i < 64 :: 48 <= t[i] <= 57 || 97 <= t[i] <= 102
  }

  predicate AllHex64(values: seq<Text>) {
    forall i | 0 <= i < |values| :: Hex64(values[i])
  }

  /** One to twelve digits. */
  predicate Digits12(t: Text) {
    1 <= |t| <= 12 && forall i | 0 <= i < |t| :: 48 <= t[i] <= 57
  }

  predicate AllDigits12(values: seq<Text>) {
    forall i | 0 <= i < |values| :: Digits12(values[i])
  }

  lemma {:induction false} ShapesMean(t: Text)
    ensures SignatureShape(t) <==> Hex64(t)
    ensures TimestampShape(t) <==> Digits12(t)
  {
  }

  lemma {:induction false} NamedSplit(parts: seq<Text>)
    requires parts != []
    ensures AllNamed(parts) <==> Named(parts[0]) && AllNamed(parts[1..])
  {
    if Named(parts[0]) && AllNamed(parts[1..]) {
      forall i | 0 <= i < |parts| ensures Named(parts[i]) {
        assert i > 0 ==> parts[i] == parts[1..][i - 1];
      }
    }
  }

  lemma {:induction false} ShapesSplit(a: seq<Text>, b: seq<Text>)
    ensures AllHex64(a + b) <==> AllHex64(a) && AllHex64(b)
    ensures AllDigits12(a + b) <==> AllDigits12(a) && AllDigits12(b)
  {
    forall i | 0 <= i < |a| ensures (a + b)[i] == a[i] {
    }
    forall i | 0 <= i < |b| ensures (a + b)[|a| + i] == b[i] {
    }
  }

  /** One part is taken in exactly when it is named and says no second time and nothing misshapen. */
  lemma {:induction false} AbsorbMeans(so: Fields, part: Text)
    ensures Absorb(so, part).Some? <==>
      && Named(part) && AllDigits12(ValueIf(part, [116])) && AllHex64(ValueIf(part, [118, 49]))
      && (so.timestamp.Some? ==> ValueIf(part, [116]) == [])
    ensures Absorb(so, part).Some? ==>
      && Absorb(so, part).value.signatures == so.signatures + ValueIf(part, [118, 49])
      && Absorb(so, part).value.timestamp ==
           if ValueIf(part, [116]) == [] then so.timestamp else Some(Decimal(ValueIf(part, [116])[0]))
  {
    if Named(part) {
      ShapesMean(PartValue(part));
      OneShape(PartValue(part));
    }
  }

  lemma {:induction false} OneShape(value: Text)
    ensures AllHex64([value]) <==> Hex64(value)
    ensures AllDigits12([value]) <==> Digits12(value)
  {
    assert [value][0] == value;
  }

  /** At most one time, counting one told before. */
  predicate OneTime(so: Fields, times: seq<Text>) {
    |times| <= if so.timestamp.Some? then 0 else 1
  }

  /** What taking parts in one by one comes to. */
  lemma {:induction false} AbsorbAllMeans(so: Fields, parts: seq<Text>)
    ensures var times, signatures := ValuesOf(parts, [116]), ValuesOf(parts, [118, 49]);
      && (AbsorbAll(so, parts).Some? <==>
            AllNamed(parts) && OneTime(so, times) && AllDigits12(times) && AllHex64(signatures))
      && (AbsorbAll(so, parts).Some? ==>
            && AbsorbAll(so, parts).value.signatures == so.signatures + signatures
            && AbsorbAll(so, parts).value.timestamp == if times == [] then so.timestamp else Some(Decimal(times[0])))
    decreases parts
  {
    if parts != [] {
      var first, rest := parts[0], parts[1..];
      NamedSplit(parts);
      ShapesSplit(ValueIf(first, [116]), ValuesOf(rest, [116]));
      ShapesSplit(ValueIf(first, [118, 49]), ValuesOf(rest, [118, 49]));
      AbsorbMeans(so, first);
      if Absorb(so, first).Some? {
        AbsorbAllMeans(Absorb(so, first).value, rest);
        Regrouped(so.signatures, ValueIf(first, [118, 49]), ValuesOf(rest, [118, 49]));
      }
    }
  }

  lemma {:induction false} Regrouped(a: seq<Text>, b: seq<Text>, c: seq<Text>)
    ensures (a + b) + c == a + (b + c)
  {
  }

  /**
   * A header is read exactly when it has 1 to 4096 units, each of its comma-separated parts
   * has a name before an equals sign, exactly one is named `t` and holds 1 to 12 digits, and
   * at least one is named `v1`, all of those holding 64 hex digits; and it then says that
   * time and those signatures, in order.
   */
  lemma {:induction false} ParseExact(header: Text)
    ensures var times, signatures := ValuesOf(Split(header), [116]), ValuesOf(Split(header), [118, 49]);
      && (ParseHeader(header).Some? <==>
            && 1 <= |header| <= 4096 && AllNamed(Split(header))
            && |times| == 1 && AllDigits12(times) && signatures != [] && AllHex64(signatures))
      && (ParseHeader(header).Some? ==>
            ParseHeader(header).value.timestamp == Decimal(times[0])
            && ParseHeader(header).value.signatures == signatures)
  {
    AbsorbAllMeans(Fields(None, []), Split(header));
    assert [] + ValuesOf(Split(header), [118, 49]) == ValuesOf(Split(header), [118, 49]);
  }

  /** What is left when the space at both ends is taken away. */
  lemma {:induction false} TrimMeans(t: Text) returns (before: Text, after: Text)
    ensures t == before + Trim(t) + after
    ensures (forall i | 0 <= i < |before| :: Space(before[i])) && (forall i | 0 <= i < |after| :: Space(after[i]))
    ensures Trim(t) != [] ==> !Space(Trim(t)[0]) && !Space(Trim(t)[|Trim(t)| - 1])
  {
    before := StartTrimmed(t);
    after := EndTrimmed(TrimStart(t));
    assert t == before + (Trim(t) + after);
  }

  lemma {:induction false} StartTrimmed(t: Text) returns (before: Text)
    ensures t == before + TrimStart(t) && forall i | 0 <= i < |before| :: Space(before[i])
    ensures TrimStart(t) != [] ==> !Space(TrimStart(t)[0])
  {
    if t != [] && Space(t[0]) {
      var rest := StartTrimmed(t[1..]);
      before := [t[0]] + rest;
    } else {
      before := [];
    }
  }

  lemma {:induction false} EndTrimmed(t: Text) returns (after: Text)
    ensures t == TrimEnd(t) + after && forall i | 0 <= i < |after| :: Space(after[i])
    ensures TrimEnd(t) != [] ==> !Space(TrimEnd(t)[|TrimEnd(t)| - 1]) && TrimEnd(t)[0] == t[0]
  {
    if t != [] && Space(t[|t| - 1]) {
      var rest := EndTrimmed(t[..|t| - 1]);
      after := rest + [t[|t| - 1]];
    } else {
      after := [];
    }
  }

  lemma {:induction false} HeaderIs(timestamp: nat, signature: Text, body: Text)
    ensures Header(timestamp, signature) == [116, 61] + Digits(timestamp) + [44, 118, 49, 61] + signature
    ensures SignedText(timestamp, body) == Digits(timestamp) + [46] + body
  {
    JoinTwo(TimestampPart(timestamp), SignaturePart(signature));
  }

  // ---- End to end --------------------------------------------------------------------

  /**
   * What is signed, `t=`, the time, `,v1=` and the keyed hash of the time, a dot and the
   * body, is accepted within the tolerance and at no other time, and never with a time past
   * twelve digits.
   */
  method SignedVerifies(body: Text, hmac: Text -> Text, timestamp: nat, nowSeconds: int, tolerance: int)
      returns (header: Text, r: Result<nat, Failure>)
    requires forall payload :: SignatureShape(hmac(payload))
    ensures header == [116, 61] + Digits(timestamp) + [44, 118, 49, 61] + hmac(Digits(timestamp) + [46] + body)
    ensures r == if timestamp >= 1_000_000_000_000 then Err(MalformedHeader)
                 else if nowSeconds - timestamp > tolerance || timestamp - nowSeconds > tolerance
                   then Err(TimestampOutOfWindow)
                 else Ok(timestamp)
  {
    var signature := hmac(SignedText(timestamp, body));
    header := Header(timestamp, signature);
    HeaderIs(timestamp, signature, body);
    HeaderRoundTrip(timestamp, signature);
    r := VerifyWebhook(body, Some(header), hmac, nowSeconds, tolerance);
  }
}
