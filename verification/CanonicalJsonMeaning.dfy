/**
 * What canonical text looks like, character by character: the escapes of `JSON.stringify`,
 * the order of keys, the punctuation, and the domain and cap of what is signed.
 */
module CanonicalJsonMeaning {
  import opened Common
  import opened Texts
  import opened Utf8
  import opened CanonicalJson
  import opened CanonicalJsonTheorems
  import opened Attestation
  import Sorting

  predicate Basic(s: string) {
    forall i | 0 <= i < |s| :: s[i] as int < 0x1_0000
  }

  /** Text written as a string. */
  function Chars(s: string): (t: Text)
    requires Basic(s)
    ensures |t| == |s|
  {
    seq(|s|, i requires 0 <= i < |s| => s[i] as int as Unit)
  }

  // ---- Escapes -----------------------------------------------------------------------

  /** The value of a lower-case hex digit, or sixteen. */
  function HexValue(u: Unit): nat {
    if '0' as int <= u as int <= '9' as int then u as int - '0' as int
    else if 'a' as int <= u as int <= 'f' as int then u as int - 'a' as int + 10
    else 16
  }

  /** `\u` and four lower-case hex digits that spell this code unit. */
  predicate SpelledInHex(t: Text, u: Unit) {
    && |t| == 6 && t[0] as int == '\\' as int && t[1] as int == 'u' as int
    && (forall i | 2 <= i < 6 :: HexValue(t[i]) < 16)
    && u as int == HexValue(t[2]) * 4096 + HexValue(t[3]) * 256 + HexValue(t[4]) * 16 + HexValue(t[5])
  }

  lemma {:induction false} HexSpelled(u: Unit)
    ensures SpelledInHex([BACKSLASH, LETTER_U] + Hex4(u), u)
  {
    var n := u as nat;
    assert n / 256 == n / 16 / 16 && n / 4096 == n / 256 / 16;
    DigitValue(n / 4096);
    DigitValue(n / 256 % 16);
    DigitValue(n / 16 % 16);
    DigitValue(n % 16);
  }

  lemma {:induction false} DigitValue(d: nat)
    requires d < 16
    ensures HexValue(HexDigit(d)) == d
  {
  }

  /** The short escapes, the control characters and surrogates in hex, and everything else as it is. */
  lemma {:induction false} EscapesAre(u: Unit)
    ensures var t := EscapeUnit(u);
      if u as int == '"' as int then t == Chars("\\\"")
      else if u as int == '\\' as int then t == Chars("\\\\")
      else if u == 8 then t == Chars("\\b")
      else if u == 9 then t == Chars("\\t")
      else if u == 10 then t == Chars("\\n")
      else if u == 12 then t == Chars("\\f")
      else if u == 13 then t == Chars("\\r")
      else if u < 32 || 0xd800 <= u <= 0xdfff then SpelledInHex(t, u)
      else t == [u]
  {
    HexSpelled(u);
  }

  /** A string is quoted unit by unit, except that a whole surrogate pair stands as it is. */
  lemma {:induction false} QuotedIs(s: Text)
    ensures Quoted(s) == Chars("\"") + Escape(s) + Chars("\"")
    ensures s == [] ==> Escape(s) == []
    ensures |s| >= 2 && 0xd800 <= s[0] <= 0xdbff && 0xdc00 <= s[1] <= 0xdfff ==> Escape(s) == s[..2] + Escape(s[2..])
    ensures s != [] && !(|s| >= 2 && 0xd800 <= s[0] <= 0xdbff && 0xdc00 <= s[1] <= 0xdfff) ==>
      Escape(s) == EscapeUnit(s[0]) + Escape(s[1..])
  {
    assert Chars("\"") == [QUOTE];
  }

  // ---- Key order ---------------------------------------------------------------------

  /** The keys first differ where the first has the smaller code unit, or the second goes on. */
  ghost predicate Precedes(a: Text, b: Text) {
    exists n: nat :: n <= |a| && n <= |b| && a[..n] == b[..n] && (n == |a| || (n < |b| && a[n] < b[n]))
  }

  lemma {:induction false} AtMostPrecedes(a: Text, b: Text)
    requires AtMost(a, b)
    ensures Precedes(a, b)
  {
    if a == [] {
      assert a[..0] == b[..0];
    } else if a[0] < b[0] {
      assert a[..0] == b[..0];
    } else {
      AtMostPrecedes(a[1..], b[1..]);
      var n: nat :| n <= |a[1..]| && n <= |b[1..]| && a[1..][..n] == b[1..][..n]
        && (n == |a[1..]| || (n < |b[1..]| && a[1..][n] < b[1..][n]));
      assert a[..n + 1] == [a[0]] + a[1..][..n] && b[..n + 1] == [b[0]] + b[1..][..n];
    }
  }

  /** The fields of an object are written in the order of their keys' code units, each once. */
  lemma {:induction false} KeysInOrder(fields: seq<Field>, i: nat, j: nat)
    requires i < j < |SortedFields(fields)|
    ensures multiset(SortedFields(fields)) == multiset(fields)
    ensures Precedes(SortedFields(fields)[i].key, SortedFields(fields)[j].key)
  {
    ByKeyIsTotal();
    Sorting.SortSorts(ByKey(), fields);
    AtMostPrecedes(SortedFields(fields)[i].key, SortedFields(fields)[j].key);
  }

  // ---- Punctuation -------------------------------------------------------------------

  /** Texts with a comma between each and the next. */
  function Listed(parts: seq<Text>): Text {
    if parts == [] then [] else if |parts| == 1 then parts[0] else parts[0] + Chars(",") + Listed(parts[1..])
  }

  function ItemTexts(items: seq<Value>): (texts: seq<Text>)
    ensures |texts| == |items|
  {
    seq(|items|, i requires 0 <= i < |items| => Print(items[i]))
  }

  function FieldText(f: Field): Text {
    Quoted(f.key) + Chars(":") + Print(f.value)
  }

  function FieldTexts(fields: seq<Field>): (texts: seq<Text>)
    ensures |texts| == |fields|
  {
    seq(|fields|, i requires 0 <= i < |fields| => FieldText(fields[i]))
  }

  lemma {:induction false} Regroup(a: Text, b: Text, c: Text)
    ensures a + (b + c) == a + b + c
  {
  }

  lemma {:induction false} ItemsListed(items: seq<Value>, whole: Value)
    requires forall item | item in items :: item < whole
    ensures PrintItems(items, whole) == Listed(ItemTexts(items))
  {
    assert Chars(",") == [COMMA];
    if |items| > 1 {
      assert forall item | item in items[1..] :: item in items;
      ItemsListed(items[1..], whole);
      assert ItemTexts(items)[1..] == ItemTexts(items[1..]);
      Regroup(Print(items[0]), [COMMA], PrintItems(items[1..], whole));
    }
  }

  lemma {:induction false} FirstField(fields: seq<Field>, whole: Value)
    requires fields != [] && forall f | f in fields :: f.value < whole
    ensures forall f | f in fields[1..] :: f.value < whole
    ensures PrintFields(fields, whole) ==
      if |fields| == 1 then FieldText(fields[0])
      else FieldText(fields[0]) + [COMMA] + PrintFields(fields[1..], whole)
  {
    assert fields[0] in fields && forall f | f in fields[1..] :: f in fields;
    assert Chars(":") == [COLON];
    if |fields| > 1 {
      Regroup(FieldText(fields[0]), [COMMA], PrintFields(fields[1..], whole));
    }
  }

  lemma {:induction false} FieldsListed(fields: seq<Field>, whole: Value)
    requires forall f | f in fields :: f.value < whole
    ensures PrintFields(fields, whole) == Listed(FieldTexts(fields))
  {
    if fields != [] {
      assert Chars(",") == [COMMA];
      FirstField(fields, whole);
      if |fields| > 1 {
        FieldsListed(fields[1..], whole);
        assert FieldTexts(fields)[1..] == FieldTexts(fields[1..]);
      }
    }
  }

  /** How each kind of value is written. */
  lemma {:induction false} PrintIs(v: Value)
    ensures Print(v) ==
      match v
      case Null => Chars("null")
      case Bool(b) => if b then Chars("true") else Chars("false")
      case Num(Whole(n)) => if n < 0 then Chars("-") + Digits(-n) else Digits(n)
      case Num(MinusZero) => Chars("0")
      case Num(NotWhole) => []
      case Str(s) => Quoted(s)
      case Arr(items) => Chars("[") + Listed(ItemTexts(items)) + Chars("]")
      case Obj(fields) => Chars("{") + Listed(FieldTexts(SortedFields(fields))) + Chars("}")
  {
    match v
    case Null => assert Chars("null") == NULL_TEXT;
    case Bool(b) => assert Chars("true") == TRUE_TEXT && Chars("false") == FALSE_TEXT;
    case Num(x) => assert Chars("-") == [MINUS] && Chars("0") == Digits(0);
    case Arr(items) =>
      assert Chars("[") == [OPEN_BRACKET] && Chars("]") == [CLOSE_BRACKET];
      ItemsListed(items, v);
    case Obj(fields) =>
      assert Chars("{") == [OPEN_BRACE] && Chars("}") == [CLOSE_BRACE];
      FieldsListed(SortedFields(fields), v);
    case _ =>
  }

  // ---- What is signed ----------------------------------------------------------------

  /**
   * Exactly the payloads whose numbers are all whole and safe, and whose text with the
   * domain before it takes at most 4096 bytes, are signed; and what is signed is those bytes.
   */
  lemma {:induction false} SignedIs(v: Value)
    ensures var bytes := Encode(Chars("purse-score-attestation/1\n") + Print(v));
      AttestationBytes(v) ==
        if !Admitted(v) then Err(NotCanonical) else if |bytes| > 4096 then Err(TooLong) else Ok(bytes)
    ensures forall n: int :: Admitted(Num(Whole(n))) <==> -9_007_199_254_740_991 <= n <= 9_007_199_254_740_991
    ensures Admitted(Num(MinusZero)) && !Admitted(Num(NotWhole))
  {
    assert Chars("purse-score-attestation/1\n") == DOMAIN;
  }

  /** Characters of one, two, three and four bytes, and a surrogate that stands alone. */
  lemma {:induction false} EncodedCharacters()
    ensures Encode([0x7a]) == [0x7a]
    ensures Encode([0xe9]) == [0xc3, 0xa9]
    ensures Encode([0x20ac]) == [0xe2, 0x82, 0xac]
    ensures Encode([0xd83d, 0xde00]) == [0xf0, 0x9f, 0x98, 0x80]
    ensures Encode([0xd83d]) == [0xef, 0xbf, 0xbd]
  {
    assert Encode([]) == [];
  }
}
