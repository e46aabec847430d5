/**
 * A parser for canonical JSON: strings by section 7 of RFC 8259, integers in full, arrays
 * and objects without whitespace. It undoes the printer, so two values with one text are
 * one value up to key order and the sign of zero.
 */
module CanonicalJsonParser {
  import opened Common
  import opened CanonicalJson
  import opened Texts
  import opened Utf8

  datatype Parsed<T> = Parsed(value: T, rest: Text)

  // ---- Strings -----------------------------------------------------------------------

  function HexValue(u: Unit): Option<nat> {
    if 48 <= u <= 57 then Some(u as nat - 48)
    else if 97 <= u <= 102 then Some(u as nat - 87)
    else if 65 <= u <= 70 then Some(u as nat - 55)
    else None
  }

  function ReadHex4(t: Text): (r: Option<Parsed<Unit>>)
    ensures r.Some? ==> |r.value.rest| < |t|
  {
    if |t| < 4 then None
    else
      var a, b, c, d := HexValue(t[0]), HexValue(t[1]), HexValue(t[2]), HexValue(t[3]);
      if a.None? || b.None? || c.None? || d.None? then None
      else
        var n := a.value * 4096 + b.value * 256 + c.value * 16 + d.value;
        if n < 0x1_0000 then Some(Parsed(n as Unit, t[4..])) else None
  }

  function ShortEscape(u: Unit): Option<Unit> {
    if u == QUOTE || u == BACKSLASH || u == SLASH then Some(u)
    else if u == 98 then Some(8)
    else if u == 102 then Some(12)
    else if u == 110 then Some(10)
    else if u == 114 then Some(13)
    else if u == 116 then Some(9)
    else None
  }

  /** The rest of a string after its opening quote. */
  function ReadString(t: Text): (r: Option<Parsed<Text>>)
    ensures r.Some? ==> |r.value.rest| < |t|
    decreases |t|
  {
    if t == [] then None
    else if t[0] == QUOTE then Some(Parsed([], t[1..]))
    else if t[0] == BACKSLASH then
      if |t| < 2 then None
      else if t[1] == LETTER_U then
        var unit := ReadHex4(t[2..]);
        if unit.None? then None else Prepend(unit.value.value, ReadString(unit.value.rest))
      else
        var unit := ShortEscape(t[1]);
        if unit.None? then None else Prepend(unit.value, ReadString(t[2..]))
    else if t[0] < 32 then None
    else Prepend(t[0], ReadString(t[1..]))
  }

  function Prepend(u: Unit, r: Option<Parsed<Text>>): Option<Parsed<Text>> {
    if r.None? then None else Some(Parsed([u] + r.value.value, r.value.rest))
  }

  // ---- Numbers -----------------------------------------------------------------------

  function ReadNumber(t: Text): (r: Option<Parsed<Number>>)
    ensures r.Some? ==> |r.value.rest| < |t|
  {
    var negative := t != [] && t[0] == MINUS;
    var body := if negative then t[1..] else t;
    var n := DigitCount(body);
    if n == 0 then None
    else Some(Parsed(Whole(if negative then -Decimal(body[..n]) else Decimal(body[..n])), body[n..]))
  }

  // ---- Values ------------------------------------------------------------------------

  predicate StartsWith(t: Text, word: Text) {
    |t| >= |word| && t[..|word|] == word
  }

  function ReadValue(t: Text): (r: Option<Parsed<Value>>)
    ensures r.Some? ==> |r.value.rest| < |t|
    decreases |t|, 0
  {
    if t == [] then None
    else if t[0] == QUOTE then
      var s := ReadString(t[1..]);
      if s.None? then None else Some(Parsed(Str(s.value.value), s.value.rest))
    else if t[0] == OPEN_BRACKET then
      if |t| > 1 && t[1] == CLOSE_BRACKET then Some(Parsed(Arr([]), t[2..]))
      else
        var items := ReadItems(t[1..]);
        if items.None? then None else Some(Parsed(Arr(items.value.value), items.value.rest))
    else if t[0] == OPEN_BRACE then
      if |t| > 1 && t[1] == CLOSE_BRACE then Some(Parsed(Obj([]), t[2..]))
      else
        var fields := ReadFields(t[1..]);
        if fields.None? then None else Some(Parsed(Obj(fields.value.value), fields.value.rest))
    else if StartsWith(t, NULL_TEXT) then Some(Parsed(Null, t[4..]))
    else if StartsWith(t, TRUE_TEXT) then Some(Parsed(Bool(true), t[4..]))
    else if StartsWith(t, FALSE_TEXT) then Some(Parsed(Bool(false), t[5..]))
    else
      var x := ReadNumber(t);
      if x.None? then None else Some(Parsed(Num(x.value.value), x.value.rest))
  }

  /** One or more items, up to and including the closing bracket. */
  function ReadItems(t: Text): (r: Option<Parsed<seq<Value>>>)
    ensures r.Some? ==> |r.value.rest| < |t|
    decreases |t|, 1
  {
    var first := ReadValue(t);
    if first.None? || first.value.rest == [] then None
    else
      var rest := first.value.rest;
      if rest[0] == CLOSE_BRACKET then Some(Parsed([first.value.value], rest[1..]))
      else if rest[0] == COMMA then
        var more := ReadItems(rest[1..]);
        if more.None? then None else Some(Parsed([first.value.value] + more.value.value, more.value.rest))
      else None
  }

  /** One or more fields, up to and including the closing brace. */
  function ReadFields(t: Text): (r: Option<Parsed<seq<Field>>>)
    ensures r.Some? ==> |r.value.rest| < |t|
    decreases |t|, 1
  {
    var key := if t != [] && t[0] == QUOTE then ReadString(t[1..]) else None;
    if key.None? || key.value.rest == [] || key.value.rest[0] != COLON then None
    else
      var value := ReadValue(key.value.rest[1..]);
      if value.None? || value.value.rest == [] then None
      else
        var field, rest := Field(key.value.value, value.value.value), value.value.rest;
        if rest[0] == CLOSE_BRACE then Some(Parsed([field], rest[1..]))
        else if rest[0] == COMMA then
          var more := ReadFields(rest[1..]);
          if more.None? then None else Some(Parsed([field] + more.value.value, more.value.rest))
        else None
  }

  // ---- Strings come back -------------------------------------------------------------

  lemma {:induction false} HexRoundTrip(d: nat)
    requires d < 16
    ensures HexValue(HexDigit(d)) == Some(d)
  {
  }

  lemma {:induction false} HexParts(n: nat)
    requires n < 0x1_0000
    ensures n / 4096 < 16
    ensures n == n / 4096 * 4096 + n / 256 % 16 * 256 + n / 16 % 16 * 16 + n % 16
  {
    assert n / 256 == n / 16 / 16 && n / 4096 == n / 256 / 16;
  }

  lemma {:induction false} Hex4RoundTrip(u: Unit, rest: Text)
    ensures ReadHex4(Hex4(u) + rest) == Some(Parsed(u, rest))
  {
    var n := u as nat;
    HexParts(n);
    HexRoundTrip(n / 4096);
    HexRoundTrip(n / 256 % 16);
    HexRoundTrip(n / 16 % 16);
    HexRoundTrip(n % 16);
    assert (Hex4(u) + rest)[4..] == rest;
  }

  /** Reading past one escaped unit. */
  lemma {:induction false} UnitRoundTrip(u: Unit, rest: Text)
    ensures ReadString(EscapeUnit(u) + rest) == Prepend(u, ReadString(rest))
  {
    var t := EscapeUnit(u) + rest;
    if (u < 32 && u != 8 && u != 9 && u != 10 && u != 12 && u != 13) || HighSurrogate(u) || LowSurrogate(u) {
      assert t[2..] == Hex4(u) + rest;
      Hex4RoundTrip(u, rest);
    } else if u == QUOTE || u == BACKSLASH || u < 32 {
      assert t[2..] == rest;
    } else {
      assert t[1..] == rest;
    }
  }

  lemma {:induction false} LiteralRead(u: Unit, rest: Text)
    requires u >= 32 && u != QUOTE && u != BACKSLASH
    ensures ReadString([u] + rest) == Prepend(u, ReadString(rest))
  {
    assert ([u] + rest)[1..] == rest;
  }

  lemma {:induction false} EscapeFront(s: Text, tail: Text)
    requires s != []
    ensures Escape(s) + tail ==
      if StartsWithPair(s) then [s[0]] + ([s[1]] + (Escape(s[2..]) + tail))
        else EscapeUnit(s[0]) + (Escape(s[1..]) + tail)
  {
  }

  lemma {:induction false} PairRead(a: Unit, b: Unit, inner: Text)
    requires HighSurrogate(a) && LowSurrogate(b)
    ensures ReadString([a] + ([b] + inner)) == Prepend(a, Prepend(b, ReadString(inner)))
  {
    LiteralRead(b, inner);
    LiteralRead(a, [b] + inner);
  }

  lemma {:induction false} EndRead(rest: Text)
    ensures ReadString([QUOTE] + rest) == Some(Parsed([], rest))
  {
    assert ([QUOTE] + rest)[1..] == rest;
  }

  lemma {:induction false} StringRoundTrip(s: Text, rest: Text)
    ensures ReadString(Escape(s) + ([QUOTE] + rest)) == Some(Parsed(s, rest))
    decreases |s|
  {
    var tail := [QUOTE] + rest;
    if s == [] {
      assert Escape(s) + tail == tail;
      EndRead(rest);
    } else {
      EscapeFront(s, tail);
      if StartsWithPair(s) {
        StringRoundTrip(s[2..], rest);
        PairRead(s[0], s[1], Escape(s[2..]) + tail);
        assert s == [s[0]] + ([s[1]] + s[2..]);
      } else {
        StringRoundTrip(s[1..], rest);
        UnitRoundTrip(s[0], Escape(s[1..]) + tail);
        assert s == [s[0]] + s[1..];
      }
    }
  }

  // ---- Numbers come back -------------------------------------------------------------

  function Plain(x: Number): Number {
    if x.MinusZero? then Whole(0) else x
  }

  lemma {:induction false} NumberRoundTrip(x: Number, rest: Text)
    requires SafeInteger(x) && (rest == [] || !Digit(rest[0]))
    ensures ReadNumber(PrintNumber(x) + rest) == Some(Parsed(Plain(x), rest))
    ensures PrintNumber(x) != [] && (PrintNumber(x)[0] == MINUS || Digit(PrintNumber(x)[0]))
  {
    var n := if x.MinusZero? then 0 else x.n;
    var digits := Digits(if n < 0 then -n else n);
    DigitsAre(if n < 0 then -n else n);
    CountsDigits(digits, rest);
    var t := PrintNumber(x) + rest;
    var body := digits + rest;
    assert body[..|digits|] == digits && body[|digits|..] == rest;
    if n < 0 {
      assert t[1..] == body;
    } else {
      assert t == body;
    }
  }

  // ---- Values come back --------------------------------------------------------------

  /** What the text keeps of a value: fields in key order, minus zero as zero. */
  function Canon(v: Value): Value
    decreases v, 1
  {
    match v
    case Num(x) => Num(Plain(x))
    case Arr(items) => Arr(CanonItems(items, v))
    case Obj(fields) => Obj(CanonFields(SortedFields(fields), v))
    case _ => v
  }

  function CanonItems(items: seq<Value>, ghost whole: Value): (r: seq<Value>)
    requires forall item | item in items :: item < whole
    ensures |r| == |items| && forall i | 0 <= i < |items| :: items[i] < whole && r[i] == Canon(items[i])
    decreases whole, 0, |items|
  {
    if items == [] then []
    else
      assert items[0] in items && forall item | item in items[1..] :: item in items;
      [Canon(items[0])] + CanonItems(items[1..], whole)
  }

  function CanonFields(fields: seq<Field>, ghost whole: Value): (r: seq<Field>)
    requires forall f | f in fields :: f.value < whole
    ensures |r| == |fields|
    ensures forall i | 0 <= i < |fields| ::
      fields[i].value < whole && r[i] == Field(fields[i].key, Canon(fields[i].value))
    decreases whole, 0, |fields|
  {
    if fields == [] then []
    else
      assert fields[0] in fields && forall f | f in fields[1..] :: f in fields;
      [Field(fields[0].key, Canon(fields[0].value))] + CanonFields(fields[1..], whole)
  }

  /** A value's text ends where a digit could not continue it. */
  predicate Ends(rest: Text) {
    rest == [] || !Digit(rest[0])
  }

  lemma {:induction false} PrintStarts(v: Value)
    requires Admitted(v)
    ensures Print(v) != [] && Print(v)[0] != CLOSE_BRACKET && Print(v)[0] != CLOSE_BRACE
  {
    if v.Num? {
      NumberRoundTrip(v.number, []);
    }
  }

  lemma {:induction false} WordRoundTrip(word: Text, rest: Text)
    ensures StartsWith(word + rest, word) && (word + rest)[|word|..] == rest
  {
  }

  lemma {:induction false} NumRoundTrip(x: Number, rest: Text)
    requires SafeInteger(x) && Ends(rest)
    ensures ReadValue(PrintNumber(x) + rest) == Some(Parsed(Num(Plain(x)), rest))
  {
    NumberRoundTrip(x, rest);
    var t := PrintNumber(x) + rest;
    assert t[0] == PrintNumber(x)[0];
    assert !StartsWith(t, NULL_TEXT) && !StartsWith(t, TRUE_TEXT) && !StartsWith(t, FALSE_TEXT) by {
      assert NULL_TEXT[0] == 110 && TRUE_TEXT[0] == 116 && FALSE_TEXT[0] == 102;
    }
  }

  lemma {:induction false} WordsRoundTrip(v: Value, rest: Text)
    requires v.Null? || v.Bool?
    ensures ReadValue(Print(v) + rest) == Some(Parsed(v, rest))
  {
    WordRoundTrip(Print(v), rest);
    var t := Print(v) + rest;
    assert t[0] == Print(v)[0];
    assert NULL_TEXT[0] == 110 && TRUE_TEXT[0] == 116 && FALSE_TEXT[0] == 102;
    assert StartsWith(t, NULL_TEXT) ==> t[0] == 110;
    assert StartsWith(t, TRUE_TEXT) ==> t[0] == 116;
  }

  lemma {:induction false} StrRoundTrip(s: Text, rest: Text)
    ensures ReadValue(Quoted(s) + rest) == Some(Parsed(Str(s), rest))
  {
    var t := Quoted(s) + rest;
    assert t[1..] == Escape(s) + ([QUOTE] + rest);
    StringRoundTrip(s, rest);
  }

  /** Reading what was printed gives back the value, up to key order and the sign of zero. */
  lemma {:induction false} ValueRoundTrip(v: Value, rest: Text)
    requires Admitted(v) && Ends(rest)
    ensures ReadValue(Print(v) + rest) == Some(Parsed(Canon(v), rest))
    decreases v, 1
  {
    match v
    case Null => WordsRoundTrip(v, rest);
    case Bool(_) => WordsRoundTrip(v, rest);
    case Num(x) => NumRoundTrip(x, rest);
    case Str(s) => StrRoundTrip(s, rest);
    case Arr(items) =>
      if items == [] {
        EmptyRoundTrip(v, rest);
      } else {
        forall item | item in items ensures Admitted(item) {
          var i :| 0 <= i < |items| && items[i] == item;
        }
        ItemsRoundTrip(items, v, rest);
        ArrRoundTrip(v, rest);
      }
    case Obj(fields) =>
      if fields == [] {
        EmptyRoundTrip(v, rest);
      } else {
        SortedAdmitted(fields);
        FieldsRoundTrip(SortedFields(fields), v, rest);
        ObjRoundTrip(v, rest);
      }
  }

  lemma {:induction false} EmptyRoundTrip(v: Value, rest: Text)
    requires v == Arr([]) || v == Obj([])
    ensures ReadValue(Print(v) + rest) == Some(Parsed(Canon(v), rest))
  {
    var t := Print(v) + rest;
    if v.Obj? {
      assert SortedFields([]) == [];
      assert t == [OPEN_BRACE, CLOSE_BRACE] + rest;
    } else {
      assert t == [OPEN_BRACKET, CLOSE_BRACKET] + rest;
    }
    assert t[2..] == rest;
  }

  lemma {:induction false} Enclosed(open: Unit, body: Text, close: Unit, rest: Text)
    ensures [open] + body + [close] + rest == [open] + (body + ([close] + rest))
    ensures ([open] + (body + ([close] + rest)))[1..] == body + ([close] + rest)
  {
  }

  lemma {:induction false} ArrayRead(inner: Text, items: seq<Value>, rest: Text)
    requires inner != [] && inner[0] != CLOSE_BRACKET && ReadItems(inner) == Some(Parsed(items, rest))
    ensures ReadValue([OPEN_BRACKET] + inner) == Some(Parsed(Arr(items), rest))
  {
    assert ([OPEN_BRACKET] + inner)[1..] == inner;
  }

  lemma {:induction false} ObjectRead(inner: Text, fields: seq<Field>, rest: Text)
    requires inner != [] && inner[0] != CLOSE_BRACE && ReadFields(inner) == Some(Parsed(fields, rest))
    ensures ReadValue([OPEN_BRACE] + inner) == Some(Parsed(Obj(fields), rest))
  {
    assert ([OPEN_BRACE] + inner)[1..] == inner;
  }

  lemma {:induction false} ArrRoundTrip(v: Value, rest: Text)
    requires v.Arr? && v.items != [] && Admitted(v)
    requires ReadItems(PrintItems(v.items, v) + ([CLOSE_BRACKET] + rest)) == Some(Parsed(CanonItems(v.items, v), rest))
    ensures ReadValue(Print(v) + rest) == Some(Parsed(Canon(v), rest))
  {
    var body := PrintItems(v.items, v);
    Enclosed(OPEN_BRACKET, body, CLOSE_BRACKET, rest);
    PrintStarts(v.items[0]);
    assert body[0] == Print(v.items[0])[0];
    ArrayRead(body + ([CLOSE_BRACKET] + rest), CanonItems(v.items, v), rest);
  }

  lemma {:induction false} FieldsStart(fields: seq<Field>, whole: Value)
    requires fields != [] && forall f | f in fields :: f.value < whole
    ensures PrintFields(fields, whole) != [] && PrintFields(fields, whole)[0] == QUOTE
  {
  }

  lemma {:induction false} ObjRoundTrip(v: Value, rest: Text)
    requires v.Obj? && v.fields != [] && Admitted(v)
    requires ReadFields(PrintFields(SortedFields(v.fields), v) + ([CLOSE_BRACE] + rest))
          == Some(Parsed(CanonFields(SortedFields(v.fields), v), rest))
    ensures ReadValue(Print(v) + rest) == Some(Parsed(Canon(v), rest))
  {
    var sorted := SortedFields(v.fields);
    var body := PrintFields(sorted, v);
    assert |sorted| == |multiset(sorted)| == |multiset(v.fields)|;
    Enclosed(OPEN_BRACE, body, CLOSE_BRACE, rest);
    FieldsStart(sorted, v);
    ObjectRead(body + ([CLOSE_BRACE] + rest), CanonFields(sorted, v), rest);
  }

  lemma {:induction false} SortedAdmitted(fields: seq<Field>)
    requires Admitted(Obj(fields))
    ensures |SortedFields(fields)| == |fields|
    ensures forall f | f in SortedFields(fields) :: Admitted(f.value)
  {
    assert |SortedFields(fields)| == |multiset(fields)|;
    forall f | f in SortedFields(fields) ensures Admitted(f.value) {
      var i :| 0 <= i < |fields| && fields[i] == f;
    }
  }

  lemma {:induction false} ItemsFront(items: seq<Value>, whole: Value)
    requires items != [] && forall item | item in items :: item < whole
    ensures items[0] < whole && forall item | item in items[1..] :: item < whole
    ensures PrintItems(items, whole) == Print(items[0]) + if |items| == 1 then []
      else [COMMA] + PrintItems(items[1..], whole)
    ensures CanonItems(items, whole) == [Canon(items[0])] + CanonItems(items[1..], whole)
  {
    assert items[0] in items && forall item | item in items[1..] :: item in items;
  }

  lemma {:induction false} LastItemRead(printed: Text, value: Value, rest: Text)
    requires ReadValue(printed + ([CLOSE_BRACKET] + rest)) == Some(Parsed(value, [CLOSE_BRACKET] + rest))
    ensures ReadItems(printed + ([CLOSE_BRACKET] + rest)) == Some(Parsed([value], rest))
  {
    assert ([CLOSE_BRACKET] + rest)[1..] == rest;
  }

  lemma {:induction false} MoreItemsRead(printed: Text, value: Value, more: Text, values: seq<Value>, rest: Text)
    requires ReadValue(printed + ([COMMA] + more)) == Some(Parsed(value, [COMMA] + more))
    requires ReadItems(more) == Some(Parsed(values, rest))
    ensures ReadItems(printed + ([COMMA] + more)) == Some(Parsed([value] + values, rest))
  {
    assert ([COMMA] + more)[1..] == more;
  }

  lemma {:induction false} Regroup(a: Text, b: Text, c: Text)
    ensures a + b + c == a + (b + c)
  {
  }

  lemma {:induction false} ItemsRoundTrip(items: seq<Value>, whole: Value, rest: Text)
    requires items != [] && forall item | item in items :: item < whole
    requires forall item | item in items :: Admitted(item)
    ensures ReadItems(PrintItems(items, whole) + ([CLOSE_BRACKET] + rest))
      == Some(Parsed(CanonItems(items, whole), rest))
    decreases whole, 0, |items|
  {
    ItemsFront(items, whole);
    assert items[0] in items && forall item | item in items[1..] :: item in items;
    var close, printed, value := [CLOSE_BRACKET] + rest, Print(items[0]), Canon(items[0]);
    if |items| == 1 {
      ValueRoundTrip(items[0], close);
      LastItemRead(printed, value, rest);
      assert printed + [] == printed && [value] + CanonItems(items[1..], whole) == [value];
    } else {
      var tail := PrintItems(items[1..], whole);
      ItemsRoundTrip(items[1..], whole, rest);
      ValueRoundTrip(items[0], [COMMA] + (tail + close));
      MoreItemsRead(printed, value, tail + close, CanonItems(items[1..], whole), rest);
      Regroup(printed, [COMMA] + tail, close);
      Regroup([COMMA], tail, close);
    }
  }

  lemma {:induction false} KeyRead(key: Text, rest: Text)
    ensures var t := Quoted(key) + rest; t[0] == QUOTE && ReadString(t[1..]) == Some(Parsed(key, rest))
  {
    StringRoundTrip(key, rest);
    assert (Quoted(key) + rest)[1..] == Escape(key) + ([QUOTE] + rest);
  }

  lemma {:induction false} FieldsFront(fields: seq<Field>, whole: Value)
    requires fields != [] && forall f | f in fields :: f.value < whole
    ensures fields[0].value < whole && forall f | f in fields[1..] :: f.value < whole
    ensures PrintFields(fields, whole) == Quoted(fields[0].key) + [COLON] + Print(fields[0].value)
      + if |fields| == 1 then [] else [COMMA] + PrintFields(fields[1..], whole)
    ensures CanonFields(fields, whole) == [Field(fields[0].key, Canon(fields[0].value))]
      + CanonFields(fields[1..], whole)
  {
    assert fields[0] in fields && forall f | f in fields[1..] :: f in fields;
  }

  /** Reading up to the end of the first field. */
  lemma {:induction false} KeyAndValueRead(key: Text, printed: Text, value: Value, after: Text)
    requires ReadValue(printed + after) == Some(Parsed(value, after))
    ensures var t := Quoted(key) + ([COLON] + (printed + after));
      && t != [] && t[0] == QUOTE
      && ReadString(t[1..]) == Some(Parsed(key, [COLON] + (printed + after)))
      && ([COLON] + (printed + after))[1..] == printed + after
  {
    KeyRead(key, [COLON] + (printed + after));
  }

  lemma {:induction false} LastFieldRead(key: Text, printed: Text, value: Value, rest: Text)
    requires ReadValue(printed + ([CLOSE_BRACE] + rest)) == Some(Parsed(value, [CLOSE_BRACE] + rest))
    ensures ReadFields(Quoted(key) + ([COLON] + (printed + ([CLOSE_BRACE] + rest))))
      == Some(Parsed([Field(key, value)], rest))
  {
    KeyAndValueRead(key, printed, value, [CLOSE_BRACE] + rest);
    assert ([CLOSE_BRACE] + rest)[1..] == rest;
  }

  lemma {:induction false} MoreFieldsRead(key: Text, printed: Text, value: Value, more: Text, fields: seq<Field>,
      rest: Text)
    requires ReadValue(printed + ([COMMA] + more)) == Some(Parsed(value, [COMMA] + more))
    requires ReadFields(more) == Some(Parsed(fields, rest))
    ensures ReadFields(Quoted(key) + ([COLON] + (printed + ([COMMA] + more))))
      == Some(Parsed([Field(key, value)] + fields, rest))
  {
    KeyAndValueRead(key, printed, value, [COMMA] + more);
    assert ([COMMA] + more)[1..] == more;
  }

  /** `a + b + c + d + e`, nested to the right. */
  lemma {:induction false} FieldGroups(a: Text, b: Text, c: Text, d: Text, e: Text)
    ensures a + b + c + d + e == a + (b + (c + (d + e)))
  {
  }

  lemma {:induction false} FieldsRoundTrip(fields: seq<Field>, whole: Value, rest: Text)
    requires fields != [] && forall f | f in fields :: f.value < whole
    requires forall f | f in fields :: Admitted(f.value)
    ensures ReadFields(PrintFields(fields, whole) + ([CLOSE_BRACE] + rest))
      == Some(Parsed(CanonFields(fields, whole), rest))
    decreases whole, 0, |fields|
  {
    FieldsFront(fields, whole);
    assert fields[0] in fields && forall f | f in fields[1..] :: f in fields;
    var f := fields[0];
    var close, printed, value := [CLOSE_BRACE] + rest, Print(f.value), Canon(f.value);
    if |fields| == 1 {
      ValueRoundTrip(f.value, close);
      LastFieldRead(f.key, printed, value, rest);
      FieldGroups(Quoted(f.key), [COLON], printed, [], close);
      assert [] + close == close;
      assert [Field(f.key, value)] + CanonFields(fields[1..], whole) == [Field(f.key, value)];
    } else {
      var tail := PrintFields(fields[1..], whole);
      FieldsRoundTrip(fields[1..], whole, rest);
      ValueRoundTrip(f.value, [COMMA] + (tail + close));
      MoreFieldsRead(f.key, printed, value, tail + close, CanonFields(fields[1..], whole), rest);
      FieldGroups(Quoted(f.key), [COLON], printed, [COMMA] + tail, close);
      Regroup([COMMA], tail, close);
    }
  }
}
