/**
 * Canonical JSON (packages/purse-types/src/attestation.ts): the one text every
 * implementation signs. Text is a sequence of UTF-16 code units.
 */
module CanonicalJson {
  import opened Common
  import opened Texts
  import opened Utf8
  import Sorting

  const MAX_SAFE: int := 0x1f_ffff_ffff_ffff

  /** A JavaScript number as the printer sees it: a whole number, minus zero, or anything else. */
  datatype Number = Whole(n: int) | MinusZero | NotWhole

  datatype Field = Field(key: Text, value: Value)

  datatype Value =
    | Null
    | Bool(b: bool)
    | Num(number: Number)
    | Str(s: Text)
    | Arr(items: seq<Value>)
    | Obj(fields: seq<Field>)

  predicate SafeInteger(x: Number) {
    x.MinusZero? || (x.Whole? && -MAX_SAFE <= x.n <= MAX_SAFE)
  }

  // ---- Characters --------------------------------------------------------------------

  const QUOTE: Unit := 34
  const MINUS: Unit := 45
  const SLASH: Unit := 47
  const COLON: Unit := 58
  const BACKSLASH: Unit := 92
  const OPEN_BRACKET: Unit := 91
  const CLOSE_BRACKET: Unit := 93
  const OPEN_BRACE: Unit := 123
  const CLOSE_BRACE: Unit := 125
  const LETTER_U: Unit := 117

  const NULL_TEXT: Text := [110, 117, 108, 108]
  const TRUE_TEXT: Text := [116, 114, 117, 101]
  const FALSE_TEXT: Text := [102, 97, 108, 115, 101]

  // ---- Printing ----------------------------------------------------------------------

  function HexDigit(d: nat): Unit
    requires d < 16
  {
    if d < 10 then 48 + d as Unit else 87 + d as Unit
  }

  function Hex4(u: Unit): Text {
    var n := u as nat;
    [HexDigit(n / 4096), HexDigit(n / 256 % 16), HexDigit(n / 16 % 16), HexDigit(n % 16)]
  }

  /** How `JSON.stringify` writes one code unit on its own; a surrogate without its other half is escaped. */
  function EscapeUnit(u: Unit): Text {
    if u == QUOTE then [BACKSLASH, QUOTE]
    else if u == BACKSLASH then [BACKSLASH, BACKSLASH]
    else if u == 8 then [BACKSLASH, 98]
    else if u == 12 then [BACKSLASH, 102]
    else if u == 10 then [BACKSLASH, 110]
    else if u == 13 then [BACKSLASH, 114]
    else if u == 9 then [BACKSLASH, 116]
    else if u < 32 || HighSurrogate(u) || LowSurrogate(u) then [BACKSLASH, LETTER_U] + Hex4(u)
    else [u]
  }

  function Escape(s: Text): Text {
    if s == [] then []
    else if StartsWithPair(s) then [s[0], s[1]] + Escape(s[2..])
    else EscapeUnit(s[0]) + Escape(s[1..])
  }

  /** `JSON.stringify` of a string. */
  function Quoted(s: Text): Text {
    [QUOTE] + Escape(s) + [QUOTE]
  }

  function PrintNumber(x: Number): Text {
    match x
    case Whole(n) => if n < 0 then [MINUS] + Digits(-n) else Digits(n)
    case MinusZero => Digits(0)
    case NotWhole => []
  }

  /** Keys compare by code unit, a prefix before what it begins. */
  predicate AtMost(a: Text, b: Text) {
    a == [] || (b != [] && (a[0] < b[0] || (a[0] == b[0] && AtMost(a[1..], b[1..]))))
  }

  function ByKey(): (Field, Field) -> bool {
    (a: Field, b: Field) => AtMost(a.key, b.key)
  }

  function SortedFields(fields: seq<Field>): (sorted: seq<Field>)
    ensures multiset(sorted) == multiset(fields)
    ensures forall f | f in sorted :: f in fields
  {
    Sorting.SortPermutes(ByKey(), fields);
    var sorted := Sorting.Sort(ByKey(), fields);
    assert forall f | f in sorted :: f in multiset(sorted);
    sorted
  }

  function Print(v: Value): Text
    decreases v, 1
  {
    match v
    case Null => NULL_TEXT
    case Bool(b) => if b then TRUE_TEXT else FALSE_TEXT
    case Num(x) => PrintNumber(x)
    case Str(s) => Quoted(s)
    case Arr(items) => [OPEN_BRACKET] + PrintItems(items, v) + [CLOSE_BRACKET]
    case Obj(fields) => [OPEN_BRACE] + PrintFields(SortedFields(fields), v) + [CLOSE_BRACE]
  }

  function PrintItems(items: seq<Value>, ghost whole: Value): Text
    requires forall item | item in items :: item < whole
    decreases whole, 0, |items|
  {
    if items == [] then []
    else
      assert items[0] in items && forall item | item in items[1..] :: item in items;
      Print(items[0]) + if |items| == 1 then [] else [COMMA] + PrintItems(items[1..], whole)
  }

  function PrintFields(fields: seq<Field>, ghost whole: Value): Text
    requires forall f | f in fields :: f.value < whole
    decreases whole, 0, |fields|
  {
    if fields == [] then []
    else
      assert fields[0] in fields && forall f | f in fields[1..] :: f in fields;
      Quoted(fields[0].key) + [COLON] + Print(fields[0].value)
        + if |fields| == 1 then [] else [COMMA] + PrintFields(fields[1..], whole)
  }

  /** Every number in the value is a safe integer. */
  predicate Admitted(v: Value) {
    match v
    case Num(x) => SafeInteger(x)
    case Arr(items) => forall i | 0 <= i < |items| :: Admitted(items[i])
    case Obj(fields) => forall i | 0 <= i < |fields| :: Admitted(fields[i].value)
    case _ => true
  }

  /** `canonicalJson`: refused for anything but safe integers, rather than guessed at. */
  function Canonical(v: Value): Option<Text> {
    if Admitted(v) then Some(Print(v)) else None
  }
}
