/** Canonical JSON is injective, and its text is well-formed UTF-16 whatever it is given. */
module CanonicalJsonTheorems {
  import opened Common
  import opened CanonicalJson
  import opened CanonicalJsonParser
  import opened Texts
  import opened Utf8
  import Sorting

  // ---- When two values are one -------------------------------------------------------

  predicate DistinctKeys(fields: seq<Field>) {
    forall i, j | 0 <= i < j < |fields| :: fields[i].key != fields[j].key
  }

  /** An object has each key once, as every JavaScript object does. */
  predicate UniqueKeys(v: Value) {
    match v
    case Arr(items) => forall i | 0 <= i < |items| :: UniqueKeys(items[i])
    case Obj(fields) => DistinctKeys(fields) && forall i | 0 <= i < |fields| :: UniqueKeys(fields[i].value)
    case _ => true
  }

  /** The same value up to the order of keys and the sign of zero. */
  predicate Same(a: Value, b: Value) {
    match a
    case Num(x) => b.Num? && Plain(x) == Plain(b.number)
    case Arr(items) =>
      b.Arr? && |items| == |b.items| && forall i | 0 <= i < |items| :: Same(items[i], b.items[i])
    case Obj(fields) =>
      && b.Obj? && |fields| == |b.fields|
      && forall i | 0 <= i < |fields| ::
          exists j :: 0 <= j < |b.fields| && b.fields[j].key == fields[i].key
            && Same(fields[i].value, b.fields[j].value)
    case _ => a == b
  }

  // ---- Keys are totally ordered ------------------------------------------------------

  lemma {:induction false} AtMostIsTotal(a: Text, b: Text)
    ensures AtMost(a, b) || AtMost(b, a)
    ensures AtMost(a, b) && AtMost(b, a) ==> a == b
  {
    if a != [] && b != [] && a[0] == b[0] {
      AtMostIsTotal(a[1..], b[1..]);
      assert a == [a[0]] + a[1..] && b == [b[0]] + b[1..];
    }
  }

  lemma {:induction false} AtMostTransitive(a: Text, b: Text, c: Text)
    requires AtMost(a, b) && AtMost(b, c)
    ensures AtMost(a, c)
  {
    if a != [] && a[0] == b[0] && b[0] == c[0] {
      AtMostTransitive(a[1..], b[1..], c[1..]);
    }
  }

  lemma {:induction false} ByKeyIsTotal()
    ensures Sorting.TotalPreorder(ByKey())
  {
    forall a, b ensures ByKey()(a, b) || ByKey()(b, a) {
      AtMostIsTotal(a.key, b.key);
    }
    forall a, b, c | ByKey()(a, b) && ByKey()(b, c) ensures ByKey()(a, c) {
      AtMostTransitive(a.key, b.key, c.key);
    }
  }

  // ---- Canonical fields --------------------------------------------------------------

  /** The fields of a canonical object: in key order, each key once, holding the canonical values. */
  lemma {:induction false} CanonFieldsOf(fields: seq<Field>, whole: Value) returns (canon: seq<Field>)
    requires DistinctKeys(fields) && whole == Obj(fields)
    ensures Canon(whole) == Obj(canon) && |canon| == |fields|
    ensures Sorting.Sorted(ByKey(), canon) && DistinctKeys(canon)
    ensures forall f | f in fields :: Field(f.key, Canon(f.value)) in canon
    ensures forall c | c in canon :: exists i :: 0 <= i < |fields| && c == Field(fields[i].key, Canon(fields[i].value))
  {
    var sorted := SortedFields(fields);
    canon := CanonFields(sorted, whole);
    ByKeyIsTotal();
    Sorting.SortSorts(ByKey(), fields);
    SortedDistinct(fields, sorted);
    CanonOrdered(sorted, canon);
    CanonHolds(fields, sorted, canon);
  }

  lemma {:induction false} CanonOrdered(sorted: seq<Field>, canon: seq<Field>)
    requires Sorting.Sorted(ByKey(), sorted) && DistinctKeys(sorted)
    requires |canon| == |sorted| && forall i | 0 <= i < |sorted| :: canon[i].key == sorted[i].key
    ensures Sorting.Sorted(ByKey(), canon) && DistinctKeys(canon)
  {
    forall i, j | 0 <= i < j < |canon| ensures ByKey()(canon[i], canon[j]) {
      assert ByKey()(sorted[i], sorted[j]);
    }
  }

  lemma {:induction false} CanonHolds(fields: seq<Field>, sorted: seq<Field>, canon: seq<Field>)
    requires multiset(sorted) == multiset(fields) && |canon| == |sorted|
    requires forall i | 0 <= i < |sorted| :: canon[i] == Field(sorted[i].key, Canon(sorted[i].value))
    ensures |canon| == |fields|
    ensures forall f | f in fields :: Field(f.key, Canon(f.value)) in canon
    ensures forall c | c in canon :: exists i :: 0 <= i < |fields| && c == Field(fields[i].key, Canon(fields[i].value))
  {
    assert |sorted| == |multiset(sorted)| == |multiset(fields)| == |fields|;
    forall f | f in fields ensures Field(f.key, Canon(f.value)) in canon {
      assert f in multiset(fields) && f in multiset(sorted);
      var i :| 0 <= i < |sorted| && sorted[i] == f;
      assert canon[i] == Field(f.key, Canon(f.value));
    }
    forall c | c in canon ensures exists i :: 0 <= i < |fields| && c == Field(fields[i].key, Canon(fields[i].value)) {
      var p :| 0 <= p < |canon| && canon[p] == c;
      assert sorted[p] in multiset(sorted) && sorted[p] in multiset(fields);
      var i :| 0 <= i < |fields| && fields[i] == sorted[p];
    }
  }

  lemma {:induction false} SortedDistinct(fields: seq<Field>, sorted: seq<Field>)
    requires DistinctKeys(fields) && multiset(sorted) == multiset(fields)
    ensures DistinctKeys(sorted)
  {
    forall i, j | 0 <= i < j < |sorted| ensures sorted[i].key != sorted[j].key {
      if sorted[i].key == sorted[j].key {
        assert sorted[i] in multiset(fields) && sorted[j] in multiset(fields);
        Sorting.Twice(sorted, i, j);
        Sorting.AtMostOnce(fields, sorted[i]);
      }
    }
  }

  /** A list no longer than another that holds all its elements, each once, is that list in some order. */
  lemma {:induction false} AllInside<T>(a: seq<T>, b: seq<T>)
    requires |a| == |b| && forall i, j | 0 <= i < j < |a| :: a[i] != a[j]
    requires forall x | x in a :: x in b
    ensures multiset(a) == multiset(b)
  {
    if a != [] {
      var x, rest := a[0], a[1..];
      var before, after := Sorting.Pull(b, x);
      assert b == before + [x] + after;
      forall y | y in rest ensures y in before + after {
        var i :| 0 <= i < |rest| && rest[i] == y;
        assert a[i + 1] == y && a[0] != a[i + 1];
        assert y in b;
      }
      AllInside(rest, before + after);
      assert a == [x] + rest;
    }
  }

  lemma {:induction false} SameSortedFields(a: seq<Field>, b: seq<Field>)
    requires |a| == |b| && DistinctKeys(a) && Sorting.Sorted(ByKey(), a) && Sorting.Sorted(ByKey(), b)
    requires forall f | f in a :: f in b
    ensures a == b
  {
    ByKeyIsTotal();
    AllInside(a, b);
    forall x, y | x in a && y in a && ByKey()(x, y) && ByKey()(y, x) ensures x == y {
      AtMostIsTotal(x.key, y.key);
      var i :| 0 <= i < |a| && a[i] == x;
      var j :| 0 <= j < |a| && a[j] == y;
    }
    Sorting.SortedUnique(ByKey(), a, b);
  }

  // ---- Same value, same text ---------------------------------------------------------

  lemma {:induction false} SameIsCanon(a: Value, b: Value)
    requires UniqueKeys(a) && UniqueKeys(b)
    ensures Same(a, b) <==> Canon(a) == Canon(b)
    decreases a
  {
    if a.Arr? && b.Arr? {
      ArraysSame(a, b);
    } else if a.Obj? && b.Obj? {
      if Same(a, b) {
        ObjectsCanon(a, b);
      }
      if Canon(a) == Canon(b) {
        ObjectsSame(a, b);
      }
    }
  }

  lemma {:induction false} ArraysSame(a: Value, b: Value)
    requires a.Arr? && b.Arr? && UniqueKeys(a) && UniqueKeys(b)
    ensures Same(a, b) <==> Canon(a) == Canon(b)
    decreases a, 0
  {
    var xs, ys := a.items, b.items;
    if |xs| == |ys| {
      forall i | 0 <= i < |xs| ensures Same(xs[i], ys[i]) <==> Canon(xs[i]) == Canon(ys[i]) {
        SameIsCanon(xs[i], ys[i]);
      }
      var cs, ds := CanonItems(xs, a), CanonItems(ys, b);
      if cs == ds {
        forall i | 0 <= i < |xs| ensures Same(xs[i], ys[i]) {
          assert cs[i] == ds[i];
        }
      }
      if Same(a, b) {
        assert forall i | 0 <= i < |xs| :: cs[i] == ds[i];
      }
    }
  }

  lemma {:induction false} ObjectsCanon(a: Value, b: Value)
    requires a.Obj? && b.Obj? && UniqueKeys(a) && UniqueKeys(b) && Same(a, b)
    ensures Canon(a) == Canon(b)
    decreases a, 0
  {
    var cs := CanonFieldsOf(a.fields, a);
    var ds := CanonFieldsOf(b.fields, b);
    forall f | f in cs ensures f in ds {
      var i :| 0 <= i < |a.fields| && f == Field(a.fields[i].key, Canon(a.fields[i].value));
      var j :| 0 <= j < |b.fields| && b.fields[j].key == a.fields[i].key && Same(a.fields[i].value, b.fields[j].value);
      SameIsCanon(a.fields[i].value, b.fields[j].value);
      assert b.fields[j] in b.fields;
    }
    SameSortedFields(cs, ds);
  }

  lemma {:induction false} ObjectsSame(a: Value, b: Value)
    requires a.Obj? && b.Obj? && UniqueKeys(a) && UniqueKeys(b) && Canon(a) == Canon(b)
    ensures Same(a, b)
    decreases a, 0
  {
    var cs := CanonFieldsOf(a.fields, a);
    var ds := CanonFieldsOf(b.fields, b);
    forall i | 0 <= i < |a.fields|
      ensures exists j ::
        0 <= j < |b.fields| && b.fields[j].key == a.fields[i].key && Same(a.fields[i].value, b.fields[j].value)
    {
      assert a.fields[i] in a.fields;
      var f := Field(a.fields[i].key, Canon(a.fields[i].value));
      assert f in ds;
      var j :| 0 <= j < |b.fields| && f == Field(b.fields[j].key, Canon(b.fields[j].value));
      SameIsCanon(a.fields[i].value, b.fields[j].value);
    }
  }

  // ---- The text says no more than the canonical value --------------------------------

  /** Print without sorting, for a value already in canonical order. */
  function PrintAsIs(v: Value): Text
    decreases v, 1
  {
    match v
    case Arr(items) => [OPEN_BRACKET] + PrintItemsAsIs(items, v) + [CLOSE_BRACKET]
    case Obj(fields) => [OPEN_BRACE] + PrintFieldsAsIs(fields, v) + [CLOSE_BRACE]
    case Num(x) => PrintNumber(x)
    case Null => NULL_TEXT
    case Bool(b) => if b then TRUE_TEXT else FALSE_TEXT
    case Str(s) => Quoted(s)
  }

  function PrintItemsAsIs(items: seq<Value>, ghost whole: Value): Text
    requires forall item | item in items :: item < whole
    decreases whole, 0, |items|
  {
    if items == [] then []
    else
      assert items[0] in items && forall item | item in items[1..] :: item in items;
      PrintAsIs(items[0]) + if |items| == 1 then [] else [COMMA] + PrintItemsAsIs(items[1..], whole)
  }

  function PrintFieldsAsIs(fields: seq<Field>, ghost whole: Value): Text
    requires forall f | f in fields :: f.value < whole
    decreases whole, 0, |fields|
  {
    if fields == [] then []
    else
      assert fields[0] in fields && forall f | f in fields[1..] :: f in fields;
      Quoted(fields[0].key) + [COLON] + PrintAsIs(fields[0].value)
        + if |fields| == 1 then [] else [COMMA] + PrintFieldsAsIs(fields[1..], whole)
  }

  lemma {:induction false} PrintIsCanon(v: Value)
    requires Admitted(v)
    ensures Print(v) == PrintAsIs(Canon(v))
    decreases v, 1
  {
    if v.Arr? {
      forall item | item in v.items ensures Admitted(item) {
        var i :| 0 <= i < |v.items| && v.items[i] == item;
      }
      var canon := CanonItems(v.items, v);
      assert forall item | item in canon :: item < Canon(v);
      ItemsAreCanon(v.items, v, canon, Canon(v));
    } else if v.Obj? {
      SortedAdmitted(v.fields);
      var sorted := SortedFields(v.fields);
      FieldsAreCanon(sorted, v, CanonFields(sorted, v), Canon(v));
    }
  }

  lemma {:induction false} ItemsAreCanon(items: seq<Value>, whole: Value, canon: seq<Value>, canonWhole: Value)
    requires forall item | item in items :: item < whole && Admitted(item)
    requires forall item | item in canon :: item < canonWhole
    requires |canon| == |items| && forall i | 0 <= i < |items| :: canon[i] == Canon(items[i])
    ensures PrintItems(items, whole) == PrintItemsAsIs(canon, canonWhole)
    decreases whole, 0, |items|
  {
    if items != [] {
      assert items[0] in items && forall item | item in items[1..] :: item in items;
      assert canon[0] in canon && forall item | item in canon[1..] :: item in canon;
      PrintIsCanon(items[0]);
      ItemsAreCanon(items[1..], whole, canon[1..], canonWhole);
    }
  }

  lemma {:induction false} FieldsAreCanon(fields: seq<Field>, whole: Value, canon: seq<Field>, canonWhole: Value)
    requires forall f | f in fields :: f.value < whole && Admitted(f.value)
    requires forall f | f in canon :: f.value < canonWhole
    requires |canon| == |fields| && forall i | 0 <= i < |fields| ::
      canon[i] == Field(fields[i].key, Canon(fields[i].value))
    ensures PrintFields(fields, whole) == PrintFieldsAsIs(canon, canonWhole)
    decreases whole, 0, |fields|
  {
    if fields != [] {
      assert fields[0] in fields && forall f | f in fields[1..] :: f in fields;
      assert canon[0] in canon && forall f | f in canon[1..] :: f in canon;
      PrintIsCanon(fields[0].value);
      FieldsAreCanon(fields[1..], whole, canon[1..], canonWhole);
    }
  }

  /** Writing fields in order and zero without its sign changes nothing about what may be written. */
  lemma {:induction false} AdmittedCanon(v: Value)
    ensures Admitted(v) <==> Admitted(Canon(v))
  {
    if v.Arr? {
      forall i | 0 <= i < |v.items| ensures Admitted(v.items[i]) <==> Admitted(Canon(v.items[i])) {
        AdmittedCanon(v.items[i]);
      }
    } else if v.Obj? {
      var sorted := SortedFields(v.fields);
      var canon := CanonFields(sorted, v);
      forall i | 0 <= i < |v.fields| ensures Admitted(v.fields[i].value) <==> Admitted(Canon(v.fields[i].value)) {
        AdmittedCanon(v.fields[i].value);
      }
      CanonHolds(v.fields, sorted, canon);
      FieldsAdmitted(v.fields, canon);
    }
  }

  lemma {:induction false} FieldsAdmitted(fields: seq<Field>, canon: seq<Field>)
    requires forall f | f in fields :: Field(f.key, Canon(f.value)) in canon
    requires forall c | c in canon :: exists i :: 0 <= i < |fields| && c == Field(fields[i].key, Canon(fields[i].value))
    requires forall i | 0 <= i < |fields| :: Admitted(fields[i].value) <==> Admitted(Canon(fields[i].value))
    ensures Admitted(Obj(fields)) <==> Admitted(Obj(canon))
  {
    if Admitted(Obj(fields)) {
      forall p | 0 <= p < |canon| ensures Admitted(canon[p].value) {
        assert canon[p] in canon;
      }
    }
    if Admitted(Obj(canon)) {
      forall i | 0 <= i < |fields| ensures Admitted(fields[i].value) {
        assert fields[i] in fields;
        var p :| 0 <= p < |canon| && canon[p] == Field(fields[i].key, Canon(fields[i].value));
      }
    }
  }

  // ---- Injectivity -------------------------------------------------------------------

  /**
   * Two values have one canonical text exactly when they are the same value up to key
   * order and the sign of zero.
   */
  lemma {:induction false} OneTextOneValue(a: Value, b: Value)
    requires UniqueKeys(a) && UniqueKeys(b) && Canonical(a).Some? && Canonical(b).Some?
    ensures Canonical(a) == Canonical(b) <==> Same(a, b)
  {
    SameIsCanon(a, b);
    PrintIsCanon(a);
    PrintIsCanon(b);
    ValueRoundTrip(a, []);
    ValueRoundTrip(b, []);
    assert Print(a) + [] == Print(a) && Print(b) + [] == Print(b);
  }

  // ---- The signed bytes --------------------------------------------------------------

  lemma {:induction false} EscapeWellFormed(s: Text)
    ensures WellFormed(Escape(s))
    decreases |s|
  {
    if s != [] {
      if StartsWithPair(s) {
        EscapeWellFormed(s[2..]);
        assert Escape(s)[2..] == Escape(s[2..]);
      } else {
        EscapeWellFormed(s[1..]);
        PlainUnits(EscapeUnit(s[0]));
        WellFormedConcat(EscapeUnit(s[0]), Escape(s[1..]));
      }
    }
  }

  lemma {:induction false} QuotedWellFormed(s: Text)
    ensures WellFormed(Quoted(s))
  {
    EscapeWellFormed(s);
    PlainUnits([QUOTE]);
    WellFormedConcat([QUOTE], Escape(s));
    WellFormedConcat([QUOTE] + Escape(s), [QUOTE]);
  }

  /**
   * Whatever lone surrogates a value's strings hold, its canonical text has none, so
   * encoding it as UTF-8 replaces nothing.
   */
  lemma {:induction false} PrintWellFormed(v: Value)
    requires Admitted(v)
    ensures WellFormed(Print(v))
    decreases v, 1
  {
    match v
    case Null => PlainUnits(NULL_TEXT);
    case Bool(_) =>
      PlainUnits(TRUE_TEXT);
      PlainUnits(FALSE_TEXT);
    case Num(x) => NumberWellFormed(x);
    case Str(s) => QuotedWellFormed(s);
    case Arr(items) =>
      forall item | item in items ensures Admitted(item) {
        var i :| 0 <= i < |items| && items[i] == item;
      }
      ItemsWellFormed(items, v);
      Wrapped(OPEN_BRACKET, PrintItems(items, v), CLOSE_BRACKET);
    case Obj(fields) =>
      SortedAdmitted(fields);
      FieldsWellFormed(SortedFields(fields), v);
      Wrapped(OPEN_BRACE, PrintFields(SortedFields(fields), v), CLOSE_BRACE);
  }

  lemma {:induction false} NumberWellFormed(x: Number)
    requires SafeInteger(x)
    ensures WellFormed(PrintNumber(x))
  {
    var n := if x.MinusZero? then 0 else x.n;
    DigitsAre(if n < 0 then -n else n);
    PlainUnits(PrintNumber(x));
  }

  lemma {:induction false} Wrapped(open: Unit, body: Text, close: Unit)
    requires WellFormed(body) && open < 128 && close < 128
    ensures WellFormed([open] + body + [close])
  {
    PlainUnits([open]);
    PlainUnits([close]);
    WellFormedConcat([open], body);
    WellFormedConcat([open] + body, [close]);
  }

  lemma {:induction false} Joined(a: Text, separator: Unit, b: Text)
    requires WellFormed(a) && WellFormed(b) && separator < 128
    ensures WellFormed(a + ([separator] + b)) && WellFormed(a + [separator] + b)
  {
    PlainUnits([separator]);
    WellFormedConcat([separator], b);
    WellFormedConcat(a, [separator] + b);
    WellFormedConcat(a, [separator]);
    WellFormedConcat(a + [separator], b);
  }

  lemma {:induction false} ItemsWellFormed(items: seq<Value>, whole: Value)
    requires forall item | item in items :: item < whole && Admitted(item)
    ensures WellFormed(PrintItems(items, whole))
    decreases whole, 0, |items|
  {
    if items != [] {
      ItemsFront(items, whole);
      assert items[0] in items && forall item | item in items[1..] :: item in items;
      PrintWellFormed(items[0]);
      ItemsWellFormed(items[1..], whole);
      Joined(Print(items[0]), COMMA, PrintItems(items[1..], whole));
      assert Print(items[0]) + [] == Print(items[0]);
    }
  }

  lemma {:induction false} FieldsWellFormed(fields: seq<Field>, whole: Value)
    requires forall f | f in fields :: f.value < whole && Admitted(f.value)
    ensures WellFormed(PrintFields(fields, whole))
    decreases whole, 0, |fields|
  {
    if fields != [] {
      FieldsFront(fields, whole);
      assert fields[0] in fields && forall f | f in fields[1..] :: f in fields;
      PrintWellFormed(fields[0].value);
      FieldsWellFormed(fields[1..], whole);
      MemberWellFormed(fields[0].key, Print(fields[0].value), PrintFields(fields[1..], whole));
    }
  }

  lemma {:induction false} MemberWellFormed(key: Text, printed: Text, more: Text)
    requires WellFormed(printed) && WellFormed(more)
    ensures WellFormed(Quoted(key) + [COLON] + printed + ([COMMA] + more))
    ensures WellFormed(Quoted(key) + [COLON] + printed + [])
  {
    QuotedWellFormed(key);
    Joined(Quoted(key), COLON, printed);
    Joined(Quoted(key) + [COLON] + printed, COMMA, more);
    assert Quoted(key) + [COLON] + printed + [] == Quoted(key) + [COLON] + printed;
  }
}
