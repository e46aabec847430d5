/**
 * What `TextEncoder` makes of text: UTF-8 by section 3 of RFC 3629, one to four bytes a
 * character, with a surrogate that stands alone replaced by U+FFFD.
 */
module Utf8 {
  import opened Texts

  const REPLACEMENT: nat := 0xfffd

  predicate HighSurrogate(u: Unit) {
    0xd800 <= u <= 0xdbff
  }

  predicate LowSurrogate(u: Unit) {
    0xdc00 <= u <= 0xdfff
  }

  predicate StartsWithPair(t: Text) {
    |t| >= 2 && HighSurrogate(t[0]) && LowSurrogate(t[1])
  }

  /** Every high surrogate is followed by a low one, and no low one stands alone. */
  predicate WellFormed(t: Text) {
    if t == [] then true
    else if StartsWithPair(t) then WellFormed(t[2..])
    else !HighSurrogate(t[0]) && !LowSurrogate(t[0]) && WellFormed(t[1..])
  }

  // ---- Encoding ----------------------------------------------------------------------

  /** The character a text begins with. */
  function First(t: Text): (character: nat)
    requires t != []
    ensures character < 0x11_0000
  {
    if StartsWithPair(t) then 0x1_0000 + (t[0] as nat - 0xd800) * 0x400 + (t[1] as nat - 0xdc00)
    else if HighSurrogate(t[0]) || LowSurrogate(t[0]) then REPLACEMENT
    else t[0] as nat
  }

  function Rest(t: Text): (rest: Text)
    requires t != []
    ensures |rest| < |t|
  {
    if StartsWithPair(t) then t[2..] else t[1..]
  }

  function Continuation(n: nat): Byte {
    0x80 + (n % 64) as Byte
  }

  function Bytes(character: nat): (bytes: seq<Byte>)
    requires character < 0x11_0000
    ensures bytes != []
  {
    if character < 0x80 then [character as Byte]
    else if character < 0x800 then [0xc0 + (character / 64) as Byte, Continuation(character)]
    else if character < 0x1_0000 then
      [0xe0 + (character / 4096) as Byte, Continuation(character / 64), Continuation(character)]
    else
      [0xf0 + (character / 262144) as Byte, Continuation(character / 4096), Continuation(character / 64),
       Continuation(character)]
  }

  function Encode(t: Text): seq<Byte> {
    if t == [] then [] else Bytes(First(t)) + Encode(Rest(t))
  }

  // ---- It can be undone --------------------------------------------------------------

  /** The character some bytes begin with, told by the first of them, and the bytes after it. */
  function Read(bytes: seq<Byte>): (int, seq<Byte>)
    requires bytes != []
  {
    var lead := bytes[0] as int;
    if lead < 0xc0 || |bytes| < 2 then (lead, bytes[1..])
    else if lead < 0xe0 || |bytes| < 3 then ((lead - 0xc0) * 64 + Bits(bytes[1]), bytes[2..])
    else if lead < 0xf0 || |bytes| < 4 then
      ((lead - 0xe0) * 4096 + Bits(bytes[1]) * 64 + Bits(bytes[2]), bytes[3..])
    else
      ((lead - 0xf0) * 262144 + Bits(bytes[1]) * 4096 + Bits(bytes[2]) * 64 + Bits(bytes[3]), bytes[4..])
  }

  function Bits(b: Byte): int {
    b as int - 0x80
  }

  lemma {:induction false} Sextets(n: nat)
    ensures n == n / 64 * 64 + n % 64
    ensures n == n / 4096 * 4096 + n / 64 % 64 * 64 + n % 64
    ensures n == n / 262144 * 262144 + n / 4096 % 64 * 4096 + n / 64 % 64 * 64 + n % 64
  {
    assert n / 64 / 64 == n / 4096 && n / 4096 / 64 == n / 262144;
  }

  lemma {:induction false} CharacterRoundTrip(character: nat, rest: seq<Byte>)
    requires character < 0x11_0000
    ensures Read(Bytes(character) + rest) == (character, rest)
  {
    Sextets(character);
    var bytes := Bytes(character);
    assert (bytes + rest)[|bytes|..] == rest;
  }

  /** A text of whole characters is given by the one it begins with and the text after that. */
  lemma {:induction false} SameStart(a: Text, b: Text)
    requires a != [] && b != [] && WellFormed(a) && WellFormed(b)
    requires First(a) == First(b) && Rest(a) == Rest(b)
    ensures a == b
  {
    if StartsWithPair(a) {
      assert a == [a[0], a[1]] + Rest(a) && b == [b[0], b[1]] + Rest(b);
    } else {
      assert a == [a[0]] + Rest(a) && b == [b[0]] + Rest(b);
    }
  }

  /** Two well-formed texts with the same bytes are one text. */
  lemma {:induction false} EncodeInjective(a: Text, b: Text)
    requires WellFormed(a) && WellFormed(b) && Encode(a) == Encode(b)
    ensures a == b
    decreases |a|
  {
    if a != [] && b != [] {
      CharacterRoundTrip(First(a), Encode(Rest(a)));
      CharacterRoundTrip(First(b), Encode(Rest(b)));
      EncodeInjective(Rest(a), Rest(b));
      SameStart(a, b);
    }
  }

  // ---- Text that is not well formed --------------------------------------------------

  /** The text with every surrogate that stands alone replaced. */
  function Mended(t: Text): Text {
    if t == [] then []
    else if StartsWithPair(t) then [t[0], t[1]] + Mended(t[2..])
    else if HighSurrogate(t[0]) || LowSurrogate(t[0]) then [REPLACEMENT as Unit] + Mended(t[1..])
    else [t[0]] + Mended(t[1..])
  }

  lemma {:induction false} EncodesAsMended(t: Text)
    ensures WellFormed(Mended(t)) && Encode(Mended(t)) == Encode(t)
    ensures WellFormed(t) ==> Mended(t) == t
    decreases |t|
  {
    if t != [] {
      EncodesAsMended(Rest(t));
      var mended := Mended(t);
      if StartsWithPair(t) {
        assert mended[2..] == Mended(t[2..]) && t == [t[0], t[1]] + t[2..];
      } else {
        assert mended[1..] == Mended(t[1..]) && t == [t[0]] + t[1..];
      }
    }
  }

  /** Two texts have the same bytes exactly when they differ at most in surrogates that stand alone. */
  lemma {:induction false} EncodeExact(a: Text, b: Text)
    ensures Encode(a) == Encode(b) <==> Mended(a) == Mended(b)
  {
    EncodesAsMended(a);
    EncodesAsMended(b);
    if Encode(a) == Encode(b) {
      EncodeInjective(Mended(a), Mended(b));
    }
  }

  // ---- Well-formed text --------------------------------------------------------------

  lemma {:induction false} WellFormedConcat(a: Text, b: Text)
    requires WellFormed(a) && WellFormed(b)
    ensures WellFormed(a + b)
  {
    if a == [] {
      assert a + b == b;
    } else if StartsWithPair(a) {
      WellFormedConcat(a[2..], b);
      assert (a + b)[2..] == a[2..] + b;
    } else {
      WellFormedConcat(a[1..], b);
      assert (a + b)[1..] == a[1..] + b;
    }
  }

  lemma {:induction false} PlainUnits(t: Text)
    requires forall i | 0 <= i < |t| :: !HighSurrogate(t[i]) && !LowSurrogate(t[i])
    ensures WellFormed(t)
  {
    if t != [] {
      PlainUnits(t[1..]);
    }
  }
}
