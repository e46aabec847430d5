/** Text as JavaScript has it, UTF-16 code units, and whole numbers written in it. */
module Texts {

  newtype Unit = x: int | 0 <= x < 0x1_0000

  newtype Byte = x: int | 0 <= x < 0x100

  type Text = seq<Unit>

  const COMMA: Unit := 44

  predicate Digit(u: Unit) {
    48 <= u <= 57
  }

  function Digits(n: nat): Text {
    if n < 10 then [48 + n as Unit] else Digits(n / 10) + [48 + (n % 10) as Unit]
  }

  function Decimal(digits: Text): int {
    if digits == [] then 0 else Decimal(digits[..|digits| - 1]) * 10 + (digits[|digits| - 1] as int - 48)
  }

  function DigitCount(t: Text): (n: nat)
    ensures n <= |t|
  {
    if t == [] || !Digit(t[0]) then 0 else 1 + DigitCount(t[1..])
  }

  /** A number reads back from its digits. */
  lemma {:induction false} DigitsAre(n: nat)
    ensures Digits(n) != [] && (forall i | 0 <= i < |Digits(n)| :: Digit(Digits(n)[i])) && Decimal(Digits(n)) == n
  {
    if n < 10 {
      assert Digits(n)[..0] == [];
    } else {
      DigitsAre(n / 10);
      assert Digits(n)[..|Digits(n)| - 1] == Digits(n / 10);
    }
  }

  lemma {:induction false} CountsDigits(digits: Text, rest: Text)
    requires forall i | 0 <= i < |digits| :: Digit(digits[i])
    requires rest == [] || !Digit(rest[0])
    ensures DigitCount(digits + rest) == |digits|
  {
    if digits == [] {
      assert digits + rest == rest;
    } else {
      CountsDigits(digits[1..], rest);
      assert (digits + rest)[1..] == digits[1..] + rest;
    }
  }

  function TenTo(k: nat): nat {
    if k == 0 then 1 else 10 * TenTo(k - 1)
  }

  lemma {:induction false} TenToTwelve()
    ensures TenTo(12) == 1_000_000_000_000
  {
    assert TenTo(4) == 10_000 && TenTo(8) == 100_000_000;
  }

  /** A number has at most `k` digits exactly when it is below ten to the `k`. */
  lemma {:induction false} DigitsLength(n: nat, k: nat)
    requires k > 0
    ensures |Digits(n)| <= k <==> n < TenTo(k)
  {
    if n < 10 {
      AtLeastTen(k);
    } else if k == 1 {
      DigitsAre(n / 10);
    } else {
      DigitsLength(n / 10, k - 1);
    }
  }

  lemma {:induction false} AtLeastTen(k: nat)
    requires k > 0
    ensures TenTo(k) >= 10
  {
    if k > 1 {
      AtLeastTen(k - 1);
    }
  }
}
