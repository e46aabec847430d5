/**
 * The bytes a score attestation signs (packages/purse-types/src/attestation.ts): the
 * domain, then the payload's canonical JSON, in UTF-8 and of bounded length.
 */
module Attestation {
  import opened Common
  import opened CanonicalJson
  import opened CanonicalJsonTheorems
  import opened Texts
  import opened Utf8

  /** `purse-score-attestation/1` and a newline. */
  const DOMAIN: Text := [112, 117, 114, 115, 101, 45, 115, 99, 111, 114, 101, 45, 97, 116, 116, 101, 115, 116, 97,
      116, 105, 111, 110, 47, 49, 10]

  const MAX_BYTES: nat := 4096

  datatype Refusal = NotCanonical | TooLong

  function Bounded(bytes: seq<Byte>): Result<seq<Byte>, Refusal> {
    if |bytes| > MAX_BYTES then Err(TooLong) else Ok(bytes)
  }

  /** `attestationBytes`: what is signed, unless it cannot be written or is too long. */
  function AttestationBytes(v: Value): Result<seq<Byte>, Refusal> {
    match Canonical(v)
    case None => Err(NotCanonical)
    case Some(text) => Bounded(Encode(DOMAIN + text))
  }

  lemma {:induction false} SignedWellFormed(v: Value)
    requires Admitted(v)
    ensures WellFormed(DOMAIN + Print(v))
  {
    PrintWellFormed(v);
    PlainUnits(DOMAIN);
    WellFormedConcat(DOMAIN, Print(v));
  }

  /** The texts are told apart by their bytes, and the values by their texts. */
  lemma {:induction false} BytesMeanSame(a: Value, b: Value)
    requires UniqueKeys(a) && UniqueKeys(b) && Admitted(a) && Admitted(b)
    ensures Encode(DOMAIN + Print(a)) == Encode(DOMAIN + Print(b)) <==> Same(a, b)
  {
    OneTextOneValue(a, b);
    SignedWellFormed(a);
    SignedWellFormed(b);
    if Encode(DOMAIN + Print(a)) == Encode(DOMAIN + Print(b)) {
      EncodeInjective(DOMAIN + Print(a), DOMAIN + Print(b));
      assert Print(a) == (DOMAIN + Print(a))[|DOMAIN|..] && Print(b) == (DOMAIN + Print(b))[|DOMAIN|..];
    }
  }

  /**
   * Payloads that are the same up to key order and the sign of zero are signed alike or
   * refused alike, and no others share their bytes: one signature covers one payload.
   */
  lemma {:induction false} SignedMeansSame(a: Value, b: Value)
    requires UniqueKeys(a) && UniqueKeys(b)
    ensures Same(a, b) ==> AttestationBytes(a) == AttestationBytes(b)
    ensures AttestationBytes(a).Ok? && AttestationBytes(b).Ok? ==>
      (AttestationBytes(a) == AttestationBytes(b) <==> Same(a, b))
  {
    BytesOf(a);
    BytesOf(b);
    if Same(a, b) {
      SameAdmitted(a, b);
    }
    if Admitted(a) && Admitted(b) {
      BytesMeanSame(a, b);
    }
  }

  lemma {:induction false} BytesOf(v: Value)
    ensures !Admitted(v) ==> AttestationBytes(v) == Err(NotCanonical)
    ensures Admitted(v) ==> AttestationBytes(v) == Bounded(Encode(DOMAIN + Print(v)))
  {
  }

  lemma {:induction false} SameAdmitted(a: Value, b: Value)
    requires UniqueKeys(a) && UniqueKeys(b) && Same(a, b)
    ensures Admitted(a) <==> Admitted(b)
  {
    SameIsCanon(a, b);
    AdmittedCanon(a);
    AdmittedCanon(b);
  }
}
