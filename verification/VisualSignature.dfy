/** Compact grayscale signatures and the normalised L1 distance between them. */
module VisualSignature {

  type Byte = b: int | 0 <= b < 256

  const VISUAL_SIGNATURE_PIXEL_COUNT := 16 * 18
  const VISUAL_SIGNATURE_BYTES := VISUAL_SIGNATURE_PIXEL_COUNT / 2

  predicate IsVisualSignature(s: seq<Byte>) {
    |s| == VISUAL_SIGNATURE_BYTES
  }

  function Abs(x: int): nat {
    if x < 0 then -x else x
  }

  /** Two packed pixels of four bits each. */
  function ByteDifference(a: Byte, b: Byte): nat {
    Abs(a / 16 - b / 16) + Abs(a % 16 - b % 16)
  }

  function Difference(a: seq<Byte>, b: seq<Byte>): nat
    requires |a| == |b|
  {
    if a == [] then 0 else ByteDifference(a[0], b[0]) + Difference(a[1..], b[1..])
  }

  /** `visual_signature_change_score` */
  function ChangeScore(a: seq<Byte>, b: seq<Byte>): real
    requires IsVisualSignature(a) && IsVisualSignature(b)
  {
    Difference(a, b) as real / (VISUAL_SIGNATURE_PIXEL_COUNT * 15) as real
  }

  lemma ByteDifferenceIsMetric(a: Byte, b: Byte, c: Byte)
    ensures ByteDifference(a, b) == ByteDifference(b, a) <= 30
    ensures ByteDifference(a, b) == 0 <==> a == b
    ensures ByteDifference(a, c) <= ByteDifference(a, b) + ByteDifference(b, c)
  {
    assert a == 16 * (a / 16) + a % 16 && b == 16 * (b / 16) + b % 16;
  }

  lemma {:induction false} DifferenceIsMetric(a: seq<Byte>, b: seq<Byte>, c: seq<Byte>)
    requires |a| == |b| == |c|
    ensures Difference(a, b) == Difference(b, a)
    ensures Difference(a, b) == 0 <==> a == b
    ensures Difference(a, c) <= Difference(a, b) + Difference(b, c)
    ensures Difference(a, b) <= 30 * |a|
  {
    if a != [] {
      DifferenceIsMetric(a[1..], b[1..], c[1..]);
      assert a == [a[0]] + a[1..] && b == [b[0]] + b[1..];
      ByteDifferenceIsMetric(a[0], b[0], c[0]);
    }
  }

  lemma Scaled(x: nat, y: nat, z: nat)
    ensures x <= y + z ==> x as real / 4320.0 <= y as real / 4320.0 + z as real / 4320.0
    ensures 0.0 <= x as real / 4320.0
    ensures x as real / 4320.0 == 0.0 <==> x == 0
    ensures x <= 4320 ==> x as real / 4320.0 <= 1.0
  {
  }

  /** The score is a metric on signatures with values between 0 and 1. */
  lemma ChangeScoreIsMetric(a: seq<Byte>, b: seq<Byte>, c: seq<Byte>)
    requires IsVisualSignature(a) && IsVisualSignature(b) && IsVisualSignature(c)
    ensures 0.0 <= ChangeScore(a, b) <= 1.0
    ensures ChangeScore(a, b) == 0.0 <==> a == b
    ensures ChangeScore(a, b) == ChangeScore(b, a)
    ensures ChangeScore(a, c) <= ChangeScore(a, b) + ChangeScore(b, c)
  {
    DifferenceIsMetric(a, b, c);
    ScoreIsScaled(a, b);
    ScoreIsScaled(b, c);
    ScoreIsScaled(a, c);
    ScoreIsScaled(b, a);
    Scaled(Difference(a, c), Difference(a, b), Difference(b, c));
    Scaled(Difference(a, b), 0, 0);
  }

  lemma ScoreIsScaled(a: seq<Byte>, b: seq<Byte>)
    requires IsVisualSignature(a) && IsVisualSignature(b)
    ensures ChangeScore(a, b) == Difference(a, b) as real / 4320.0
  {
  }
}
