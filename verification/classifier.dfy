/** `f64::category`: the first-match decision procedure that gives every
    64-bit float its CatFloat shape. */
module Classifier {
  import opened Float64
  import opened CatFloats

  /** The shape `x` has, described without truncation: whole numbers are
      integer-like and carry themselves; non-whole values strictly between
      -1 and 1 are fraction-like and carry themselves; every other finite value
      splits into a nonzero whole part and a nonzero part below 1 in magnitude,
      both of `x`'s sign, that add up to `x`. */
  predicate Classifies(x: F64, c: CatFloat) {
    match x
    case Inf(_) => c == Infinity
    case NaN => c == Nan
    case Finite(r) =>
      if IsIntegral(r) then c == IntegerLike(x)
      else if -1.0 < r < 1.0 then c == FractionLike(x)
      else c.IntegerAndFractionalPart? && MixedParts(r, c.intPart, c.fractPart)
  }

  /** `i` and `f` are the integer and fractional parts of the real `r`. */
  predicate MixedParts(r: real, i: F64, f: F64) {
    && i.Finite? && f.Finite?
    && IsIntegral(i.r) && i.r != 0.0
    && f.r != 0.0 && Abs(f.r) < 1.0
    && i.r + f.r == r
    && (r > 0.0 ==> i.r > 0.0 && f.r > 0.0)
    && (r < 0.0 ==> i.r < 0.0 && f.r < 0.0)
  }

  /** What the classifier does after the special-value tests: truncate, take
      the remainder, and pick the shape by testing the fractional part for
      zero before the integer part. */
  function Split(x: F64): (c: CatFloat)
    ensures x.Finite? ==> Classifies(x, c)
    ensures !x.Finite? ==> c == IntegerAndFractionalPart(Trunc(x), NaN)
  {
    var intPart := Trunc(x);
    var fractPart := Fract(x);
    if fractPart.IsZero() then IntegerLike(intPart)
    else if intPart.IsZero() then FractionLike(fractPart)
    else IntegerAndFractionalPart(intPart, fractPart)
  }

  /** The classifier: infinities first, then NaN, then the split of a finite
      value. */
  function Classify(x: F64): (c: CatFloat)
    ensures Classifies(x, c)
  {
    if x.IsInfinite() then Infinity
    else if x.IsNaN() then Nan
    else Split(x)
  }

  /** The description pins down one shape per input, so `Classify` is the
      only function that meets it. */
  lemma ClassifiesUnique(x: F64, c: CatFloat, d: CatFloat)
    requires Classifies(x, c) && Classifies(x, d)
    ensures c == d
  {
    if x.Finite? && !IsIntegral(x.r) && !(-1.0 < x.r < 1.0) {
      MixedPartsUnique(x.r, c.intPart, c.fractPart, d.intPart, d.fractPart);
    }
  }

  lemma MixedPartsUnique(r: real, i: F64, f: F64, j: F64, g: F64)
    requires MixedParts(r, i, f) && MixedParts(r, j, g)
    ensures i == j && f == g
  {
    // Both whole parts are the truncation of r.
    MixedPartIsTrunc(r, i, f);
    MixedPartIsTrunc(r, j, g);
  }

  lemma MixedPartIsTrunc(r: real, i: F64, f: F64)
    requires MixedParts(r, i, f)
    ensures i.r == TruncReal(r) && f.r == FractReal(r)
  {
    TruncRealUnique(r, i.r.Floor);
  }

  /** Both infinities are `Infinity`. */
  lemma InfinityCase(neg: bool)
    ensures Classify(Inf(neg)) == Infinity
  {
  }

  /** NaN is `Nan`. */
  lemma NanCase()
    ensures Classify(NaN) == Nan
  {
  }

  /** A finite value with zero fractional part is integer-like and carries its
      truncation, which is the value itself, sign included; zero is one of
      these and so is never fraction-like. */
  lemma IntegerLikeCase(x: F64)
    ensures Classify(x).IntegerLike? <==> x.Finite? && Fract(x).IsZero()
    ensures Classify(x).IntegerLike? ==> Classify(x).whole == Trunc(x) == x
    ensures Classify(Finite(0.0)) == IntegerLike(Finite(0.0))
  {
  }

  /** A finite value with zero truncation and nonzero fractional part is
      fraction-like and carries its fractional part, which is the value itself,
      strictly between 0 and 1 in magnitude. */
  lemma FractionLikeCase(x: F64)
    ensures Classify(x).FractionLike? <==>
              x.Finite? && Trunc(x).IsZero() && !Fract(x).IsZero()
    ensures Classify(x).FractionLike? ==>
              Classify(x).fraction == Fract(x) == x && 0.0 < Abs(x.r) < 1.0
  {
  }

  /** A mixed result carries the truncation and the fractional part: a
      nonzero whole number and a nonzero value below 1 in magnitude, both of
      `x`'s sign, adding up to `x` exactly. */
  lemma MixedCase(x: F64, i: F64, f: F64)
    requires Classify(x) == IntegerAndFractionalPart(i, f)
    ensures i == Trunc(x) && f == Fract(x)
    ensures i.Finite? && f.Finite? && x.Finite?
    ensures IsIntegral(i.r) && i.r != 0.0
    ensures f.r != 0.0 && Abs(f.r) < 1.0
    ensures i.r + f.r == x.r
    ensures x.r > 0.0 ==> i.r > 0.0 && f.r > 0.0
    ensures x.r < 0.0 ==> i.r < 0.0 && f.r < 0.0
  {
  }

  /** No payload is NaN or infinite. */
  predicate PayloadsFinite(c: CatFloat) {
    match c
    case IntegerLike(i) => i.Finite?
    case FractionLike(f) => f.Finite?
    case IntegerAndFractionalPart(i, f) => i.Finite? && f.Finite?
    case _ => true
  }

  /** Every input gets one of the five shapes; a finite input gets exactly one
      of the three that carry a payload, and every payload is finite. */
  lemma Totality(x: F64)
    ensures Classify(x).PredicatesHolding() == 1
    ensures x.Finite? <==>
              Classify(x).IntegerLike? || Classify(x).FractionLike?
              || Classify(x).IntegerAndFractionalPart?
    ensures PayloadsFinite(Classify(x))
  {
  }

  /** Which of the two special-value tests runs first does not matter: no
      value is both infinite and NaN. */
  lemma GuardOrder(x: F64)
    ensures Classify(x) ==
              if x.IsNaN() then Nan else if x.IsInfinite() then Infinity else Split(x)
  {
  }

  /** Without the special-value tests, the split of an infinity or of NaN
      would carry non-finite payloads: the tests must come before
      truncation. */
  lemma SplitNeedsGuards(neg: bool)
    ensures Split(Inf(neg)) == IntegerAndFractionalPart(Inf(neg), NaN)
    ensures Split(NaN) == IntegerAndFractionalPart(NaN, NaN)
    ensures !PayloadsFinite(Split(Inf(neg))) && !PayloadsFinite(Split(NaN))
  {
  }
}
