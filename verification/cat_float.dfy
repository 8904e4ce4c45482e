/** The result type of the classifier: five shapes a 64-bit float can have,
    with the parts of the value each shape carries. Variants are compared
    structurally, so `Nan` equals `Nan`. */
module CatFloats {
  import opened Float64

  datatype CatFloat =
    /** No fractional part, like 1.0 or -100.0; carries the value itself. */
    | IntegerLike(whole: F64)
    /** No integer part, like 0.5 or -0.002; carries the fractional part. */
    | FractionLike(fraction: F64)
    /** Both parts nonzero: the integer part, then the fractional part. */
    | IntegerAndFractionalPart(intPart: F64, fractPart: F64)
    /** The float was NaN. */
    | Nan
    /** The float was an infinity, of either sign. */
    | Infinity
  {
    predicate IsIntegerLike()
      ensures IsIntegerLike() <==> IntegerLike?
    {
      match this
      case IntegerLike(_) => true
      case _ => false
    }

    predicate IsFractionLike()
      ensures IsFractionLike() <==> FractionLike?
    {
      match this
      case FractionLike(_) => true
      case _ => false
    }

    predicate IsIntegerAndFractionalPart()
      ensures IsIntegerAndFractionalPart() <==> IntegerAndFractionalPart?
    {
      match this
      case IntegerAndFractionalPart(_, _) => true
      case _ => false
    }

    predicate IsInfinity()
      ensures IsInfinity() <==> Infinity?
    {
      match this
      case Infinity => true
      case _ => false
    }

    predicate IsNan()
      ensures IsNan() <==> Nan?
    {
      match this
      case Nan => true
      case _ => false
    }

    /** How many of the five predicates hold. */
    function PredicatesHolding(): (n: nat) {
      (if IsIntegerLike() then 1 else 0)
      + (if IsFractionLike() then 1 else 0)
      + (if IsIntegerAndFractionalPart() then 1 else 0)
      + (if IsInfinity() then 1 else 0)
      + (if IsNan() then 1 else 0)
    }
  }

  /** Exactly one of the five predicates holds of any value. */
  lemma ExactlyOnePredicate(c: CatFloat)
    ensures c.PredicatesHolding() == 1
  {
  }
}
