/** The documented examples and the crate's own test, as lemmas. Literals are
    the reals they are written as. */
module ClassifierExamples {
  import opened Float64
  import opened CatFloats
  import opened Classifier

  /** The trait's doc example: 1.5 splits into 1.0 and 0.5. */
  lemma DocExample()
    ensures Classify(Finite(1.5)) == IntegerAndFractionalPart(Finite(1.0), Finite(0.5))
  {
  }

  /** The crate's test of the classifier. */
  lemma TraitWorks()
    ensures Classify(Finite(1.5)) == IntegerAndFractionalPart(Finite(1.0), Finite(0.5))
    ensures Classify(Finite(1.0)) == IntegerLike(Finite(1.0))
    ensures Classify(Finite(0.2)) == FractionLike(Finite(0.2))
    ensures Classify(Inf(false)) == Infinity
    ensures Classify(NaN) == Nan
  {
  }

  /** The values the variants' documentation names, plus a negative mixed
      value and negative infinity: signs are kept in every payload. */
  lemma VariantExamples()
    ensures Classify(Finite(-100.0)) == IntegerLike(Finite(-100.0))
    ensures Classify(Finite(0.5)) == FractionLike(Finite(0.5))
    ensures Classify(Finite(-0.002)) == FractionLike(Finite(-0.002))
    ensures Classify(Finite(-2.75)) == IntegerAndFractionalPart(Finite(-2.0), Finite(-0.75))
    ensures Classify(Inf(true)) == Infinity
  {
  }
}
