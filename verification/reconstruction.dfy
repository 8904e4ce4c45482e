/** Putting a classified float back together: the parts a CatFloat carries
    add up to the value that was classified. */
module Reconstruction {
  import opened Float64
  import opened CatFloats
  import opened Classifier

  /** The value a shape stands for. `Infinity` does not record its sign and
      is read back as positive infinity. */
  function Reassemble(c: CatFloat): (x: F64) {
    match c
    case IntegerLike(i) => i
    case FractionLike(f) => f
    case IntegerAndFractionalPart(i, f) => Add(i, f)
    case Nan => NaN
    case Infinity => Inf(false)
  }

  /** The shapes the classifier can produce. */
  predicate WellFormed(c: CatFloat) {
    match c
    case IntegerLike(i) => i.Finite? && IsIntegral(i.r)
    case FractionLike(f) => f.Finite? && 0.0 < Abs(f.r) < 1.0
    case IntegerAndFractionalPart(i, f) =>
      && i.Finite? && f.Finite?
      && IsIntegral(i.r) && i.r != 0.0
      && 0.0 < Abs(f.r) < 1.0
      && (i.r > 0.0 <==> f.r > 0.0)
    case _ => true
  }

  /** Reassembling a classification gives back the input, except that
      negative infinity comes back positive. */
  lemma ReassembleClassify(x: F64)
    ensures x != Inf(true) ==> Reassemble(Classify(x)) == x
    ensures Reassemble(Classify(Inf(true))) == Inf(false)
  {
  }

  /** Every shape the classifier can produce is the classification of the
      value it reassembles to. */
  lemma ClassifyReassemble(c: CatFloat)
    requires WellFormed(c)
    ensures Classify(Reassemble(c)) == c
  {
    match c
    case IntegerAndFractionalPart(i, f) =>
      var x := Reassemble(c);
      assert !IsIntegral(x.r) by {
        TruncRealUnique(x.r, i.r.Floor);
        TruncRealFixedPoints(x.r);
      }
      assert Classifies(x, c);
      ClassifiesUnique(x, c, Classify(x));
    case FractionLike(f) =>
      assert f.r.Floor == 0 || f.r.Floor == -1;
    case _ =>
  }

  /** Over the real-valued model of finite floats, the shapes the classifier
      produces are exactly the well-formed ones. */
  lemma RangeOfClassify(c: CatFloat)
    ensures WellFormed(c) <==> exists x :: Classify(x) == c
  {
    if WellFormed(c) {
      ClassifyReassemble(c);
    }
    if exists x :: Classify(x) == c {
      var x :| Classify(x) == c;
      if c.IntegerAndFractionalPart? {
        MixedCase(x, c.intPart, c.fractPart);
      }
    }
  }
}
