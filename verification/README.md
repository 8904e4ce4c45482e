# float-classify, modelled in Dafny

The crate gives every `f64` one of five shapes, the `CatFloat` variants:
`IntegerLike(trunc x)`, `FractionLike(fract x)`,
`IntegerAndFractionalPart(trunc x, fract x)`, `Nan` and `Infinity`, together
with one predicate per variant. Classification is a first-match decision
procedure: infinities first, then NaN, then truncation toward zero; a zero
fractional part makes the value integer-like (so 0.0 is integer-like), a
zero integer part then makes it fraction-like, and anything else is mixed.

The model:

- `float64.dfy`, module `Float64`: an abstract binary64 value
  `F64 = Finite(r: real) | NaN | Inf(neg: bool)`, the special-value tests
  (isInfinite and isNaN, section 5.7.2 of IEEE 754-2008), comparison with
  zero, and `f64::trunc` / `f64::fract`. Truncation is
  roundToIntegralTowardZero (section 5.3.1 of IEEE 754-2008), and
  `x - trunc(x)` is exact on binary64, so a finite double is modelled by the
  real it denotes with no rounding.
- `cat_float.dfy`, module `CatFloats`: the `CatFloat` datatype and its five
  predicates.
- `classifier.dfy`, module `Classifier`: `Classify`, which follows
  `category` branch for branch, and `Classifies`, a description of each
  input's shape that does not use truncation (whole numbers, non-whole
  values strictly inside (-1, 1), and the rest). `Classify` meets the
  description, and the description admits only one shape per input.
- `reconstruction.dfy`, module `Reconstruction`: `Reassemble`, the inverse
  that adds a result's parts back together, with round trips in both
  directions and the exact range of the classifier.
- `classifier_examples.dfy`, module `ClassifierExamples`: the doc example and
  the crate's `trait_works` test.

## Model

| member | source | states |
|---|---|---|
| Float64.TruncReal | src/lib.rs:86 | truncation toward zero gives a whole number of the input's sign, no larger in magnitude and within 1 of it |
| Float64.TruncRealUnique | src/lib.rs:86 | that whole number is unique: any whole number of the input's sign within 1 of it and no larger in magnitude is its truncation |
| Float64.FloorUnique | src/lib.rs:86 | the floor is the only whole number n with n <= r < n + 1 (the step truncation rests on) |
| Float64.TruncRealFixedPoints | src/lib.rs:86-90 | a real is its own truncation exactly when it is a whole number |
| Float64.TruncRealZero | src/lib.rs:91 | the truncation is zero exactly when the value lies strictly between -1 and 1 |
| Float64.FractReal | src/lib.rs:87 | the fractional part has the input's sign, lies strictly inside (-1, 1), adds to the truncation to give the input exactly, and is zero exactly for whole numbers |
| Float64.F64.IsInfinite | src/lib.rs:79 | `is_infinite` holds of exactly the two infinities |
| Float64.F64.IsNaN | src/lib.rs:82 | `is_nan` holds of exactly NaN |
| Float64.F64.IsZero | src/lib.rs:89 | `is_zero` holds of exactly the finite zero, never of NaN or an infinity |
| Float64.Trunc | src/lib.rs:86 | `trunc` keeps NaN and each infinity, and maps a finite value to a whole number of the value's sign, no larger in magnitude and within 1 of it |
| Float64.Fract | src/lib.rs:87 | `fract` is NaN for NaN and for both infinities, and for a finite value is a finite remainder inside (-1, 1) that adds to the truncation to give the value |
| CatFloats.CatFloat.IsIntegerLike | src/lib.rs:43-45 | `is_integer_like` holds exactly of the `IntegerLike` variant |
| CatFloats.CatFloat.IsFractionLike | src/lib.rs:50-52 | `is_fraction_like` holds exactly of the `FractionLike` variant |
| CatFloats.CatFloat.IsIntegerAndFractionalPart | src/lib.rs:57-59 | `is_integer_and_fractional_part` holds exactly of the `IntegerAndFractionalPart` variant |
| CatFloats.CatFloat.IsInfinity | src/lib.rs:64-66 | `is_infinity` holds exactly of the `Infinity` variant |
| CatFloats.CatFloat.IsNan | src/lib.rs:71-73 | `is_nan` holds exactly of the `Nan` variant |
| CatFloats.ExactlyOnePredicate | src/lib.rs:43-73 | exactly one of the five predicates holds of every CatFloat |
| Classifier.Classify | src/lib.rs:78-96 | the result is the shape `Classifies` describes: Infinity for both infinities, Nan for NaN, the value itself for whole numbers, the value itself for non-whole values inside (-1, 1), otherwise a nonzero whole part and a nonzero part below 1 in magnitude, both of the input's sign, adding to the input |
| Classifier.Split | src/lib.rs:86-95 | truncating, taking the remainder and testing the fractional part before the integer part gives, for every finite input, the shape `Classifies` describes; for NaN or an infinity it gives a mixed result with a NaN fractional part |
| Classifier.ClassifiesUnique | src/lib.rs:78-96 | that description allows exactly one shape per input, so the classifier is determined by it |
| Classifier.MixedPartsUnique | src/lib.rs:86-87 | the integer and fractional parts of a real are unique |
| Classifier.MixedPartIsTrunc | src/lib.rs:86-87 | any such pair of parts is the truncation and the fractional part of the value |
| Classifier.InfinityCase | src/lib.rs:79-81 | positive and negative infinity both classify as Infinity |
| Classifier.NanCase | src/lib.rs:82-84 | NaN classifies as Nan |
| Classifier.IntegerLikeCase | src/lib.rs:89-90 | the result is integer-like exactly for finite inputs whose fractional part is zero, its payload is the truncation and equals the input with its sign, and 0.0 is integer-like |
| Classifier.FractionLikeCase | src/lib.rs:91-92 | the result is fraction-like exactly for finite inputs with zero truncation and nonzero fractional part, and its payload is the fractional part, equal to the input, with magnitude strictly between 0 and 1 |
| Classifier.MixedCase | src/lib.rs:93-94 | a mixed result carries the truncation and the fractional part: a nonzero whole number and a nonzero value below 1 in magnitude, each of the input's sign, that add up to the input exactly |
| Classifier.Totality | src/lib.rs:78-96 | exactly one predicate holds of every result, finite inputs give exactly the payload-carrying variants, and no payload is NaN or infinite |
| Classifier.GuardOrder | src/lib.rs:79-84 | testing NaN before infinity would give the same classifier |
| Classifier.SplitNeedsGuards | src/lib.rs:79-94 | without the special-value tests, truncating an infinity or NaN would yield a mixed result with NaN or infinite payloads |
| Reconstruction.ReassembleClassify | src/lib.rs:29-30 | adding a result's parts back together gives the input, except that negative infinity comes back as positive infinity |
| Reconstruction.ClassifyReassemble | src/lib.rs:78-96 | every well-formed shape is the classification of the value it reassembles to |
| Reconstruction.RangeOfClassify | src/lib.rs:78-96 | over the real-valued model of finite floats, the classifier produces exactly the well-formed shapes |
| ClassifierExamples.DocExample | src/lib.rs:12-13 | 1.5 classifies as IntegerAndFractionalPart(1.0, 0.5) |
| ClassifierExamples.TraitWorks | src/lib.rs:103-116 | 1.5, 1.0, 0.2, infinity and NaN classify as the test expects |
| ClassifierExamples.VariantExamples | src/lib.rs:20-27 | -100.0 is IntegerLike(-100.0), 0.5 and -0.002 are fraction-like with themselves as payload, -2.75 splits into -2.0 and -0.75, negative infinity is Infinity |

## Left out

- The `Category` trait and its associated type `D` (src/lib.rs:3-16): they only attach `category` to `f64`; the model has the plain function `Classify`.
- `num::traits::Zero` (src/lib.rs:1): the `num` crate is not part of this model; `is_zero` on a float is modelled as IEEE comparison with 0.0, false for NaN and the infinities.
- The bit-level binary64 encoding: signed zero (-0.0 and 0.0 are the same real, and the code does not tell them apart either), subnormals, and which reals are representable. Literals such as 0.2 are taken to be the reals they are written as, so the model does not show that the double nearest 0.2 is not 1/5.
- Rounding of addition: `Float64.Add`, used only to reassemble a mixed result, adds finite values exactly. That is exact for the parts `category` produces, but not for general doubles.
- The derived `Debug`, `PartialEq`, `Copy` and `Clone` on `CatFloat` (src/lib.rs:18): results are compared structurally, so `Nan` equals `Nan`, unlike native float equality on payloads.
- Casting results to integer types, mentioned in comments (src/lib.rs:21-22, 26): no such code exists.
- Reconstruction.RangeOfClassify: the range is exact over the real-valued model only; on binary64 some well-formed shapes, such as IntegerAndFractionalPart(2^53, 0.5), are the classification of no double, because which reals are representable is not modelled.
- Reconstruction.ReassembleClassify: `Infinity` carries no sign, so negative infinity cannot be reassembled; the lemma states the round trip for every other input.
