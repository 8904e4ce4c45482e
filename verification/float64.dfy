/** An abstract model of the IEEE 754 binary64 values that the classifier
    sees. A finite double is modelled by the real number it denotes, so the
    two arithmetic steps the classifier takes (truncation toward zero and the
    remainder it leaves) are exact here, as they are on binary64: truncation is
    roundToIntegralTowardZero (section 5.3.1 of IEEE 754-2008), and
    x - trunc(x) is always representable.
 */
module Float64 {

  /** A 64-bit float: a finite value, Not-a-Number, or an infinity
      (`neg` tells negative infinity from positive infinity). */
  datatype F64 = Finite(r: real) | NaN | Inf(neg: bool) {

    /** isInfinite (section 5.7.2 of IEEE 754-2008): true of both infinities. */
    predicate IsInfinite()
      ensures IsInfinite() <==> this == Inf(false) || this == Inf(true)
    {
      Inf?
    }

    /** isNaN (section 5.7.2 of IEEE 754-2008). */
    predicate IsNaN()
      ensures IsNaN() <==> this == NaN
    {
      NaN?
    }

    /** Comparison with 0.0 under IEEE equality: NaN and the infinities are
        never zero. */
    predicate IsZero()
      ensures IsZero() <==> this == Finite(0.0)
      ensures IsZero() ==> !IsNaN() && !IsInfinite()
    {
      Finite? && r == 0.0
    }
  }

  /** True when `r` is a whole number. */
  predicate IsIntegral(r: real) {
    r.Floor as real == r
  }

  function Abs(r: real): (a: real)
    ensures a >= 0.0
    ensures a == r || a == -r
  {
    if r < 0.0 then -r else r
  }

  /** Truncation toward zero of a real: the whole number nearest to `r` that
      does not exceed it in magnitude. */
  function TruncReal(r: real): (t: real)
    ensures IsIntegral(t)
    ensures Abs(t) <= Abs(r) < Abs(t) + 1.0
    ensures r >= 0.0 ==> t >= 0.0
    ensures r <= 0.0 ==> t <= 0.0
  {
    if r >= 0.0 then
      var n := r.Floor;
      assert (n as real).Floor == n;
      n as real
    else
      var n := (-r).Floor;
      assert (-(n as real)).Floor == -n;
      -(n as real)
  }

  /** The truncation of `r` is the only whole number of `r`'s sign that is
      within distance 1 of `r` and no larger in magnitude. */
  lemma TruncRealUnique(r: real, n: int)
    requires 0.0 <= r ==> 0 <= n && n as real <= r < n as real + 1.0
    requires r < 0.0 ==> n <= 0 && n as real - 1.0 < r <= n as real
    ensures TruncReal(r) == n as real
  {
    if r >= 0.0 {
      FloorUnique(r, n);
    } else {
      FloorUnique(-r, -n);
    }
  }

  /** The floor of `r` is the only whole number `n` with n <= r < n + 1. */
  lemma FloorUnique(r: real, n: int)
    requires n as real <= r < n as real + 1.0
    ensures r.Floor == n
  {
  }

  /** A whole number is its own truncation, and a real is its own truncation
      only if it is a whole number. */
  lemma TruncRealFixedPoints(r: real)
    ensures TruncReal(r) == r <==> IsIntegral(r)
  {
    if IsIntegral(r) {
      TruncRealUnique(r, r.Floor);
    }
  }

  /** The truncation of `r` is zero exactly when `r` lies strictly between -1
      and 1. */
  lemma TruncRealZero(r: real)
    ensures TruncReal(r) == 0.0 <==> -1.0 < r < 1.0
  {
  }

  /** The signed fractional part of `r`: what is left after truncation. It has
      `r`'s sign, lies strictly between -1 and 1, and is zero exactly when `r`
      is a whole number. */
  function FractReal(r: real): (f: real)
    ensures TruncReal(r) + f == r
    ensures -1.0 < f < 1.0
    ensures r >= 0.0 ==> f >= 0.0
    ensures r <= 0.0 ==> f <= 0.0
    ensures f == 0.0 <==> IsIntegral(r)
  {
    TruncRealFixedPoints(r);
    r - TruncReal(r)
  }

  /** `f64::trunc`: NaN stays NaN, each infinity is its own integral value,
      a finite value is truncated toward zero. */
  function Trunc(x: F64): (t: F64)
    ensures t.Finite? <==> x.Finite?
    ensures t.NaN? <==> x.NaN?
    ensures x.Inf? ==> t == x
    ensures x.Finite? ==> IsIntegral(t.r) && Abs(t.r) <= Abs(x.r) < Abs(t.r) + 1.0
    ensures x.Finite? && x.r >= 0.0 ==> t.r >= 0.0
    ensures x.Finite? && x.r <= 0.0 ==> t.r <= 0.0
  {
    match x
    case Finite(r) => Finite(TruncReal(r))
    case NaN => NaN
    case Inf(_) => x
  }

  /** `f64::fract`, which is `x - x.trunc()`: a finite value gives its signed
      fractional part, NaN gives NaN, and an infinity gives NaN because
      infinity minus infinity is NaN. */
  function Fract(x: F64): (f: F64)
    ensures f.Finite? <==> x.Finite?
    ensures !x.Finite? ==> f.NaN?
    ensures x.Finite? ==> Trunc(x).r + f.r == x.r && -1.0 < f.r < 1.0
  {
    match x
    case Finite(r) => Finite(FractReal(r))
    case _ => NaN
  }

  /** IEEE addition without rounding: NaN absorbs everything, infinities of
      opposite sign give NaN, an infinity absorbs any finite value, and two
      finite values add exactly. */
  function Add(x: F64, y: F64): (s: F64)
    ensures x.Finite? && y.Finite? ==> s == Finite(x.r + y.r)
    ensures x.NaN? || y.NaN? ==> s.NaN?
  {
    match (x, y)
    case (NaN, _) => NaN
    case (_, NaN) => NaN
    case (Inf(a), Inf(b)) => if a == b then x else NaN
    case (Inf(_), Finite(_)) => x
    case (Finite(_), Inf(_)) => y
    case (Finite(a), Finite(b)) => Finite(a + b)
  }
}
