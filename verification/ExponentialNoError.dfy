/** Fixed-point arithmetic: mantissas scaled by 1e18 (`Exp`) or 1e36 (`Double`), every division rounded down. */
module ExponentialNoError {
  import opened Evm

  /** A whole unit of an `Exp` mantissa. */
  const EXP_SCALE: nat := 1_000_000_000_000_000_000

  /** A whole unit of a `Double` mantissa. */
  const DOUBLE_SCALE: nat := 1_000_000_000_000_000_000_000_000_000_000_000_000

  // --------------------------------------------------- scaled operations

  /** `a * b / scale`, rounded down once, in a word-sized intermediate product. */
  function MulDiv(a: nat, b: nat, scale: nat): (r: Result<nat>)
    ensures r.Ok? <==> a * b <= MAX_UINT256 && scale != 0
    ensures r.Ok? ==> Floors(r.value, a * b, scale)
  {
    var product :- Mul(a, b);
    Div(product, scale)
  }

  /** An `Exp` times a whole number, truncated; also the product of two `Exp`s and of a number by an `Exp`. */
  function MulScalarTruncate(a: nat, scalar: nat): (r: Result<nat>)
    ensures r.Ok? <==> a * scalar <= MAX_UINT256
    ensures r.Ok? ==> Floors(r.value, a * scalar, EXP_SCALE)
  {
    MulDiv(a, scalar, EXP_SCALE)
  }

  function MulScalarTruncateAddUInt(a: nat, scalar: nat, addend: nat): (r: Result<nat>)
    ensures r.Ok? <==> a * scalar <= MAX_UINT256 && a * scalar / EXP_SCALE + addend <= MAX_UINT256
    ensures r.Ok? ==> addend <= r.value <= MAX_UINT256
    ensures r.Ok? ==> Floors(r.value - addend, a * scalar, EXP_SCALE)
  {
    var truncated :- MulScalarTruncate(a, scalar);
    Add(truncated, addend)
  }

  /** A whole number or an `Exp` divided by an `Exp`. */
  function DivExp(a: nat, b: nat): (r: Result<nat>)
    ensures r.Ok? <==> a * EXP_SCALE <= MAX_UINT256 && b != 0
    ensures r.Ok? ==> Floors(r.value, a * EXP_SCALE, b)
  {
    MulDiv(a, EXP_SCALE, b)
  }

  /** The `Double` a / b. */
  function Fraction(a: nat, b: nat): (r: Result<nat>)
    ensures r.Ok? <==> a * DOUBLE_SCALE <= MAX_UINT256 && b != 0
    ensures r.Ok? ==> Floors(r.value, a * DOUBLE_SCALE, b)
  {
    MulDiv(a, DOUBLE_SCALE, b)
  }

  /** A whole number times a `Double`, truncated. */
  function MulDouble(a: nat, b: nat): (r: Result<nat>)
    ensures r.Ok? <==> a * b <= MAX_UINT256
    ensures r.Ok? ==> Floors(r.value, a * b, DOUBLE_SCALE)
  {
    MulDiv(a, b, DOUBLE_SCALE)
  }

  // ------------------------------------------------------ facts on floors

  lemma {:induction false} FloorsUnique(p: int, q: int, x: int, d: int)
    requires Floors(p, x, d) && Floors(q, x, d)
    ensures p == q
  {
    if p < q { Grow(p + 1, q, d); } else if q < p { Grow(q + 1, p, d); }
  }

  /** Rounding down keeps order. */
  lemma {:induction false} FloorsMonotone(p: int, x: int, q: int, y: int, d: int)
    requires Floors(p, x, d) && Floors(q, y, d) && x <= y
    ensures p <= q
  {
    if q < p { Grow(q + 1, p, d); }
  }

  /** What is at least `q` times the divisor rounds down to at least `q`. */
  lemma FloorsAtLeast(q: int, p: int, x: int, d: int)
    requires q * d <= x && Floors(p, x, d)
    ensures q <= p
  {
    if p < q { Grow(p + 1, q, d); }
  }

  /** Rounding a sum loses at most one against the rounded parts, and never gains. */
  lemma {:induction false} FloorsOfSum(p: int, x: int, q: int, y: int, r: int, d: int)
    requires Floors(p, x, d) && Floors(q, y, d) && Floors(r, x + y, d)
    ensures p + q <= r <= p + q + 1
  {
    FloorsAtLeast(p + q, r, x + y, d);
    if p + q + 1 < r { Grow(p + q + 2, r, d); }
  }

  lemma Grow(a: int, b: int, d: int)
    requires a <= b && 0 <= d
    ensures a * d <= b * d
  {
    assert (b - a) * d >= 0;
  }

  lemma TruncatesTo(a: nat, b: nat)
    ensures MulScalarTruncate(a, b) ==
            if a * b <= MAX_UINT256 then Ok(a * b / EXP_SCALE) else Revert(ArithmeticPanic)
  {
    if a * b <= MAX_UINT256 {
      DivFloors(a * b, EXP_SCALE);
      FloorsUnique(MulScalarTruncate(a, b).value, a * b / EXP_SCALE, a * b, EXP_SCALE);
    }
  }
}
