/**
 * JavaScript numbers as the waypoint planner uses them: integers plus the
 * three IEEE specials that the edge builder guards against.  Only the
 * operations the planner performs are modelled: `-`, `+`, `*`, `Math.sqrt`
 * followed by `Math.round`, and `isNaN`.
 */
module Numbers {

  datatype Num = Fin(v: int) | PosInf | NegInf | NaN

  /** `a - b` with IEEE rules for infinities and NaN. */
  function Sub(a: Num, b: Num): (r: Num)
    ensures a.Fin? && b.Fin? ==> r == Fin(a.v - b.v)
    ensures a.NaN? || b.NaN? ==> r.NaN?
  {
    match (a, b)
    case (NaN, _) => NaN
    case (_, NaN) => NaN
    case (PosInf, PosInf) => NaN
    case (NegInf, NegInf) => NaN
    case (PosInf, _) => PosInf
    case (NegInf, _) => NegInf
    case (Fin(_), PosInf) => NegInf
    case (Fin(_), NegInf) => PosInf
    case (Fin(x), Fin(y)) => Fin(x - y)
  }

  /** `a + b` with IEEE rules for infinities and NaN. */
  function Add(a: Num, b: Num): (r: Num)
    ensures a.Fin? && b.Fin? ==> r == Fin(a.v + b.v)
    ensures a.NaN? || b.NaN? ==> r.NaN?
  {
    match (a, b)
    case (NaN, _) => NaN
    case (_, NaN) => NaN
    case (PosInf, NegInf) => NaN
    case (NegInf, PosInf) => NaN
    case (PosInf, _) => PosInf
    case (_, PosInf) => PosInf
    case (NegInf, _) => NegInf
    case (_, NegInf) => NegInf
    case (Fin(x), Fin(y)) => Fin(x + y)
  }

  /** Sign of a non-NaN number: -1, 0 or 1. */
  function Sign(a: Num): int
    requires !a.NaN?
  {
    match a
    case PosInf => 1
    case NegInf => -1
    case Fin(x) => if x > 0 then 1 else if x < 0 then -1 else 0
  }

  /** `a * b` with IEEE rules: an infinity times zero is NaN, otherwise signs multiply. */
  function Mul(a: Num, b: Num): (r: Num)
    ensures a.Fin? && b.Fin? ==> r == Fin(a.v * b.v)
    ensures a.NaN? || b.NaN? ==> r.NaN?
  {
    if a.NaN? || b.NaN? then NaN
    else if a.Fin? && b.Fin? then Fin(a.v * b.v)
    else if Sign(a) * Sign(b) == 0 then NaN
    else if Sign(a) * Sign(b) > 0 then PosInf
    else NegInf
  }

  /** `a * a`: never negative, never -Infinity. */
  function Square(a: Num): (r: Num)
    ensures r.Fin? ==> r.v >= 0
    ensures !r.NegInf?
    ensures r.NaN? <==> a.NaN?
    ensures r.PosInf? <==> a.PosInf? || a.NegInf?
  {
    var r := Mul(a, a);
    assert a.Fin? ==> r.v == a.v * a.v >= 0;
    r
  }

  /** A square root that is known exactly: `Root(s)` stands for the real number sqrt(s). */
  datatype Length = Root(square: nat) | Infinite | Undefined

  /** `Math.sqrt(s)` of a sum of two squares. */
  function SqrtOfSumOfSquares(a: Num, b: Num): (r: Length)
    requires !a.NegInf? && !b.NegInf?
    requires a.Fin? ==> a.v >= 0
    requires b.Fin? ==> b.v >= 0
    ensures a.Fin? && b.Fin? ==> r == Root(a.v + b.v)
    ensures r.Undefined? <==> a.NaN? || b.NaN?
  {
    match Add(a, b)
    case Fin(s) => Root(s)
    case PosInf => Infinite
    case NegInf => Undefined
    case NaN => Undefined
  }

  /** Search helper for RoundSqrt: the first k' >= k with n <= k'*(k'+1). */
  function RoundSqrtFrom(n: nat, k: nat): (r: nat)
    requires k * k - k < n || k == 0
    ensures r >= k
    ensures r * r - r < n || (r == 0 && n == 0)
    ensures n <= r * r + r
    decreases n - k
  {
    if k * k + k < n then
      assert k < n;
      RoundSqrtFrom(n, k + 1)
    else k
  }

  /**
   * `Math.round(Math.sqrt(n))` for a natural n.  Rounding half up gives r
   * exactly when r - 1/2 <= sqrt(n) < r + 1/2, which for integers is
   * r*r - r < n <= r*r + r (and r == 0 for n == 0).
   */
  function RoundSqrt(n: nat): (r: nat)
    ensures n == 0 <==> r == 0
    ensures n > 0 ==> r * r - r < n <= r * r + r
  {
    RoundSqrtFrom(n, 0)
  }

  /** Only one natural satisfies RoundSqrt's characterisation, so it is the rounded root. */
  lemma RoundSqrtUnique(n: nat, r: nat)
    requires n > 0
    requires r * r - r < n <= r * r + r
    ensures r == RoundSqrt(n)
  {
    var q := RoundSqrt(n);
    if r < q {
      assert r + 1 <= q;
      assert r * r + r < (r + 1) * (r + 1) - (r + 1) + 1 by {
        assert (r + 1) * (r + 1) - (r + 1) == r * r + r;
      }
      assert (r + 1) * (r + 1) - (r + 1) <= q * q - q by {
        MonotoneRoundBound(r + 1, q);
      }
    } else if q < r {
      assert q + 1 <= r;
      assert (q + 1) * (q + 1) - (q + 1) == q * q + q;
      MonotoneRoundBound(q + 1, r);
    }
  }

  /** k*k - k grows with k. */
  lemma {:induction false} MonotoneRoundBound(a: nat, b: nat)
    requires a <= b
    ensures a * a - a <= b * b - b
    decreases b - a
  {
    if a < b {
      MonotoneRoundBound(a, b - 1);
      assert (b - 1) * (b - 1) - (b - 1) == b * b - b - 2 * (b - 1);
    }
  }

  /** `Math.round` of a length: never -Infinity, and NaN exactly for an undefined length. */
  function RoundLength(l: Length): (r: Num)
    ensures !r.NegInf?
    ensures r.NaN? <==> l.Undefined?
    ensures r.PosInf? <==> l.Infinite?
    ensures l.Root? ==> r.Fin? && r.v >= 0 && (r.v == 0 <==> l.square == 0)
  {
    match l
    case Root(s) => Fin(RoundSqrt(s))
    case Infinite => PosInf
    case Undefined => NaN
  }
}
