/**
 Fixed-point groundwork: the 128-bit signed range, what an arithmetic step can
 do on the contract host, and integer division that truncates toward zero.
 */
module Fixed {

  const PRECISION: int := 10_000_000
  const BASIS_POINTS: int := 10_000
  const I128_MAX: int := 170141183460469231731687303715884105727
  const I128_MIN: int := -170141183460469231731687303715884105728

  predicate InI128(x: int) {
    I128_MIN <= x <= I128_MAX
  }

  datatype Error = DivisionByZero | Overflow | InsufficientLiquidity

  /** Result of a contract computation. `Trap` is the host abort raised by an
      unchecked overflow or a zero divisor: the contracts are built with
      overflow checks on (contracts/Cargo.toml:31). */
  datatype Outcome<+T> = Done(value: T) | Fail(error: Error) | Trap {
    predicate IsFailure() {
      !Done?
    }

    function PropagateFailure<U>(): Outcome<U>
      requires !Done?
    {
      match this
      case Fail(e) => Fail(e)
      case Trap => Trap
    }

    function Extract(): T
      requires Done?
    {
      value
    }
  }

  /** An unchecked `i128` result: the value, or an abort when out of range. */
  function Checked(x: int): Outcome<int> {
    if InI128(x) then Done(x) else Trap
  }

  /** `a.checked_op(b).unwrap_or(fallback)` for an operation with exact value `x`. */
  function OrElse(x: int, fallback: int): int {
    if InI128(x) then x else fallback
  }

  function Abs(x: int): (r: int)
    ensures r >= 0 && (r == x || r == -x)
  {
    if x < 0 then -x else x
  }

  /** Division that truncates toward zero, as in Rust, C, Java and JavaScript BigInt. */
  function TruncDiv(a: int, b: int): (q: int)
    requires b != 0
  {
    if a >= 0 then
      if b > 0 then a / b else -(a / -b)
    else
      if b > 0 then -(-a / b) else -a / -b
  }

  /** The quotient is the one whose remainder is smaller than the divisor and
      carries the sign of the dividend. */
  lemma TruncDivRemainder(a: int, b: int)
    requires b != 0
    ensures var r := a - b * TruncDiv(a, b);
            Abs(r) < Abs(b) && (a >= 0 ==> r >= 0) && (a <= 0 ==> r <= 0)
  {
    EuclidRemainder(Abs(a), Abs(b));
    var q := Abs(a) / Abs(b);
    if a >= 0 {
      assert b < 0 ==> b * -q == -b * q;
    } else {
      assert b > 0 ==> b * -q == -(b * q);
      assert b < 0 ==> b * q == -(-b * q);
    }
  }

  lemma EuclidRemainder(m: nat, d: nat)
    requires d > 0
    ensures 0 <= m - d * (m / d) < d
  {
  }

  /** Truncating division is odd in the dividend and in the divisor. */
  lemma TruncDivOdd(a: int, b: int)
    requires b != 0
    ensures TruncDiv(-a, b) == -TruncDiv(a, b)
    ensures TruncDiv(a, -b) == -TruncDiv(a, b)
  {
  }

  /** For a positive divisor the quotient is below `q + 1` exactly when the
      dividend is below `(q + 1) * b`, for quotients at or above zero. */
  lemma TruncDivBounds(a: int, b: int)
    requires b > 0
    ensures a >= 0 ==> 0 <= b * TruncDiv(a, b) <= a <= b * TruncDiv(a, b) + b - 1
    ensures a <= 0 ==> b * TruncDiv(a, b) - (b - 1) <= a <= b * TruncDiv(a, b) <= 0
    ensures a >= 0 ==> TruncDiv(a, b) >= 0
    ensures a <= 0 ==> TruncDiv(a, b) <= 0
  {
    TruncDivRemainder(a, b);
    if a >= 0 {
      MulNonNegative(b, a / b);
    } else {
      MulNonNegative(b, -a / b);
    }
  }

  lemma MulNonNegative(x: int, y: int)
    requires x >= 0 && y >= 0
    ensures x * y >= 0
  {
  }

  /** Cancelling a positive factor from an inequality. */
  lemma CancelFactor(x: int, y: int, k: int)
    requires k > 0
    ensures x * k <= y * k <==> x <= y
    ensures x * k < y * k <==> x < y
  {
    if x <= y {
      MulNonNegative(y - x, k);
      assert (y - x) * k == y * k - x * k;
    }
    if x > y {
      MulNonNegative(x - y - 1, k);
      assert (x - y - 1) * k == x * k - y * k - k;
    }
    if x < y {
      MulNonNegative(y - x - 1, k);
      assert (y - x - 1) * k == y * k - x * k - k;
    }
  }

  /** `a / b <= q` for a truncating quotient, decided without dividing. */
  lemma TruncDivAtMost(a: int, b: int, q: int)
    requires b > 0 && q >= 0
    ensures TruncDiv(a, b) <= q <==> a < (q + 1) * b
  {
    TruncDivBounds(a, b);
    var t := TruncDiv(a, b);
    if t <= q {
      CancelFactor(t, q, b);
      assert (q + 1) * b == q * b + b;
    } else {
      CancelFactor(q + 1, t, b);
    }
  }

  /** `q <= a / b` for a truncating quotient and `q` above zero. */
  lemma TruncDivAtLeast(a: int, b: int, q: int)
    requires b > 0 && q >= 1
    ensures q <= TruncDiv(a, b) <==> q * b <= a
  {
    TruncDivAtMost(a, b, q - 1);
  }

  /** Truncating division by a positive number keeps the order of dividends. */
  lemma TruncDivMonotone(a: int, a': int, b: int)
    requires b > 0 && a <= a'
    ensures TruncDiv(a, b) <= TruncDiv(a', b)
  {
    TruncDivBounds(a, b);
    TruncDivBounds(a', b);
    var t, t' := TruncDiv(a, b), TruncDiv(a', b);
    assert (t' + 1) * b == t' * b + b;
    if t > t' {
      CancelFactor(t' + 1, t, b);
    }
  }
}
