/** Machine-integer behaviour that the Rust code relies on, written out over
    Dafny's unbounded integers. */
module Numerics {

  /** 2^64: the modulus of `usize` on the 64-bit targets the code is built for. */
  const USIZE_MODULUS: int := 0x1_0000_0000_0000_0000
  const I64_MIN: int := -0x8000_0000_0000_0000
  const I64_MAX: int := 0x7FFF_FFFF_FFFF_FFFF

  function Abs(x: int): nat { if x < 0 then -x else x }

  /** Rust's `/` on `i64`: the quotient is rounded toward zero, so the remainder
      takes the sign of the dividend (Dafny's own `/` is Euclidean). */
  function TruncDiv(a: int, b: int): (q: int)
    requires b != 0
    ensures Abs(a - q * b) < Abs(b)
    ensures a - q * b == 0 || (a - q * b < 0 <==> a < 0)
  {
    TruncRemainder(a, b);
    if (a < 0) == (b < 0) then Abs(a) / Abs(b) else -(Abs(a) / Abs(b))
  }

  lemma TruncRemainder(a: int, b: int)
    requires b != 0
    ensures var q := if (a < 0) == (b < 0) then Abs(a) / Abs(b) else -(Abs(a) / Abs(b));
      Abs(a - q * b) < Abs(b) && (a - q * b == 0 || (a - q * b < 0 <==> a < 0))
  {
    var qa, ra := Abs(a) / Abs(b), Abs(a) % Abs(b);
    assert Abs(a) == qa * Abs(b) + ra && 0 <= ra < Abs(b);
    if a >= 0 && b > 0 {
      assert a - qa * b == ra;
    } else if a >= 0 {
      assert (-qa) * b == qa * Abs(b);
      assert a - (-qa) * b == ra;
    } else if b > 0 {
      assert (-qa) * b == -(qa * Abs(b));
      assert a - (-qa) * b == -ra;
    } else {
      assert qa * b == -(qa * Abs(b));
      assert a - qa * b == -ra;
    }
  }

  /** On a non-negative dividend and divisor the two divisions agree. */
  lemma TruncDivAgreesOnNonNegatives(a: int, b: int)
    requires a >= 0 && b > 0
    ensures TruncDiv(a, b) == a / b
  {
  }

  /** Where the dividend is negative they do not: Rust's -1 / 2 is 0. */
  lemma TruncDivRoundsTowardZero()
    ensures TruncDiv(-1, 2) == 0 && -1 / 2 == -1
  {
  }

  /** Every entry can be cast to `usize` without failing. */
  predicate NonNegative(xs: seq<int>)
  {
    forall k :: 0 <= k < |xs| ==> xs[k] >= 0
  }

  /** `x as usize` for an `i64` value `x`: two's-complement reinterpretation, so a
      negative value becomes a huge one. */
  function AsUsize(x: int): (u: nat)
    ensures x >= 0 ==> u == x
    ensures I64_MIN <= x < 0 ==> u == x + USIZE_MODULUS && u > I64_MAX
  {
    if x >= 0 then x else x % USIZE_MODULUS
  }

  /** `x as i64` for a `usize` value `x`: the top half of the range wraps to negatives. */
  function AsI64(x: nat): (i: int)
    requires x < USIZE_MODULUS
    ensures I64_MIN <= i <= I64_MAX
    ensures i % USIZE_MODULUS == x
  {
    if x <= I64_MAX then x else x - USIZE_MODULUS
  }

  /** `(v as f32).floor() as usize` on an integral value: the float-to-integer cast
      saturates, so every negative value becomes 0. Rounding of values beyond
      2^24 by `f32` is not modelled. */
  function SaturatingCast(v: int): (u: nat)
    ensures v >= 0 ==> u == v
    ensures v < 0 ==> u == 0
  {
    if v < 0 then 0 else v
  }

  // ---------------------------------------------------------------------------
  // Small facts of non-linear arithmetic, stated once so that larger proofs can
  // cite them instead of leaving the solver to find them.

  lemma MulSucc(a: nat, b: nat)
    ensures a * b + b == (a + 1) * b
  {
  }

  lemma MulMono(a: nat, a': nat, b: nat)
    requires a <= a'
    ensures a * b <= a' * b
  {
  }

  lemma MulNonNegative(a: int, b: int)
    requires a >= 0 && b >= 0
    ensures a * b >= 0
  {
  }

  lemma MulAssoc(a: int, b: int, c: int)
    ensures a * b * c == a * (b * c)
  {
  }

  lemma MulDistributes(a: nat, p: nat, q: nat)
    ensures a * (p + q) == a * p + a * q
    ensures (p + q) * a == p * a + q * a
  {
  }

  lemma MulComm(a: nat, b: nat)
    ensures a * b == b * a
  {
  }

  lemma MulPositive(a: nat, b: nat)
    requires a * b > 0
    ensures a > 0 && b > 0
  {
  }

  lemma MulStrict(a: nat, b: nat, c: nat)
    requires a * c < b * c
    ensures a < b
  {
  }

  lemma DivBelow(j: nat, p: nat, n: nat)
    requires p > 0 && j < n * p
    ensures j / p < n
  {
    var q := j / p;
    assert q * p <= j;
    MulStrict(q, n, p);
  }

  /** A position in a `rows x cols` block splits into a row and a column. */
  lemma SplitIndex(k: nat, rows: nat, cols: nat)
    requires k < rows * cols
    ensures cols > 0 && k / cols < rows && k % cols < cols && k == (k / cols) * cols + k % cols
  {
    MulPositive(rows, cols);
    DivBelow(k, cols, rows);
  }

  lemma DivModUnique(k: nat, rows: nat, i: nat, j: nat)
    requires rows > 0 && i < rows && k == j * rows + i
    ensures k / rows == j && k % rows == i
  {
    var q := k / rows;
    assert q * rows <= k < (q + 1) * rows;
    assert k < (j + 1) * rows;
    MulStrict(q, j + 1, rows);
    MulStrict(j, q + 1, rows);
  }
}
