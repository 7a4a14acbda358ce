/** The output-size formulas shared by the sliding-window ops (convolution,
    depthwise convolution, im2col and pooling), in the `i64` arithmetic the code
    uses: the division truncates toward zero, and the `as f32` / `.floor()` /
    `as usize` chain that follows it turns a negative value into 0. */
module Windows {
  import opened Numerics

  /** The `(out_height, out_width)` pair every `output_dims` returns. */
  datatype Dims = Dims(h: nat, w: nat)

  /** The attribute lists an `output_dims` indexes are long enough: it reads the
      height and width of an NCHW input (`[2]`, `[3]`), the height and width
      pads (`pads[2]`, `pads[3]`), and two kernel entries and two strides. */
  predicate Indexable(input: seq<int>, pads: seq<int>, kernel: seq<int>, strides: seq<int>)
  {
    |input| >= 4 && |pads| >= 4 && |kernel| >= 2 && |strides| >= 2
  }

  /** The span of a kernel of `k` taps spread `d` apart: `d * (k - 1) + 1`. */
  function Extent(k: int, d: int): int
  {
    d * (k - 1) + 1
  }

  /** The dilated formula of conv.rs and depthwise.rs:
      `(((i + 2p - d(k - 1) - 1) / s + 1) as f32).floor() as usize`. */
  function DilatedDim(i: int, p: int, k: int, d: int, s: int): nat
    requires s != 0
  {
    SaturatingCast(TruncDiv(i + 2 * p - d * (k - 1) - 1, s) + 1)
  }

  /** The formula without dilation of im2col.rs and the pooling ops:
      `(((i + 2p - k) / s + 1) as f32).floor() as usize`. */
  function PlainDim(i: int, p: int, k: int, s: int): nat
    requires s != 0
  {
    SaturatingCast(TruncDiv(i + 2 * p - k, s) + 1)
  }

  /** The formula without dilation is the dilated one with dilation 1. */
  lemma PlainIsUndilated(i: int, p: int, k: int, s: int)
    requires s != 0
    ensures PlainDim(i, p, k, s) == DilatedDim(i, p, k, 1, s)
  {
    assert i + 2 * p - k == i + 2 * p - 1 * (k - 1) - 1;
  }

  /** The doc comment of depthwise.rs writes the numerator as
      `i + 2p - k - (k - 1)(d - 1)`; it is the numerator the code computes. */
  lemma DocCommentNumerator(i: int, p: int, k: int, d: int)
    ensures i + 2 * p - k - (k - 1) * (d - 1) == i + 2 * p - Extent(k, d)
    ensures i + 2 * p - Extent(k, d) == i + 2 * p - d * (k - 1) - 1
  {
  }

  /** When the kernel fits in the padded input and the stride is positive, the
      output size is the number of window positions 0, s, 2s, ... at which the
      whole kernel lies inside the padded input: the last one fits and the next
      one would not. */
  lemma {:induction false} DilatedDimCountsWindows(i: int, p: int, k: int, d: int, s: int)
    requires s > 0 && Extent(k, d) <= i + 2 * p
    ensures DilatedDim(i, p, k, d, s) >= 1
    ensures (DilatedDim(i, p, k, d, s) - 1) * s + Extent(k, d) <= i + 2 * p
    ensures i + 2 * p < DilatedDim(i, p, k, d, s) * s + Extent(k, d)
  {
    var num := i + 2 * p - Extent(k, d);
    assert num == i + 2 * p - d * (k - 1) - 1;
    TruncDivAgreesOnNonNegatives(num, s);
    var q := num / s;
    FloorBounds(num, s);
    assert DilatedDim(i, p, k, d, s) == q + 1;
    WindowsFit(num, s, q);
  }

  /** The last of `q + 1` windows fits and the next would not. */
  lemma WindowsFit(num: nat, s: nat, q: nat)
    requires s > 0 && q * s <= num < q * s + s
    ensures (q + 1 - 1) * s <= num < (q + 1) * s
  {
    MulSucc(q, s);
  }

  /** The floor division the doc comment of depthwise.rs draws (the brackets
      around the quotient), which counts no window when the kernel does not fit. */
  function FloorDim(i: int, p: int, k: int, d: int, s: int): (o: nat)
    requires s > 0
    ensures forall j :: 0 <= j < o ==> j * s + Extent(k, d) <= i + 2 * p
    ensures i + 2 * p < o * s + Extent(k, d)
  {
    var num := i + 2 * p - Extent(k, d);
    var o := SaturatingCast(num / s + 1);
    FloorDimCounts(num, s, o);
    o
  }

  lemma FloorDimCounts(num: int, s: int, o: nat)
    requires s > 0 && o == SaturatingCast(num / s + 1)
    ensures forall j :: 0 <= j < o ==> j * s <= num
    ensures num < o * s
  {
    FloorBounds(num, s);
    if num >= 0 {
      FloorDimCountsOnNatural(num, s, num / s);
    }
  }

  /** Euclidean division by a positive `s` brackets `num` between two
      consecutive multiples of `s`, and keeps its sign. */
  lemma FloorBounds(num: int, s: int)
    requires s > 0
    ensures (num / s) * s <= num < (num / s) * s + s
    ensures num >= 0 <==> num / s >= 0
  {
  }

  lemma FloorDimCountsOnNatural(num: nat, s: nat, q: nat)
    requires s > 0 && q * s <= num < q * s + s
    ensures forall j :: 0 <= j < q + 1 ==> j * s <= num
    ensures num < (q + 1) * s
  {
    forall j | 0 <= j < q + 1
      ensures j * s <= num
    {
      MulMono(j, q, s);
    }
    MulSucc(q, s);
  }

  /** The code's truncating formula and the floor formula differ exactly when
      the numerator lies strictly between `-s` and 0: then the kernel does not
      fit, yet the code counts one window. */
  lemma TruncatedVersusFloor(i: int, p: int, k: int, d: int, s: int)
    requires s > 0
    ensures var num := i + 2 * p - Extent(k, d);
      DilatedDim(i, p, k, d, s) != FloorDim(i, p, k, d, s) <==> -s < num < 0
    ensures var num := i + 2 * p - Extent(k, d);
      -s < num < 0 ==> DilatedDim(i, p, k, d, s) == 1 && FloorDim(i, p, k, d, s) == 0
  {
    var num := i + 2 * p - Extent(k, d);
    assert num == i + 2 * p - d * (k - 1) - 1;
    TruncatedVersusFloorOn(num, s);
  }

  lemma TruncatedVersusFloorOn(num: int, s: int)
    requires s > 0
    ensures var t, f := SaturatingCast(TruncDiv(num, s) + 1), SaturatingCast(num / s + 1);
      (t != f <==> -s < num < 0) && (-s < num < 0 ==> t == 1 && f == 0)
  {
    if num >= 0 {
      TruncDivAgreesOnNonNegatives(num, s);
    } else if -s < num {
      assert Abs(num) / Abs(s) == 0;
      assert num / s == -1;
    } else {
      assert Abs(num) / Abs(s) >= 1;
      assert num / s <= -1;
    }
  }

  /** A two-wide input, a three-tap kernel and stride 2: the kernel never fits,
      and the code reports one output position. */
  lemma TruncationCountsMissingWindow()
    ensures Extent(3, 1) > 2
    ensures DilatedDim(2, 0, 3, 1, 2) == 1
    ensures FloorDim(2, 0, 3, 1, 2) == 0
  {
    TruncatedVersusFloor(2, 0, 3, 1, 2);
  }
}
