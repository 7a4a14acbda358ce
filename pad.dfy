/** `Pad` (crates/ir/src/ops/shape/pad.rs): zero padding of an NCHW array on
    the axes after batch and channel. The array is taken as already read
    through its typed view (`to_array_view::<T>`, which does not fail). */
module CratesPad {
  import opened Wrappers
  import opened Numerics
  import opened Shapes
  import opened Layout

  /** The widths of padding before and after the data along one axis. */
  datatype Pair = Pair(before: nat, after: nat)

  /** An `ArrayD<T>`: a shape and its elements in row-major order. */
  datatype NdArray<T> = NdArray(shape: Shape, data: seq<T>)

  predicate Wellformed<T>(a: NdArray<T>)
  {
    |a.data| == Product(a.shape)
  }

  /** `convert_pads`: the first half of `pads` holds the widths before the axes
      and the second half the widths after them (the ONNX layout); `as usize`
      wraps a negative width, and the zip drops the last entry of an odd list. */
  function ConvertPads(pads: seq<int>): (r: seq<Pair>)
    ensures |r| == |pads| / 2
  {
    var mid := |pads| / 2;
    seq(mid, i requires 0 <= i < mid => Pair(AsUsize(pads[i]), AsUsize(pads[mid + i])))
  }

  /** The ONNX attribute a list of pairs stands for: all widths before, then
      all widths after. */
  function Attribute(pairs: seq<Pair>): (pads: seq<int>)
    ensures |pads| == 2 * |pairs|
  {
    seq(|pairs|, i requires 0 <= i < |pairs| => pairs[i].before as int)
      + seq(|pairs|, i requires 0 <= i < |pairs| => pairs[i].after as int)
  }

  /** Pairing is the inverse of writing the attribute out, on non-negative
      widths: converting pads and writing them back gives the pads again, less
      the dropped last entry of an odd list. */
  lemma ConvertPadsRoundTrip(pads: seq<int>)
    requires forall i :: 0 <= i < |pads| ==> pads[i] >= 0
    ensures Attribute(ConvertPads(pads)) == pads[..2 * (|pads| / 2)]
    ensures forall pairs: seq<Pair> :: ConvertPads(Attribute(pairs)) == pairs
  {
    var mid := |pads| / 2;
    var back := Attribute(ConvertPads(pads));
    forall i | 0 <= i < 2 * mid
      ensures back[i] == pads[i]
    {
      if i >= mid {
        assert back[i] == ConvertPads(pads)[i - mid].after;
      }
    }
    forall pairs: seq<Pair>
      ensures ConvertPads(Attribute(pairs)) == pairs
    {
      var p := ConvertPads(Attribute(pairs));
      assert |Attribute(pairs)| / 2 == |pairs|;
      forall i | 0 <= i < |pairs|
        ensures p[i] == pairs[i]
      {
      }
    }
  }

  /** The loop that puts a `(0, 0)` pair first twice, for the batch and
      channel axes. */
  method WithBatchAndChannel(pairs: seq<Pair>) returns (r: seq<Pair>)
    ensures |r| == |pairs| + 2
    ensures r[0] == Pair(0, 0) && r[1] == Pair(0, 0) && r[2..] == pairs
  {
    r := pairs;
    for k := 0 to 2
      invariant |r| == |pairs| + k
      invariant forall i :: 0 <= i < k ==> r[i] == Pair(0, 0)
      invariant r[k..] == pairs
    {
      r := [Pair(0, 0)] + r;
    }
  }

  /** The output shape: each dimension grows by its two widths, for as many
      axes as there are both dimensions and pairs (the zip stops at the shorter
      list). */
  function PaddedShape(shape: Shape, pairs: seq<Pair>): (out: Shape)
    ensures |out| == if |shape| <= |pairs| then |shape| else |pairs|
  {
    if shape == [] || pairs == [] then []
    else [shape[0] + pairs[0].before + pairs[0].after] + PaddedShape(shape[1..], pairs[1..])
  }

  lemma {:induction false} PaddedShapeAt(shape: Shape, pairs: seq<Pair>, i: nat)
    requires i < |shape| && i < |pairs|
    ensures PaddedShape(shape, pairs)[i] == shape[i] + pairs[i].before + pairs[i].after
  {
    if i > 0 {
      PaddedShapeAt(shape[1..], pairs[1..], i - 1);
    }
  }

  /** The product `ndarray` checks against `isize::MAX`: axes of length 0 are
      left out of it. */
  function NonZeroProduct(s: Shape): nat
  {
    if s == [] then 1 else (if s[0] == 0 then 1 else s[0]) * NonZeroProduct(s[1..])
  }

  const SHAPE_TOO_LARGE: string := "ndarray: Shape too large, product of non-zero axis lengths overflows isize"
  const SLICE_RANK: string := "The input dimension of `info` must match the array to be sliced."
  const NO_BROADCAST: string := "ndarray: could not broadcast array"

  /** Some padded dimension overflows `usize` in `d + a + b`. */
  predicate SumOverflows(shape: Shape, pairs: seq<Pair>)
  {
    exists i :: 0 <= i < |shape| && i < |pairs| && shape[i] + pairs[i].before + pairs[i].after >= USIZE_MODULUS
  }

  /** The panic `pad` runs into, if any, in the order the steps run: the sum of
      a dimension and its widths, the size check of `from_elem`, the slice with
      one entry per pair on an array with fewer axes, and the assignment of the
      input to a slice with fewer axes than it has. */
  function PadFault(shape: Shape, pairs: seq<Pair>): (f: Option<string>)
    ensures f.None? <==> (!SumOverflows(shape, pairs) && NonZeroProduct(PaddedShape(shape, pairs)) <= I64_MAX
                          && |pairs| == |shape|)
  {
    if SumOverflows(shape, pairs) then Some(ADD_OVERFLOW)
    else if NonZeroProduct(PaddedShape(shape, pairs)) > I64_MAX then Some(SHAPE_TOO_LARGE)
    else if |pairs| > |shape| then Some(SLICE_RANK)
    else if |pairs| < |shape| then Some(NO_BROADCAST)
    else None
  }

  /** Coordinates `c` of the output lie in the slice `[before, before + d)` on
      every axis, where the input is assigned. */
  predicate Interior(c: seq<nat>, shape: Shape, pairs: seq<Pair>)
    requires |c| == |shape| == |pairs|
  {
    forall i :: 0 <= i < |c| ==> pairs[i].before <= c[i] < pairs[i].before + shape[i]
  }

  /** Input coordinates moved to their place in the output. */
  function Shift(c: seq<nat>, pairs: seq<Pair>): (d: seq<nat>)
    requires |c| == |pairs|
    ensures |d| == |c| && forall i :: 0 <= i < |c| ==> d[i] == c[i] + pairs[i].before
  {
    seq(|c|, i requires 0 <= i < |c| => c[i] + pairs[i].before)
  }

  /** Output coordinates moved back to the input (of interior coordinates). */
  function Unshift(c: seq<nat>, pairs: seq<Pair>): (d: seq<nat>)
    requires |c| == |pairs|
    ensures |d| == |c|
  {
    seq(|c|, i requires 0 <= i < |c| => if c[i] >= pairs[i].before then c[i] - pairs[i].before else 0)
  }

  /** A zero array of the padded shape with the input assigned to its interior
      slice. */
  function Padded<T>(input: NdArray<T>, pairs: seq<Pair>, zero: T): (out: NdArray<T>)
    requires Wellformed(input) && |pairs| == |input.shape|
    ensures Wellformed(out) && out.shape == PaddedShape(input.shape, pairs)
  {
    var shape := PaddedShape(input.shape, pairs);
    NdArray(shape, seq(Product(shape), (j: int) requires 0 <= j < Product(shape) =>
      var c := Unravel(j, shape);
      if Interior(c, input.shape, pairs) then
        UnshiftInBounds(c, input.shape, pairs);
        RavelBound(Unshift(c, pairs), input.shape);
        input.data[Ravel(Unshift(c, pairs), input.shape)]
      else zero))
  }

  lemma UnshiftInBounds(c: seq<nat>, shape: Shape, pairs: seq<Pair>)
    requires |c| == |shape| == |pairs| && Interior(c, shape, pairs)
    ensures InBounds(Unshift(c, pairs), shape) && Shift(Unshift(c, pairs), pairs) == c
  {
  }

  lemma ShiftInBounds(c: seq<nat>, shape: Shape, pairs: seq<Pair>)
    requires InBounds(c, shape) && |pairs| == |shape|
    ensures InBounds(Shift(c, pairs), PaddedShape(shape, pairs))
    ensures Interior(Shift(c, pairs), shape, pairs) && Unshift(Shift(c, pairs), pairs) == c
  {
    forall i | 0 <= i < |shape|
      ensures Shift(c, pairs)[i] < PaddedShape(shape, pairs)[i]
    {
      PaddedShapeAt(shape, pairs, i);
    }
  }

  /** Every input element lands `before` further along each axis:
      `output[c + before] == input[c]`. */
  lemma PadCopiesInterior<T>(input: NdArray<T>, pairs: seq<Pair>, zero: T, c: seq<nat>)
    requires Wellformed(input) && |pairs| == |input.shape| && InBounds(c, input.shape)
    ensures var out := Padded(input, pairs, zero);
      Ravel(Shift(c, pairs), out.shape) < |out.data| && Ravel(c, input.shape) < |input.data|
      && out.data[Ravel(Shift(c, pairs), out.shape)] == input.data[Ravel(c, input.shape)]
  {
    var out := Padded(input, pairs, zero);
    ShiftInBounds(c, input.shape, pairs);
    UnravelRavel(Shift(c, pairs), out.shape);
    RavelBound(c, input.shape);
  }

  /** Every other element of the output is zero: a position that no input
      element is copied to holds `zero`. */
  lemma PadZerosBorder<T>(input: NdArray<T>, pairs: seq<Pair>, zero: T, j: nat)
    requires Wellformed(input) && |pairs| == |input.shape|
    requires j < |Padded(input, pairs, zero).data|
    requires forall c :: InBounds(c, input.shape) ==> Ravel(Shift(c, pairs), PaddedShape(input.shape, pairs)) != j
    ensures Padded(input, pairs, zero).data[j] == zero
  {
    var shape := PaddedShape(input.shape, pairs);
    var c := Unravel(j, shape);
    if Interior(c, input.shape, pairs) {
      UnshiftInBounds(c, input.shape, pairs);
      RavelUnravel(j, shape);
      assert false;
    }
  }

  /** `Pad::pad`: pairs the widths, puts `(0, 0)` first for the batch and
      channel axes, and assigns the input to the interior of a zero array of
      the padded shape; the panics are those of `PadFault`. */
  method Pad<T>(input: NdArray<T>, pads: seq<int>, zero: T) returns (r: Result<NdArray<T>>)
    requires Wellformed(input)
    ensures var pairs := [Pair(0, 0), Pair(0, 0)] + ConvertPads(pads);
      && (r.Ok? <==> PadFault(input.shape, pairs).None?)
      && (r.Err? ==> r.fault == Panic(PadFault(input.shape, pairs).value))
      && (r.Ok? ==> r.value == Padded(input, pairs, zero))
  {
    var converted := ConvertPads(pads);
    converted := WithBatchAndChannel(converted);
    assert converted == [Pair(0, 0), Pair(0, 0)] + ConvertPads(pads);
    var fault := PadFault(input.shape, converted);
    if fault.Some? {
      return Err(Panic(fault.value));
    }
    r := Ok(Padded(input, converted, zero));
  }

  /** On an NCHW input and four non-negative widths `[top, left, bottom,
      right]`, padding leaves batch and channel alone and grows the height by
      `top + bottom` and the width by `left + right`. */
  lemma PadsHeightAndWidth(shape: Shape, pads: seq<int>)
    requires |shape| == 4 && |pads| == 4 && forall i :: 0 <= i < 4 ==> pads[i] >= 0
    ensures var out := PaddedShape(shape, [Pair(0, 0), Pair(0, 0)] + ConvertPads(pads));
      |out| == 4 && out[0] == shape[0] && out[1] == shape[1]
      && out[2] == shape[2] + pads[0] + pads[2] && out[3] == shape[3] + pads[1] + pads[3]
  {
    var pairs := [Pair(0, 0), Pair(0, 0)] + ConvertPads(pads);
    assert pairs[2] == Pair(pads[0], pads[2]) && pairs[3] == Pair(pads[1], pads[3]);
    assert pairs[0] == Pair(0, 0) && pairs[1] == Pair(0, 0);
    var out := PaddedShape(shape, pairs);
    PaddedShapeAt(shape, pairs, 0);
    PaddedShapeAt(shape, pairs, 1);
    PaddedShapeAt(shape, pairs, 2);
    PaddedShapeAt(shape, pairs, 3);
  }

  /** A negative width wraps to at least 2^63 and always panics. */
  lemma NegativeWidthPanics(shape: Shape, pads: seq<int>, i: nat)
    requires |shape| == 4 && |pads| == 4 && i < 4 && I64_MIN <= pads[i] < 0
    ensures PadFault(shape, [Pair(0, 0), Pair(0, 0)] + ConvertPads(pads)).Some?
  {
    var pairs := [Pair(0, 0), Pair(0, 0)] + ConvertPads(pads);
    var axis := if i < 2 then i + 2 else i;
    assert pairs[axis].before > I64_MAX || pairs[axis].after > I64_MAX;
    if !SumOverflows(shape, pairs) {
      PaddedShapeAt(shape, pairs, axis);
      NonZeroProductAtLeast(PaddedShape(shape, pairs), axis);
    }
  }

  lemma {:induction false} NonZeroProductAtLeast(s: Shape, i: nat)
    requires i < |s|
    ensures NonZeroProduct(s) >= s[i]
    ensures NonZeroProduct(s) >= 1
  {
    if i == 0 {
      NonZeroProductAtLeast1(s[1..]);
      MulMono(1, NonZeroProduct(s[1..]), if s[0] == 0 then 1 else s[0]);
      MulComm(NonZeroProduct(s[1..]), if s[0] == 0 then 1 else s[0]);
    } else {
      NonZeroProductAtLeast(s[1..], i - 1);
      MulMono(1, if s[0] == 0 then 1 else s[0], NonZeroProduct(s[1..]));
    }
  }

  lemma {:induction false} NonZeroProductAtLeast1(s: Shape)
    ensures NonZeroProduct(s) >= 1
  {
    if s != [] {
      NonZeroProductAtLeast1(s[1..]);
      MulMono(1, if s[0] == 0 then 1 else s[0], NonZeroProduct(s[1..]));
    }
  }
}
