/** `Shape` (steelix/src/ir/ops/shape/shape.rs; crates/ir/src/ops/shape/shape.rs
    has the same text): the dimensions `start..end` of the input's shape, as a
    one-dimensional `i64` tensor. */
module SteelixShapeOp {
  import opened Wrappers
  import opened Numerics
  import opened Shapes
  import opened Tensors
  import opened IrCore

  const NAME: string := "Shape"
  const GROUP: OpGroup := OpGroup.Shape

  datatype ShapeOp = ShapeOp(start: int, end: int)

  /** Every dimension fits a `usize`, as the Rust type guarantees. */
  predicate UsizeDims(dims: Shape)
  {
    forall k :: 0 <= k < |dims| ==> dims[k] < USIZE_MODULUS
  }

  /** The panic messages of slice indexing with a range. */
  function StartsAfterEnd(s: nat, e: nat): string
  {
    "slice index starts at " + Decimal(s) + " but ends at " + Decimal(e)
  }

  function EndPastLength(e: nat, len: nat): string
  {
    "range end index " + Decimal(e) + " out of range for slice of length " + Decimal(len)
  }

  /** The `end` the op slices to: `-1` stands for the rank. */
  function EndOf(dims: Shape, end: int): int
  {
    if end == -1 then |dims| else end
  }

  /** `shape[start as usize..end as usize]`: the order of the bounds is checked
      before the end is checked against the rank. */
  function Sliced(dims: Shape, start: int, end: int): (r: Result<Shape>)
    ensures var s, e := AsUsize(start), AsUsize(EndOf(dims, end));
      && (r.Ok? <==> s <= e <= |dims|)
      && (s > e ==> r == Err(Panic(StartsAfterEnd(s, e))))
      && (s <= e && e > |dims| ==> r == Err(Panic(EndPastLength(e, |dims|))))
      && (r.Ok? ==> |r.value| == e - s && forall k :: 0 <= k < |r.value| ==> r.value[k] == dims[s + k])
  {
    var s, e := AsUsize(start), AsUsize(EndOf(dims, end));
    if s > e then Err(Panic(StartsAfterEnd(s, e)))
    else if e > |dims| then Err(Panic(EndPastLength(e, |dims|)))
    else Ok(dims[s..e])
  }

  /** `.map(|i| i as i64)` over the sliced dimensions. */
  function AsI64s(dims: Shape): (xs: seq<int>)
    requires UsizeDims(dims)
    ensures |xs| == |dims|
    ensures forall k :: 0 <= k < |xs| ==> InRange(xs[k], I64)
    ensures forall k :: 0 <= k < |xs| && dims[k] <= I64_MAX ==> xs[k] == dims[k]
  {
    seq(|dims|, k requires 0 <= k < |dims| => AsI64(dims[k]))
  }

  /** The tensor `Tensor::from_vec(shape![n], values)` builds from `n` values. */
  function ShapeTensor(values: seq<int>): (t: Tensors.Tensor)
    requires forall k :: 0 <= k < |values| ==> InRange(values[k], I64)
    ensures Valid(t) && t.dt == I64 && t.shape == [|values|] && t.len == |values|
  {
    assert Product([|values|]) == |values| * Product([]);
    FromVec(I64, [|values|], EncodeValues(values, I64))
  }

  /** `realize`: one provider; the output is the sliced shape as `i64` values, at
      no cost. */
  function Realize(op: ShapeOp, providers: seq<Tensors.Tensor>): (r: Result<RealizedOp>)
    requires |providers| == 1 ==> UsizeDims(providers[0].shape)
    ensures |providers| != 1 ==> r == Err(ProviderCount(1, 1, |providers|, NAME))
    ensures |providers| == 1 ==>
      var sliced := Sliced(providers[0].shape, op.start, op.end);
      && (r.Ok? <==> sliced.Ok?)
      && (sliced.Err? ==> r == Err(sliced.fault))
      && (r.Ok? ==> r.value.cost == ZeroCost && |r.value.outputs| == 1
                    && r.value.outputs[0].dt == I64 && r.value.outputs[0].shape == [|sliced.value|])
  {
    var _ :- ValidateProviders(|providers|, 1, 1, NAME);
    var dims :- Sliced(providers[0].shape, op.start, op.end);
    Ok(RealizedZeroCost([ShapeTensor(AsI64s(dims))]))
  }

  /** `build_shape`: `start` defaults to 0 and `end` to -1. */
  function Build(start: Option<int>, end: Option<int>): (op: ShapeOp)
    ensures op.start == (if start.Some? then start.value else 0)
    ensures op.end == (if end.Some? then end.value else -1)
  {
    ShapeOp(start.GetOr(0), end.GetOr(-1))
  }

  // ---------------------------------------------------------------------------
  // Properties

  /** The output reads back as the sliced dimensions: entry `k` is dimension
      `start + k` of the input (dimensions beyond `i64::MAX` wrap). */
  lemma ReadsBackTheDimensions(op: ShapeOp, input: Tensors.Tensor)
    requires UsizeDims(input.shape)
    requires Realize(op, [input]).Ok?
    ensures var out := Realize(op, [input]).value.outputs[0];
      var s := AsUsize(op.start);
      && Readable(out)
      && |IntElements(out)| == AsUsize(EndOf(input.shape, op.end)) - s
      && forall k :: 0 <= k < |IntElements(out)| ==> IntElements(out)[k] == AsI64(input.shape[s + k])
  {
    var dims := Sliced(input.shape, op.start, op.end).value;
    var xs := AsI64s(dims);
    FromVecRoundTrip(I64, [|xs|], xs);
    assert xs[..Product([|xs|])] == xs;
  }

  /** With the default attributes the op gives the whole shape. */
  lemma DefaultsGiveWholeShape(dims: Shape)
    ensures var op := Build(None, None); Sliced(dims, op.start, op.end) == Ok(dims)
  {
    assert dims[0..|dims|] == dims;
  }

  /** A negative `start` becomes a huge `usize` and the slice panics. */
  lemma NegativeStartPanics(dims: Shape, start: int, end: int)
    requires I64_MIN <= start < 0 && |dims| <= I64_MAX
    ensures IsPanic(Sliced(dims, start, end))
  {
  }

  /** The unit test: a 2 x 3 x 4 input with the default attributes gives the
      `i64` tensor `[2, 3, 4]` of shape `[3]`. */
  lemma ShapeTest()
    ensures Realize(ShapeOp(0, -1), [New(F32, [2, 3, 4])])
            == Ok(RealizedZeroCost([ShapeTensor([2, 3, 4])]))
  {
    var dims: Shape := [2, 3, 4];
    assert New(F32, [2, 3, 4]).shape == dims;
    assert Sliced(dims, 0, -1) == Ok(dims) by {
      assert dims[0..3] == dims;
    }
    assert AsI64s(dims) == [2, 3, 4];
  }
}
