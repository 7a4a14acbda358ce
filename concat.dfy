/** `Concat` (steelix/src/ir/ops/shape/concat.rs): the output shape is the shape
    `stack_tensors` gives the providers along `axis`; a stacking error is
    returned to the caller. steelix's own `stack_tensors` (in its tensor.rs) is
    not part of this model; the one in crates/ir/src/tensor.rs stands for it. */
module SteelixConcat {
  import opened Wrappers
  import opened Numerics
  import opened Shapes
  import opened Tensors
  import opened IrCore
  import opened Stacking

  const NAME: string := "Concat"
  const GROUP: OpGroup := OpGroup.Shape

  datatype Concat = Concat(axis: int)

  /** `Concat::concat`: the stacked shape, with `axis as usize`. */
  function Concatenated(op: Concat, providers: seq<Tensors.Tensor>): (r: Result<Shape>)
    ensures providers == [] ==> IsPanic(r)
    ensures r.Ok? ==>
      var a := AsUsize(op.axis);
      && a < |providers[0].shape| && |r.value| == |providers[0].shape|
      && HasAxis(providers, a) && r.value[a] == AxisSum(providers, a)
      && forall ax :: 0 <= ax < |r.value| && ax != a ==> r.value[ax] == providers[0].shape[ax]
  {
    StackShape(AsUsize(op.axis), providers)
  }

  /** `realize`: one or two providers; the output is a zeroed tensor of the first
      provider's dtype and the stacked shape, at no cost. */
  function Realize(op: Concat, providers: seq<Tensors.Tensor>): (r: Result<RealizedOp>)
    ensures !(1 <= |providers| <= 2) ==> r == Err(ProviderCount(1, 2, |providers|, NAME))
    ensures 1 <= |providers| <= 2 ==>
      var shape := Concatenated(op, providers);
      && (r.Ok? <==> shape.Ok?)
      && (shape.Err? ==> r == Err(shape.fault))
      && (r.Ok? ==> r.value == RealizedZeroCost([New(providers[0].dt, shape.value)]))
  {
    var _ :- ValidateProviders(|providers|, 1, 2, NAME);
    var shape :- Concatenated(op, providers);
    Ok(RealizedZeroCost([New(providers[0].dt, shape)]))
  }

  /** `build_concat`: the `axis` attribute is required. */
  function Build(axis: Option<int>): (r: Result<Concat>)
    ensures r.Ok? <==> axis.Some?
    ensures r.Err? ==> r.fault == Bail("axis")
    ensures r.Ok? ==> r.value.axis == axis.value
  {
    if axis.None? then Err(Bail("axis")) else Ok(Concat(axis.value))
  }

  // ---------------------------------------------------------------------------
  // Properties

  /** Concatenating two tensors of the same rank gives as many elements as the
      two hold. */
  lemma ConcatKeepsElements(op: Concat, a: Tensors.Tensor, b: Tensors.Tensor)
    requires Concatenated(op, [a, b]).Ok? && |b.shape| == |a.shape|
    ensures Product(Concatenated(op, [a, b]).value) == Product(a.shape) + Product(b.shape)
  {
    var ax := AsUsize(op.axis);
    var s := Concatenated(op, [a, b]).value;
    assert [a, b][..1] == [a] && [a][..0] == [];
    assert AxisSum([a], ax) == a.shape[ax] by {
      assert AxisSum([a], ax) == AxisSum([], ax) + a.shape[ax];
    }
    assert AxisSum([a, b], ax) == AxisSum([a], ax) + b.shape[ax];
    assert Conforms([a, b], a.shape, ax);
    ProductSplitsOnAxis(s, a.shape, b.shape, ax);
  }

  /** Two shapes that agree off `ax`, and a third whose `ax` dimension is the sum
      of theirs: its element count is the sum of theirs. */
  lemma {:induction false} ProductSplitsOnAxis(s: Shape, x: Shape, y: Shape, ax: nat)
    requires |s| == |x| == |y| && ax < |s| && s[ax] == x[ax] + y[ax]
    requires forall k :: 0 <= k < |s| && k != ax ==> s[k] == x[k] && y[k] == x[k]
    ensures Product(s) == Product(x) + Product(y)
  {
    if ax == 0 {
      assert s[1..] == x[1..] == y[1..];
      MulDistributes(Product(x[1..]), x[0], y[0]);
    } else {
      ProductSplitsOnAxis(s[1..], x[1..], y[1..], ax - 1);
      MulDistributes(x[0], Product(x[1..]), Product(y[1..]));
    }
  }

  /** A negative axis becomes a huge `usize`: the op always fails (ONNX's
      counting from the end is not supported). */
  lemma NegativeAxisFails(op: Concat, providers: seq<Tensors.Tensor>)
    requires I64_MIN <= op.axis < 0
    requires forall k :: 0 <= k < |providers| ==> |providers[k].shape| <= I64_MAX
    ensures Concatenated(op, providers).Err?
  {
  }

  /** Inputs that disagree off the axis, with the same rank, give an error. */
  lemma MismatchIsReported(op: Concat, providers: seq<Tensors.Tensor>)
    requires providers != [] && AsUsize(op.axis) < |providers[0].shape|
    requires forall k :: 0 <= k < |providers| ==> |providers[k].shape| == |providers[0].shape|
    requires !Conforms(providers, providers[0].shape, AsUsize(op.axis))
    ensures IsBail(Concatenated(op, providers))
  {
    MismatchIsAnError(AsUsize(op.axis), providers);
  }
}

/** `Concat` (crates/ir/src/ops/shape/concat.rs): as in steelix, except that the
    stacking result is unwrapped, so a stacking error becomes a panic. */
module CratesConcat {
  import opened Wrappers
  import opened Numerics
  import opened Shapes
  import opened Tensors
  import opened IrCore
  import opened Stacking
  import SteelixConcat

  const NAME: string := "Concat"
  const GROUP: OpGroup := OpGroup.Shape
  const UNWRAP_ERR: string := "called `Result::unwrap()` on an `Err` value"

  /** `Concat::concat`: `stack_tensors(..).unwrap().shape`. */
  function Concatenated(op: SteelixConcat.Concat, providers: seq<Tensors.Tensor>): (r: Result<Shape>)
    ensures r.Err? ==> r.fault.Panic?
    ensures r.Ok? <==> StackShape(AsUsize(op.axis), providers).Ok?
    ensures r.Ok? ==> r == StackShape(AsUsize(op.axis), providers)
  {
    match StackShape(AsUsize(op.axis), providers)
    case Ok(s) => Ok(s)
    case Err(f) => Err(if f.Panic? then f else Panic(UNWRAP_ERR))
  }

  /** `realize`: as in steelix; the debug print is not modelled. */
  function Realize(op: SteelixConcat.Concat, providers: seq<Tensors.Tensor>): (r: Result<RealizedOp>)
    ensures !(1 <= |providers| <= 2) ==> r == Err(ProviderCount(1, 2, |providers|, NAME))
    ensures 1 <= |providers| <= 2 ==>
      var shape := Concatenated(op, providers);
      && (r.Ok? <==> shape.Ok?)
      && (shape.Err? ==> r == Err(shape.fault) && IsPanic(r))
      && (r.Ok? ==> r.value == RealizedZeroCost([New(providers[0].dt, shape.value)]))
  {
    var _ :- ValidateProviders(|providers|, 1, 2, NAME);
    var shape :- Concatenated(op, providers);
    Ok(RealizedZeroCost([New(providers[0].dt, shape)]))
  }

  /** The two versions agree whenever either succeeds; where steelix returns a
      stacking error, this version panics instead. */
  lemma AgreesWithSteelix(op: SteelixConcat.Concat, providers: seq<Tensors.Tensor>)
    ensures Realize(op, providers).Ok? <==> SteelixConcat.Realize(op, providers).Ok?
    ensures Realize(op, providers).Ok? ==> Realize(op, providers) == SteelixConcat.Realize(op, providers)
    ensures 1 <= |providers| <= 2 && IsBail(SteelixConcat.Realize(op, providers))
            ==> Realize(op, providers) == Err(Panic(UNWRAP_ERR))
  {
  }
}
