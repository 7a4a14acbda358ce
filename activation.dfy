/** `Softmax` (crates/ir/src/ops/activation/softmax.rs): only the size of the
    chosen axis is kept. */
module CratesSoftmax {
  import opened Wrappers
  import opened Numerics
  import opened Shapes
  import opened Tensors
  import opened IrCore

  const NAME: string := "Softmax"
  const GROUP: OpGroup := Activation

  datatype Softmax = Softmax(axis: int)

  /** `build_softmax`: `axis` defaults to -1. */
  function Build(axis: Option<int>): (s: Softmax)
    ensures axis.None? ==> s.axis == -1
    ensures axis.Some? ==> s.axis == axis.value
  {
    Softmax(axis.GetOr(-1))
  }

  /** The dimension `realize` reads: -1 is the last one, on an empty shape an
      underflow of `len - 1`; any other axis is cast to `usize` (a negative one
      wraps) and must index the shape. */
  function SelectedDim(shape: Shape, axis: int): (r: Result<nat>)
    ensures axis == -1 ==> (r.Ok? <==> |shape| >= 1)
    ensures axis == -1 && shape == [] ==> r == Err(Panic(SUB_OVERFLOW))
    ensures axis != -1 && I64_MIN <= axis && |shape| <= I64_MAX ==> (r.Ok? <==> 0 <= axis < |shape|)
    ensures r.Err? ==> IsPanic(r)
    ensures r.Ok? ==> r.value in shape
  {
    if axis == -1 then
      if |shape| == 0 then Err(Panic(SUB_OVERFLOW)) else Ok(shape[|shape| - 1])
    else
      var i := AsUsize(axis);
      if i < |shape| then Ok(shape[i]) else Err(Panic(OUT_OF_BOUNDS))
  }

  /** `Softmax::realize`: exactly one provider; the output is a one-dimensional
      zero tensor holding the selected dimension, of the input's dtype, at
      five flops per element of it. */
  function Realize(s: Softmax, providers: seq<Tensors.Tensor>): (r: Result<RealizedOp>)
    ensures |providers| != 1 ==> r == Err(ProviderCount(1, 1, |providers|, NAME))
    ensures |providers| == 1 ==> (r.Ok? <==> SelectedDim(providers[0].shape, s.axis).Ok?)
    ensures r.Ok? ==> var d := SelectedDim(providers[0].shape, s.axis).value;
      r.value.outputs == [New(providers[0].dt, [d])] && r.value.cost == OpCost(5 * d, 0)
  {
    var _ :- ValidateProviders(|providers|, 1, 1, NAME);
    var d :- SelectedDim(providers[0].shape, s.axis);
    var out := New(providers[0].dt, [d]);
    assert Product([d]) == d;
    Ok(RealizedOp(OpCost(5 * Numel(out), 0), [out]))
  }

  /** Axis -1 and the last axis select the same dimension, so they give the
      same result. */
  lemma MinusOneIsLastAxis(x: Tensors.Tensor)
    requires |x.shape| >= 1
    ensures Realize(Softmax(-1), [x]) == Realize(Softmax(|x.shape| - 1), [x])
  {
  }

  /** A `[1, 1000]` classifier output: the default axis keeps the 1000 classes,
      at 5000 flops. */
  lemma ClassifierExample(x: Tensors.Tensor)
    requires x.shape == [1, 1000]
    ensures var r := Realize(Build(None), [x]);
      r.Ok? && r.value.outputs[0].shape == [1000] && r.value.cost.flops == 5000
  {
  }
}

/** `Clip` (src/ir/ops/activation/clip.rs): the input passed through at one
    flop per element; the bounds are not used. */
module SrcClip {
  import opened Wrappers
  import opened Numerics
  import opened Tensors
  import opened IrCore

  const NAME: string := "Clip"
  const GROUP: OpGroup := Activation

  datatype Clip = Clip(min: int, max: int)

  /** `build_clip`: the bounds default to the whole `i64` range. */
  function Build(min: Option<int>, max: Option<int>): (c: Clip)
    ensures min.None? ==> c.min == I64_MIN
    ensures max.None? ==> c.max == I64_MAX
    ensures min.Some? ==> c.min == min.value
    ensures max.Some? ==> c.max == max.value
  {
    Clip(min.GetOr(I64_MIN), max.GetOr(I64_MAX))
  }

  /** `Clip::realize`: one to three providers (the input and the optional
      bounds as tensors); the input is the only output, at one flop per
      element. */
  function Realize(c: Clip, providers: seq<Tensors.Tensor>): (r: Result<RealizedOp>)
    ensures r.Ok? <==> 1 <= |providers| <= 3
    ensures r.Err? ==> r.fault == ProviderCount(1, 3, |providers|, NAME)
    ensures r.Ok? ==> r.value.outputs == [providers[0]] && r.value.cost == UnaryOpFlops(providers[0], 1)
  {
    var _ :- ValidateProviders(|providers|, 1, 3, NAME);
    Ok(RealizedOp(OpCost(Numel(providers[0]), 0), [providers[0]]))
  }

  /** On one provider Clip is indistinguishable from an elementwise
      activation of one flop per element, such as Relu; unlike Relu it also
      takes two or three. The bounds never matter. */
  lemma LikeRelu(c: Clip, d: Clip, providers: seq<Tensors.Tensor>)
    ensures |providers| == 1 ==>
      (Realize(c, providers).Ok? && RealizeElementwise(Relu, providers).Ok?
       && Realize(c, providers).value == RealizeElementwise(Relu, providers).value)
    ensures Realize(c, providers) == Realize(d, providers)
  {
  }
}
