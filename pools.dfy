/** `MaxPool` (steelix/src/ir/ops/pool/max_pool.rs): output size without
    dilation, a flop per kernel tap per output element, and its builder. */
module SteelixMaxPool {
  import opened Wrappers
  import opened Numerics
  import opened Shapes
  import opened Tensors
  import opened IrCore
  import opened Windows

  datatype MaxPool = MaxPool(ceilMode: int, countIncludePad: int, pads: seq<int>,
                             strides: seq<int>, kernelShape: seq<int>)

  /** `MaxPool::output_dims`: `(m + 2 pads[2] - k[0]) / s[0] + 1` by
      `(n + 2 pads[3] - k[1]) / s[1] + 1` in `i64`, truncated and saturated
      to `usize`. Short attribute lists are an index out of bounds and a zero
      stride a division by zero. */
  function OutputDims(p: MaxPool, m: int, n: int): (r: Result<Dims>)
    ensures r.Ok? <==> |p.kernelShape| >= 2 && |p.strides| >= 2 && |p.pads| >= 4
                       && p.strides[0] != 0 && p.strides[1] != 0
    ensures r.Err? ==> IsPanic(r)
    ensures r.Ok? ==> r.value.h == PlainDim(m, p.pads[2], p.kernelShape[0], p.strides[0])
                      && r.value.w == PlainDim(n, p.pads[3], p.kernelShape[1], p.strides[1])
  {
    if |p.kernelShape| < 2 || |p.strides| < 2 || |p.pads| < 4 then Err(Panic(OUT_OF_BOUNDS))
    else if p.strides[0] == 0 || p.strides[1] == 0 then Err(Panic(DIV_BY_ZERO))
    else Ok(Dims(PlainDim(m, p.pads[2], p.kernelShape[0], p.strides[0]),
                 PlainDim(n, p.pads[3], p.kernelShape[1], p.strides[1])))
  }

  /** With a kernel that fits and positive strides, the output height counts
      the window positions down the padded input. */
  lemma OutputDimsCountWindows(p: MaxPool, m: int, n: int)
    requires OutputDims(p, m, n).Ok?
    requires p.strides[0] > 0 && p.kernelShape[0] <= m + 2 * p.pads[2]
    ensures var o := OutputDims(p, m, n).value.h;
      o >= 1 && (o - 1) * p.strides[0] + p.kernelShape[0] <= m + 2 * p.pads[2]
      && m + 2 * p.pads[2] < o * p.strides[0] + p.kernelShape[0]
  {
    PlainIsUndilated(m, p.pads[2], p.kernelShape[0], p.strides[0]);
    DilatedDimCountsWindows(m, p.pads[2], p.kernelShape[0], 1, p.strides[0]);
  }

  /** The product of the kernel dimensions, taken in `i64` and cast to `usize`. */
  function IntProduct(s: seq<int>): int
  {
    if s == [] then 1 else s[0] * IntProduct(s[1..])
  }

  /** `MaxPool::realize`: no check of the provider count; only the first
      provider is read, as an NCHW input. The output is a zero tensor
      `[N, C, h_out, w_out]` of the input's dtype, and each of its elements
      costs one flop per kernel tap. */
  function Realize(p: MaxPool, providers: seq<Tensors.Tensor>): (r: Result<RealizedOp>)
    ensures r.Ok? <==> |providers| >= 1 && |providers[0].shape| >= 4 && OutputDims(p, 0, 0).Ok?
    ensures r.Err? ==> IsPanic(r)
    ensures r.Ok? ==>
      var x := providers[0].shape;
      var d := OutputDims(p, x[2], x[3]).value;
      && r.value.outputs == [New(providers[0].dt, [x[0], x[1], d.h, d.w])]
      && r.value.cost == OpCost(AsUsize(IntProduct(p.kernelShape)) * Product([x[0], x[1], d.h, d.w]), 0)
  {
    if |providers| == 0 || |providers[0].shape| < 4 then Err(Panic(OUT_OF_BOUNDS))
    else
      var x := providers[0].shape;
      var d :- OutputDims(p, x[2], x[3]);
      var out := New(providers[0].dt, [x[0], x[1], d.h, d.w]);
      Ok(RealizedOp(OpCost(AsUsize(IntProduct(p.kernelShape)) * Numel(out), 0), [out]))
  }

  /** The flop count is the kernel area times the output's element count
      `N * C * h_out * w_out`, which is the count of (output element, kernel
      tap) pairs the max is taken over. */
  lemma FlopsPerOutputElement(p: MaxPool, providers: seq<Tensors.Tensor>)
    requires Realize(p, providers).Ok?
    requires forall i :: 0 <= i < |p.kernelShape| ==> p.kernelShape[i] >= 0
    ensures var r := Realize(p, providers).value;
      r.cost.flops == IntProduct(p.kernelShape) * Numel(r.outputs[0])
      && Numel(r.outputs[0]) == providers[0].shape[0] * providers[0].shape[1]
                                * OutputDims(p, providers[0].shape[2], providers[0].shape[3]).value.h
                                * OutputDims(p, providers[0].shape[2], providers[0].shape[3]).value.w
  {
    NonNegativeProduct(p.kernelShape);
    var x := providers[0].shape;
    var d := OutputDims(p, x[2], x[3]).value;
    ProductOfFour(x[0], x[1], d.h, d.w);
  }

  lemma {:induction false} NonNegativeProduct(s: seq<int>)
    requires forall i :: 0 <= i < |s| ==> s[i] >= 0
    ensures IntProduct(s) >= 0
  {
    if s != [] {
      NonNegativeProduct(s[1..]);
    }
  }

  /** `build_maxpool`: `ceil_mode` and `count_include_pad` default to 0, `pads`
      to `[0, 0, 0, 0]` and `strides` to `[1, 1]`; the kernel shape has no
      default, and its absence is an error. */
  function Build(ceilMode: Option<int>, countIncludePad: Option<int>, pads: Option<seq<int>>,
                 kernelShape: Option<seq<int>>, strides: Option<seq<int>>): (r: Result<MaxPool>)
    ensures r.Ok? <==> kernelShape.Some?
    ensures r.Err? ==> IsBail(r)
    ensures r.Ok? ==> r.value.kernelShape == kernelShape.value
    ensures r.Ok? ==> (ceilMode.None? ==> r.value.ceilMode == 0) && (ceilMode.Some? ==> r.value.ceilMode == ceilMode.value)
    ensures r.Ok? ==> (countIncludePad.None? ==> r.value.countIncludePad == 0)
                      && (countIncludePad.Some? ==> r.value.countIncludePad == countIncludePad.value)
    ensures r.Ok? ==> (pads.None? ==> r.value.pads == [0, 0, 0, 0]) && (pads.Some? ==> r.value.pads == pads.value)
    ensures r.Ok? ==> (strides.None? ==> r.value.strides == [1, 1]) && (strides.Some? ==> r.value.strides == strides.value)
  {
    if kernelShape.None? then Err(Bail("kernel_shape"))
    else
      Ok(MaxPool(ceilMode.GetOr(0), countIncludePad.GetOr(0), pads.GetOr([0, 0, 0, 0]),
                 strides.GetOr([1, 1]), kernelShape.value))
  }

  /** The stem of a residual network: a 3 x 3 window, stride 2 and one row and
      column of padding take 64 channels of 112 x 112 to 56 x 56, at 9 flops
      per output element. */
  lemma StemExample(x: Tensors.Tensor)
    requires x.shape == [1, 64, 112, 112]
    ensures var r := Realize(MaxPool(0, 0, [1, 1, 1, 1], [2, 2], [3, 3]), [x]);
      r.Ok? && r.value.outputs[0].shape == [1, 64, 56, 56]
      && r.value.cost == OpCost(9 * (1 * 64 * 56 * 56), 0)
  {
    var p := MaxPool(0, 0, [1, 1, 1, 1], [2, 2], [3, 3]);
    assert OutputDims(p, 112, 112) == Ok(Dims(56, 56));
    assert IntProduct([3, 3]) == 9;
    ProductOfFour(1, 64, 56, 56);
  }
}

/** `AvgPool` (crates/ir/src/ops/pool/avg_pool.rs): the pooling output size,
    an f32 output whatever the input, a multiply-accumulate per input
    element, and the builder. */
module CratesAvgPool {
  import opened Wrappers
  import opened Numerics
  import opened Shapes
  import opened Tensors
  import opened IrCore
  import opened Windows
  import SteelixMaxPool

  datatype AvgPool = AvgPool(ceilMode: Option<int>, countIncludePad: Option<int>, pads: seq<int>,
                             strides: seq<int>, kernelShape: seq<int>)

  /** `AvgPool::output_dims`: the same formula as max pooling. */
  function OutputDims(p: AvgPool, m: int, n: int): (r: Result<Dims>)
    ensures r == SteelixMaxPool.OutputDims(SteelixMaxPool.MaxPool(0, 0, p.pads, p.strides, p.kernelShape), m, n)
  {
    if |p.kernelShape| < 2 || |p.strides| < 2 || |p.pads| < 4 then Err(Panic(OUT_OF_BOUNDS))
    else if p.strides[0] == 0 || p.strides[1] == 0 then Err(Panic(DIV_BY_ZERO))
    else Ok(Dims(PlainDim(m, p.pads[2], p.kernelShape[0], p.strides[0]),
                 PlainDim(n, p.pads[3], p.kernelShape[1], p.strides[1])))
  }

  /** `AvgPool::cost`: only the first provider is read, as an NCHW input. The
      output is an f32 zero tensor `[N, C, h_out, w_out]`, listed four times,
      and the cost is one multiply-accumulate per input element. */
  function Realize(p: AvgPool, providers: seq<Tensors.Tensor>): (r: Result<RealizedOp>)
    ensures r.Ok? <==> |providers| >= 1 && |providers[0].shape| >= 4 && OutputDims(p, 0, 0).Ok?
    ensures r.Err? ==> IsPanic(r)
    ensures r.Ok? ==>
      var x := providers[0].shape;
      var d := OutputDims(p, x[2], x[3]).value;
      && |r.value.outputs| == 4
      && (forall i :: 0 <= i < 4 ==> r.value.outputs[i] == New(F32, [x[0], x[1], d.h, d.w]))
      && r.value.cost == OpCost(Numel(providers[0]), 0)
  {
    if |providers| == 0 || |providers[0].shape| < 4 then Err(Panic(OUT_OF_BOUNDS))
    else
      var x := providers[0].shape;
      var d :- OutputDims(p, x[2], x[3]);
      var out := New(F32, [x[0], x[1], d.h, d.w]);
      Ok(RealizedOp(OpCost(Numel(providers[0]), 0), [out, out, out, out]))
  }

  /** Average and max pooling with the same attributes produce outputs of the
      same shape; the dtype is the input's for max pooling and always F32 here. */
  lemma SameShapeAsMaxPool(p: AvgPool, providers: seq<Tensors.Tensor>)
    ensures var q := SteelixMaxPool.MaxPool(0, 0, p.pads, p.strides, p.kernelShape);
      var a, m := Realize(p, providers), SteelixMaxPool.Realize(q, providers);
      (a.Ok? <==> m.Ok?)
      && (a.Ok? ==> a.value.outputs[0].shape == m.value.outputs[0].shape && a.value.outputs[0].dt == F32
                    && m.value.outputs[0].dt == providers[0].dt)
  {
  }

  /** `build_avgpool`: `ceil_mode` and `count_include_pad` stay optional,
      `pads` defaults to `[0, 0, 0, 0]` and `strides` to `[1, 1]`; a missing
      kernel shape is an `unwrap` on `None`. */
  function Build(ceilMode: Option<int>, countIncludePad: Option<int>, pads: Option<seq<int>>,
                 kernelShape: Option<seq<int>>, strides: Option<seq<int>>): (r: Result<AvgPool>)
    ensures r.Ok? <==> kernelShape.Some?
    ensures r.Err? ==> r.fault == Panic(UNWRAP_NONE)
    ensures r.Ok? ==> r.value.kernelShape == kernelShape.value
                      && r.value.ceilMode == ceilMode && r.value.countIncludePad == countIncludePad
    ensures r.Ok? ==> (pads.None? ==> r.value.pads == [0, 0, 0, 0]) && (pads.Some? ==> r.value.pads == pads.value)
    ensures r.Ok? ==> (strides.None? ==> r.value.strides == [1, 1]) && (strides.Some? ==> r.value.strides == strides.value)
  {
    if kernelShape.None? then Err(Panic(UNWRAP_NONE))
    else Ok(AvgPool(ceilMode, countIncludePad, pads.GetOr([0, 0, 0, 0]), strides.GetOr([1, 1]), kernelShape.value))
  }
}

/** `GlobalAveragePool` (steelix/src/ir/ops/pool/globalavgpool.rs): one value
    per batch entry and channel. */
module SteelixGlobalAvgPool {
  import opened Wrappers
  import opened Shapes
  import opened Tensors
  import opened IrCore
  import opened Windows
  import SteelixMaxPool

  /** `GlobalAveragePool::realize`: no check of the provider count; the output
      is a zero tensor `[N, C, 1, 1]` of the first provider's dtype, at one
      flop per input element. */
  function Realize(providers: seq<Tensors.Tensor>): (r: Result<RealizedOp>)
    ensures r.Ok? <==> |providers| >= 1 && |providers[0].shape| >= 2
    ensures r.Err? ==> r.fault == Panic(OUT_OF_BOUNDS)
    ensures r.Ok? ==>
      && r.value.outputs == [New(providers[0].dt, [providers[0].shape[0], providers[0].shape[1], 1, 1])]
      && r.value.cost == OpCost(Numel(providers[0]), 0)
  {
    if |providers| == 0 || |providers[0].shape| < 2 then Err(Panic(OUT_OF_BOUNDS))
    else
      var x := providers[0].shape;
      Ok(RealizedOp(OpCost(Numel(providers[0]), 0), [New(providers[0].dt, [x[0], x[1], 1, 1])]))
  }

  /** A global pool is a pool whose window is the whole image: max pooling an
      NCHW input with an `H x W` kernel, no padding and unit strides gives an
      output of the same shape and dtype. Its output has one element per
      batch entry and channel. */
  lemma WholeImageWindow(x: Tensors.Tensor)
    requires |x.shape| == 4
    ensures var g := Realize([x]);
      var m := SteelixMaxPool.Realize(SteelixMaxPool.MaxPool(0, 0, [0, 0, 0, 0], [1, 1], [x.shape[2], x.shape[3]]), [x]);
      g.Ok? && m.Ok? && g.value.outputs[0] == m.value.outputs[0]
      && Numel(g.value.outputs[0]) == x.shape[0] * x.shape[1]
  {
    var p := SteelixMaxPool.MaxPool(0, 0, [0, 0, 0, 0], [1, 1], [x.shape[2], x.shape[3]]);
    assert SteelixMaxPool.OutputDims(p, x.shape[2], x.shape[3]) == Ok(Dims(1, 1));
    ProductOfFour(x.shape[0], x.shape[1], 1, 1);
  }
}
