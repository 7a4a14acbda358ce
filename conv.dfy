/** Depthwise convolution (crates/ir/src/ops/nn/depthwise.rs): only its output
    size is computed. */
module CratesDepthwise {
  import opened Wrappers
  import opened Windows

  datatype Depthwise = Depthwise(group: int, pads: seq<int>, kernelShape: Option<seq<int>>,
                                 strides: seq<int>, dilations: seq<int>)

  /** `Depthwise::output_dims`: the dilated formula on the height and width of an
      NCHW input. A missing kernel shape is an `unwrap` on `None`, a short
      attribute list an index out of bounds and a zero stride a division by zero. */
  function OutputDims(c: Depthwise, input: seq<int>): (r: Result<Dims>)
    ensures r.Ok? <==> c.kernelShape.Some? && Indexable(input, c.pads, c.kernelShape.value, c.strides)
                       && |c.dilations| >= 2 && c.strides[0] != 0 && c.strides[1] != 0
    ensures r.Err? ==> IsPanic(r)
    ensures c.kernelShape.None? && |input| >= 4 && |c.pads| >= 4 && |c.dilations| >= 2 ==> r == Err(Panic(UNWRAP_NONE))
    ensures r.Ok? ==> r.value.h == DilatedDim(input[2], c.pads[2], c.kernelShape.value[0], c.dilations[0], c.strides[0])
    ensures r.Ok? ==> r.value.w == DilatedDim(input[3], c.pads[3], c.kernelShape.value[1], c.dilations[1], c.strides[1])
  {
    if |input| < 4 || |c.pads| < 4 || |c.dilations| < 2 then Err(Panic(OUT_OF_BOUNDS))
    else if c.kernelShape.None? then Err(Panic(UNWRAP_NONE))
    else if |c.kernelShape.value| < 2 || |c.strides| < 2 then Err(Panic(OUT_OF_BOUNDS))
    else if c.strides[0] == 0 || c.strides[1] == 0 then Err(Panic(DIV_BY_ZERO))
    else
      var k := c.kernelShape.value;
      Ok(Dims(DilatedDim(input[2], c.pads[2], k[0], c.dilations[0], c.strides[0]),
              DilatedDim(input[3], c.pads[3], k[1], c.dilations[1], c.strides[1])))
  }

  /** With a kernel that fits and positive strides, each output size counts the
      window positions along its axis (the partner lemma of `Windows`). */
  lemma OutputDimsCountWindows(c: Depthwise, input: seq<int>)
    requires OutputDims(c, input).Ok?
    requires c.strides[0] > 0 && Extent(c.kernelShape.value[0], c.dilations[0]) <= input[2] + 2 * c.pads[2]
    ensures var o := OutputDims(c, input).value.h;
      o >= 1 && (o - 1) * c.strides[0] + Extent(c.kernelShape.value[0], c.dilations[0]) <= input[2] + 2 * c.pads[2]
      && input[2] + 2 * c.pads[2] < o * c.strides[0] + Extent(c.kernelShape.value[0], c.dilations[0])
  {
    DilatedDimCountsWindows(input[2], c.pads[2], c.kernelShape.value[0], c.dilations[0], c.strides[0]);
  }

  /** The output sizes the depthwise tests expect: 112 stays 112 with a 3x3
      kernel and padding 1; 56 becomes 28 with a 5x5 kernel, height/width pads 2
      and stride 2; 3 stays 3 with a 3x3 kernel and padding 1. */
  lemma TestDims()
    ensures OutputDims(Depthwise(32, [1, 1, 1, 1], Some([3, 3]), [1, 1], [1, 1]), [1, 32, 112, 112])
            == Ok(Dims(112, 112))
    ensures OutputDims(Depthwise(192, [1, 1, 2, 2], Some([5, 5]), [2, 2], [1, 1]), [1, 192, 56, 56])
            == Ok(Dims(28, 28))
    ensures OutputDims(Depthwise(4, [1, 1, 1, 1], Some([3, 3]), [1, 1], [1, 1]), [1, 4, 3, 3])
            == Ok(Dims(3, 3))
  {
  }
}

/** Convolution (crates/ir/src/ops/nn/conv.rs): output size, multiply-accumulate
    count and parameter count, and the builder that picks depthwise convolution
    for grouped layers. */
module CratesConv {
  import opened Wrappers
  import opened Numerics
  import opened Shapes
  import opened Tensors
  import opened IrCore
  import opened Windows
  import opened CratesDepthwise

  datatype Conv = Conv(group: int, pads: seq<int>, kernelShape: seq<int>,
                       strides: seq<int>, dilations: seq<int>)

  /** `Conv::output_dims`: the same dilated formula as depthwise convolution. */
  function OutputDims(c: Conv, input: seq<int>): (r: Result<Dims>)
    ensures r.Ok? <==> Indexable(input, c.pads, c.kernelShape, c.strides)
                       && |c.dilations| >= 2 && c.strides[0] != 0 && c.strides[1] != 0
    ensures r.Err? ==> IsPanic(r)
    ensures r.Ok? ==> r.value.h == DilatedDim(input[2], c.pads[2], c.kernelShape[0], c.dilations[0], c.strides[0])
    ensures r.Ok? ==> r.value.w == DilatedDim(input[3], c.pads[3], c.kernelShape[1], c.dilations[1], c.strides[1])
  {
    if !Indexable(input, c.pads, c.kernelShape, c.strides) || |c.dilations| < 2 then Err(Panic(OUT_OF_BOUNDS))
    else if c.strides[0] == 0 || c.strides[1] == 0 then Err(Panic(DIV_BY_ZERO))
    else
      Ok(Dims(DilatedDim(input[2], c.pads[2], c.kernelShape[0], c.dilations[0], c.strides[0]),
              DilatedDim(input[3], c.pads[3], c.kernelShape[1], c.dilations[1], c.strides[1])))
  }

  /** The two ops compute the same output size from the same attributes. */
  lemma SameDimsAsDepthwise(c: Conv, input: seq<int>)
    ensures OutputDims(c, input) ==
      CratesDepthwise.OutputDims(Depthwise(c.group, c.pads, Some(c.kernelShape), c.strides, c.dilations), input)
  {
  }

  /** The placeholder output: an f32 zero tensor `[n, f, h_out, w_out]`. */
  function Placeholder(x: Shape, w: Shape, d: Dims): (t: Tensors.Tensor)
    requires |x| >= 1 && |w| >= 1
    ensures Valid(t) && t.dt == F32 && t.shape == [x[0], w[0], d.h, d.w]
  {
    New(F32, [x[0], w[0], d.h, d.w])
  }

  /** The multiply-accumulate count of `Conv::cost`:
      `(cin / group) * kh * kw * h_out * w_out * f`. */
  function Mac(cin: nat, kh: nat, kw: nat, h: nat, w: nat, f: nat, g: nat): nat
    requires g != 0
  {
    var a: nat := cin / g;
    var b: nat := a * kh;
    var c: nat := b * kw;
    var d: nat := c * h;
    var e: nat := d * w;
    e * f
  }

  /** The parameter count of `Conv::cost`: `f * cin * kh * (kw / group)`. */
  function Parameters(f: nat, cin: nat, kh: nat, kw: nat, g: nat): nat
    requires g != 0
  {
    var a: nat := f * cin;
    var b: nat := a * kh;
    b * (kw / g)
  }

  /** Without groups every output position costs one multiply-accumulate per
      weight: `mac == parameters * h_out * w_out`. */
  lemma MacPerPosition(cin: nat, kh: nat, kw: nat, h: nat, w: nat, f: nat)
    ensures Mac(cin, kh, kw, h, w, f, 1) == Parameters(f, cin, kh, kw, 1) * h * w
  {
    var k := f * cin * kh * kw;
    assert Parameters(f, cin, kh, kw, 1) == k;
    assert Mac(cin, kh, kw, h, w, f, 1) == cin * kh * kw * h * w * f;
    assert cin * kh * kw * h * w * f == (cin * kh * kw * f) * (h * w);
    assert cin * kh * kw * f == k;
  }

  /** `Conv::cost`. The providers are the NCHW input `x` and the `[f, c, kh, kw]`
      weights (a bias may follow). The bail after `validate_providers` tests the
      same bounds again and never fires. */
  function Cost(c: Conv, providers: seq<Tensors.Tensor>): (r: Result<RealizedOp>)
    ensures !(2 <= |providers| <= 3) ==> r.Err? && r.fault == ProviderCount(2, 3, |providers|, "Conv")
    ensures r.Err? ==> r.fault.ProviderCount? || r.fault.Panic?
    ensures r.Ok? <==> 2 <= |providers| <= 3 && |providers[0].shape| >= 4 && |providers[1].shape| >= 4
                       && OutputDims(c, providers[0].shape).Ok? && AsUsize(c.group) != 0
    ensures r.Ok? ==>
      var x, w, d, g := providers[0].shape, providers[1].shape, OutputDims(c, providers[0].shape).value, AsUsize(c.group);
      && |r.value.outputs| == 4
      && (forall i :: 0 <= i < 4 ==> r.value.outputs[i] == Placeholder(x, w, d))
      && r.value.cost.flops == Mac(x[1], w[2], w[3], d.h, d.w, w[0], g)
      && r.value.cost.parameters == Parameters(w[0], x[1], w[2], w[3], g)
  {
    var _ :- ValidateProviders(|providers|, 2, 3, "Conv");
    if |providers| > 3 || |providers| < 2 then Err(Bail("Conv providers incorrect length"))
    else
      var x, w := providers[0].shape, providers[1].shape;
      if |x| < 4 || |w| < 4 then Err(Panic(OUT_OF_BOUNDS))
      else
        var dims :- OutputDims(c, x);
        var g := AsUsize(c.group);
        if g == 0 then Err(Panic(DIV_BY_ZERO))
        else
          var placeholder := Placeholder(x, w, dims);
          Ok(RealizedOp(OpCost(Mac(x[1], w[2], w[3], dims.h, dims.w, w[0], g), Parameters(w[0], x[1], w[2], w[3], g)),
                        [placeholder, placeholder, placeholder, placeholder]))
  }

  /** For an ungrouped convolution, the only kind `Build` makes, every output
      position costs one multiply-accumulate per weight. */
  lemma UngroupedCostPerPosition(c: Conv, providers: seq<Tensors.Tensor>)
    requires c.group == 1 && Cost(c, providers).Ok?
    ensures var r, d := Cost(c, providers).value, OutputDims(c, providers[0].shape).value;
      r.cost.flops == r.cost.parameters * d.h * d.w
  {
    var x, w, d := providers[0].shape, providers[1].shape, OutputDims(c, providers[0].shape).value;
    MacPerPosition(x[1], w[2], w[3], d.h, d.w, w[0]);
  }

  /** Fewer than two providers, or more than three, is a provider-count error
      and never a bail. */
  lemma NeverBails(c: Conv, providers: seq<Tensors.Tensor>)
    ensures !IsBail(Cost(c, providers))
  {
  }

  /** What `build_conv` makes. */
  datatype Layer = ConvLayer(conv: Conv) | DepthwiseLayer(depthwise: Depthwise)

  /** `build_conv`: `group` defaults to 1 and `pads` to `[0, 0, 0, 0]`; the kernel
      shape, strides and dilations must be present. A group other than 1 gives a
      depthwise convolution, 1 a plain one, with the same attributes. */
  function Build(group: Option<int>, pads: Option<seq<int>>, kernelShape: Option<seq<int>>,
                 strides: Option<seq<int>>, dilations: Option<seq<int>>): (r: Result<Layer>)
    ensures r.Ok? <==> kernelShape.Some? && strides.Some? && dilations.Some?
    ensures r.Err? ==> IsBail(r)
    ensures r.Ok? ==> (var g := if group.Some? then group.value else 1;
                       var p := if pads.Some? then pads.value else [0, 0, 0, 0];
                       r.value == if g != 1 then DepthwiseLayer(Depthwise(g, p, kernelShape, strides.value, dilations.value))
                                  else ConvLayer(Conv(g, p, kernelShape.value, strides.value, dilations.value)))
  {
    var g := if group.Some? then group.value else 1;
    var p := if pads.Some? then pads.value else [0, 0, 0, 0];
    if kernelShape.None? then Err(Bail("kernel_shape"))
    else if strides.None? then Err(Bail("strides"))
    else if dilations.None? then Err(Bail("dilations"))
    else if g != 1 then Ok(DepthwiseLayer(Depthwise(g, p, kernelShape, strides.value, dilations.value)))
    else Ok(ConvLayer(Conv(g, p, kernelShape.value, strides.value, dilations.value)))
  }

  /** A built plain convolution always has group 1, so its cost is the ungrouped one. */
  lemma BuiltConvIsUngrouped(group: Option<int>, pads: Option<seq<int>>, kernelShape: Option<seq<int>>,
                             strides: Option<seq<int>>, dilations: Option<seq<int>>)
    requires Build(group, pads, kernelShape, strides, dilations).Ok?
    ensures Build(group, pads, kernelShape, strides, dilations).value.ConvLayer?
            <==> group.None? || group.value == 1
    ensures Build(group, pads, kernelShape, strides, dilations).value.ConvLayer? ==>
            Build(group, pads, kernelShape, strides, dilations).value.conv.group == 1
  {
  }

  /** A 1x3x224x224 input and 32 3x3 filters, stride 2, dilation 1 and pads
      `[0, 0, 1, 1]`: four `[1, 32, 112, 112]` outputs, 3*3*3*112*112*32
      multiply-accumulates and 32*3*3*3 parameters. */
  lemma CostExample(x: Tensors.Tensor, w: Tensors.Tensor)
    requires x.shape == [1, 3, 224, 224] && w.shape == [32, 3, 3, 3]
    ensures var r := Cost(Conv(1, [0, 0, 1, 1], [3, 3], [2, 2], [1, 1]), [x, w]);
      r.Ok? && |r.value.outputs| == 4 && r.value.outputs[0].shape == [1, 32, 112, 112]
      && r.value.cost == OpCost(3 * 3 * 3 * 112 * 112 * 32, 32 * 3 * 3 * 3)
  {
    var c := Conv(1, [0, 0, 1, 1], [3, 3], [2, 2], [1, 1]);
    assert OutputDims(c, x.shape) == Ok(Dims(112, 112));
  }
}

/** The im2col-based convolution (crates/ir/src/ops/nn/im2col.rs): its output
    size, without dilation, and its builder. */
module CratesIm2Col {
  import opened Wrappers
  import opened Windows
  import opened CratesDepthwise

  datatype Im2Col = Im2Col(group: int, pads: seq<int>, kernelShape: Option<seq<int>>,
                           strides: seq<int>, dilations: seq<int>)

  /** `Im2Col::output_dims`: `(H + 2 pads[2] - kr) / s[0] + 1` by
      `(W + 2 pads[3] - kc) / s[1] + 1`; the dilations are not used. */
  function OutputDims(c: Im2Col, input: seq<int>): (r: Result<Dims>)
    ensures r.Ok? <==> c.kernelShape.Some? && Indexable(input, c.pads, c.kernelShape.value, c.strides)
                       && c.strides[0] != 0 && c.strides[1] != 0
    ensures r.Err? ==> IsPanic(r)
    ensures c.kernelShape.None? ==> r == Err(Panic(UNWRAP_NONE))
    ensures r.Ok? ==> r.value.h == PlainDim(input[2], c.pads[2], c.kernelShape.value[0], c.strides[0])
    ensures r.Ok? ==> r.value.w == PlainDim(input[3], c.pads[3], c.kernelShape.value[1], c.strides[1])
  {
    if c.kernelShape.None? then Err(Panic(UNWRAP_NONE))
    else if !Indexable(input, c.pads, c.kernelShape.value, c.strides) then Err(Panic(OUT_OF_BOUNDS))
    else if c.strides[0] == 0 || c.strides[1] == 0 then Err(Panic(DIV_BY_ZERO))
    else
      var k := c.kernelShape.value;
      Ok(Dims(PlainDim(input[2], c.pads[2], k[0], c.strides[0]),
              PlainDim(input[3], c.pads[3], k[1], c.strides[1])))
  }

  /** With dilation 1 the im2col size is the depthwise (dilated) size; with any
      other dilation the im2col size ignores it. */
  lemma UndilatedAgreesWithDepthwise(c: Im2Col, input: seq<int>)
    requires OutputDims(c, input).Ok? && |c.dilations| >= 2 && c.dilations[0] == 1 && c.dilations[1] == 1
    ensures CratesDepthwise.OutputDims(Depthwise(c.group, c.pads, c.kernelShape, c.strides, c.dilations), input)
            == OutputDims(c, input)
  {
    var k := c.kernelShape.value;
    PlainIsUndilated(input[2], c.pads[2], k[0], c.strides[0]);
    PlainIsUndilated(input[3], c.pads[3], k[1], c.strides[1]);
  }

  /** The output sizes of the convolution tests: a 5x5 input with a 3x3 kernel
      gives 5x5 with padding 1 and stride 1, 2x2 with no padding and stride 2,
      3x3 with padding 1 and stride 2, 4x4 with padding 2 and stride 2; a
      224x224 input with height/width pads 1 and stride 2 gives 112x112. */
  lemma TestDims()
    ensures OutputDims(Im2Col(1, [1, 1, 1, 1], Some([3, 3]), [1, 1], [1, 1]), [1, 1, 5, 5]) == Ok(Dims(5, 5))
    ensures OutputDims(Im2Col(1, [0, 0, 0, 0], Some([3, 3]), [2, 2], [1, 1]), [1, 1, 5, 5]) == Ok(Dims(2, 2))
    ensures OutputDims(Im2Col(1, [1, 1, 1, 1], Some([3, 3]), [2, 2], [1, 1]), [1, 2, 5, 5]) == Ok(Dims(3, 3))
  {
  }

  lemma TestDimsWide()
    ensures OutputDims(Im2Col(1, [2, 2, 2, 2], Some([3, 3]), [2, 2], [1, 1]), [2, 2, 5, 5]) == Ok(Dims(4, 4))
    ensures OutputDims(Im2Col(1, [0, 0, 1, 1], Some([3, 3]), [2, 2], [1, 1]), [1, 3, 224, 224]) == Ok(Dims(112, 112))
  {
  }

  /** What `build_im2col` makes. */
  datatype Layer = Im2ColLayer(im2col: Im2Col) | DepthwiseLayer(depthwise: Depthwise)

  /** `build_im2col`: `group` defaults to 1 and `pads` to `[0, 0, 0, 0]`; the kernel
      shape is optional; missing strides or dilations are an `unwrap` on `None`.
      A group other than 1 gives a depthwise convolution. */
  function Build(group: Option<int>, pads: Option<seq<int>>, kernelShape: Option<seq<int>>,
                 strides: Option<seq<int>>, dilations: Option<seq<int>>): (r: Result<Layer>)
    ensures r.Ok? <==> strides.Some? && dilations.Some?
    ensures r.Err? ==> r == Err(Panic(UNWRAP_NONE))
    ensures r.Ok? ==> (var g := if group.Some? then group.value else 1;
                       var p := if pads.Some? then pads.value else [0, 0, 0, 0];
                       r.value == if g != 1 then DepthwiseLayer(Depthwise(g, p, kernelShape, strides.value, dilations.value))
                                  else Im2ColLayer(Im2Col(g, p, kernelShape, strides.value, dilations.value)))
  {
    var g := if group.Some? then group.value else 1;
    var p := if pads.Some? then pads.value else [0, 0, 0, 0];
    if strides.None? || dilations.None? then Err(Panic(UNWRAP_NONE))
    else if g != 1 then Ok(DepthwiseLayer(Depthwise(g, p, kernelShape, strides.value, dilations.value)))
    else Ok(Im2ColLayer(Im2Col(g, p, kernelShape, strides.value, dilations.value)))
  }
}
