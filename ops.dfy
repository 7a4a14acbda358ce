/** The op a graph node holds, and the dynamic dispatch of `Op::name`,
    `Op::op_group` and `Op::realize` through `Box<dyn Op>` (crates/ir/src/model.rs
    and steelix/src/ir/model.rs both forward every call to the boxed op). Each
    variant is one kernel of one of the two source trees. */
module Ops {
  import opened Wrappers
  import opened Tensors
  import opened IrCore
  import Matmul
  import CratesGemm
  import SteelixGemm
  import SteelixAdd
  import CratesAdd
  import SteelixSum
  import CratesSum
  import CratesConv
  import SteelixMaxPool
  import CratesAvgPool
  import SteelixGlobalAvgPool
  import SteelixBatchNorm
  import CratesLrn
  import SteelixLrn
  import CratesSoftmax
  import SrcClip
  import CratesDropout
  import SteelixDropout
  import SteelixReshape
  import SteelixTranspose
  import CratesTranspose
  import SteelixSqueeze
  import CratesUnsqueeze
  import CratesGather
  import SteelixGather
  import SteelixShapeOp
  import SteelixConcat
  import CratesConcat
  import SteelixConstant
  import CratesConstant
  import SteelixInitial
  import SteelixUnimplemented

  datatype Op =
    | ElementwiseOp(e: Elementwise)
    | MatmulOp
    | CratesGemmOp
    | SteelixGemmOp
    | SteelixAddOp
    | CratesAddOp
    | SteelixSumOp
    | CratesSumOp
    | ConvOp(conv: CratesConv.Conv)
    | MaxPoolOp(maxPool: SteelixMaxPool.MaxPool)
    | AvgPoolOp(avgPool: CratesAvgPool.AvgPool)
    | GlobalAvgPoolOp
    | BatchNormOp
    | CratesLrnOp
    | SteelixLrnOp
    | SoftmaxOp(softmax: CratesSoftmax.Softmax)
    | ClipOp(clip: SrcClip.Clip)
    | CratesDropoutOp
    | SteelixDropoutOp
    | ReshapeOp
    | SteelixTransposeOp(transpose: SteelixTranspose.Transpose)
    | CratesTransposeOp(transpose: SteelixTranspose.Transpose)
    | SqueezeOp(squeeze: SteelixSqueeze.Squeeze)
    | UnsqueezeOp(unsqueeze: CratesUnsqueeze.Unsqueeze)
    | CratesGatherOp(cratesGather: CratesGather.Gather)
    | SteelixGatherOp(steelixGather: SteelixGather.Gather)
    | ShapeOp(shape: SteelixShapeOp.ShapeOp)
    | SteelixConcatOp(concat: SteelixConcat.Concat)
    | CratesConcatOp(concat: SteelixConcat.Concat)
    | SteelixConstantOp(steelixConstant: SteelixConstant.Constant)
    | CratesConstantOp(cratesConstant: CratesConstant.Constant)
    | InitialOp(initial: SteelixInitial.Initial)
    | UnimplementedOp(unimplemented: SteelixUnimplemented.Unimplemented)

  /** `Op::name` of each kernel. */
  function Name(op: Op): string
  {
    match op
    case ElementwiseOp(e) => ElementwiseName(e)
    case MatmulOp => "Matmul"
    case CratesGemmOp => "Gemm"
    case SteelixGemmOp => "Gemm"
    case SteelixAddOp => "Add"
    case CratesAddOp => "Add"
    case SteelixSumOp => "Sum"
    case CratesSumOp => "Sum"
    case ConvOp(_) => "Conv"
    case MaxPoolOp(_) => "MaxPool"
    case AvgPoolOp(_) => "AveragePool"
    case GlobalAvgPoolOp => "GlobalAveragePool"
    case BatchNormOp => SteelixBatchNorm.NAME
    case CratesLrnOp => CratesLrn.NAME
    case SteelixLrnOp => SteelixLrn.NAME
    case SoftmaxOp(_) => CratesSoftmax.NAME
    case ClipOp(_) => SrcClip.NAME
    case CratesDropoutOp => CratesDropout.NAME
    case SteelixDropoutOp => SteelixDropout.NAME
    case ReshapeOp => SteelixReshape.NAME
    case SteelixTransposeOp(_) => SteelixTranspose.NAME
    case CratesTransposeOp(_) => CratesTranspose.NAME
    case SqueezeOp(_) => SteelixSqueeze.NAME
    case UnsqueezeOp(_) => CratesUnsqueeze.NAME
    case CratesGatherOp(_) => CratesGather.NAME
    case SteelixGatherOp(_) => SteelixGather.NAME
    case ShapeOp(_) => SteelixShapeOp.NAME
    case SteelixConcatOp(_) => SteelixConcat.NAME
    case CratesConcatOp(_) => CratesConcat.NAME
    case SteelixConstantOp(_) => SteelixConstant.NAME
    case CratesConstantOp(_) => CratesConstant.NAME
    case InitialOp(_) => SteelixInitial.NAME
    case UnimplementedOp(u) => SteelixUnimplemented.Name(u)
  }

  /** `Op::op_group` of each kernel. */
  function Group(op: Op): OpGroup
  {
    match op
    case ElementwiseOp(e) => ElementwiseGroup(e)
    case MatmulOp => Transform
    case CratesGemmOp => Transform
    case SteelixGemmOp => Transform
    case SteelixAddOp => OpGroup.Tensor
    case CratesAddOp => OpGroup.Tensor
    case SteelixSumOp => Transform
    case CratesSumOp => Transform
    case ConvOp(_) => Layer
    case MaxPoolOp(_) => Pool
    case AvgPoolOp(_) => Pool
    case GlobalAvgPoolOp => Pool
    case BatchNormOp => SteelixBatchNorm.GROUP
    case CratesLrnOp => CratesLrn.GROUP
    case SteelixLrnOp => SteelixLrn.GROUP
    case SoftmaxOp(_) => CratesSoftmax.GROUP
    case ClipOp(_) => SrcClip.GROUP
    case CratesDropoutOp => CratesDropout.GROUP
    case SteelixDropoutOp => SteelixDropout.GROUP
    case ReshapeOp => SteelixReshape.GROUP
    case SteelixTransposeOp(_) => SteelixTranspose.GROUP
    case CratesTransposeOp(_) => CratesTranspose.GROUP
    case SqueezeOp(_) => SteelixSqueeze.GROUP
    case UnsqueezeOp(_) => CratesUnsqueeze.GROUP
    case CratesGatherOp(_) => CratesGather.GROUP
    case SteelixGatherOp(_) => SteelixGather.GROUP
    case ShapeOp(_) => SteelixShapeOp.GROUP
    case SteelixConcatOp(_) => SteelixConcat.GROUP
    case CratesConcatOp(_) => CratesConcat.GROUP
    case SteelixConstantOp(_) => SteelixConstant.GROUP
    case CratesConstantOp(_) => CratesConstant.GROUP
    case InitialOp(_) => SteelixInitial.GROUP
    case UnimplementedOp(_) => SteelixUnimplemented.GROUP
  }

  /** The message for a provider whose byte buffer does not hold the elements its
      shape and dtype call for: reading them would run past the buffer. */
  const MALFORMED: string := "tensor buffer shorter than its element count"

  /** The message for an axes or indices tensor read as `i64` values although it
      holds fewer than 8 bytes per element (a valid tensor of a narrower dtype):
      `as_slice` and `to_array_view` take the element type from the caller, not
      from the tensor, and read past the end of the buffer. */
  const I64_OVERREAD: string := "i64 read past the end of a narrower buffer"

  /** The message for a dimension outside the `usize` range, which a Rust
      `Shape` cannot hold. */
  const WIDE_DIM: string := "dimension outside the usize range"

  /** `Op::realize` of each kernel. The kernels that read element data need the
      buffer to hold the elements; when it does not, the outcome is not modelled. */
  function Realize(op: Op, providers: seq<Tensors.Tensor>): Result<RealizedOp>
  {
    match op
    case ElementwiseOp(e) => RealizeElementwise(e, providers)
    case MatmulOp => Matmul.Realize(providers)
    case CratesGemmOp => CratesGemm.Realize(providers)
    case SteelixGemmOp => SteelixGemm.Realize(providers)
    case SteelixAddOp => SteelixAdd.Realize(providers)
    case CratesAddOp => CratesAdd.Realize(providers)
    case SteelixSumOp => SteelixSum.Realize(providers)
    case CratesSumOp => CratesSum.Realize(providers)
    case ConvOp(c) => CratesConv.Cost(c, providers)
    case MaxPoolOp(p) => SteelixMaxPool.Realize(p, providers)
    case AvgPoolOp(p) => CratesAvgPool.Realize(p, providers)
    case GlobalAvgPoolOp => SteelixGlobalAvgPool.Realize(providers)
    case BatchNormOp => SteelixBatchNorm.Realize(providers)
    case CratesLrnOp => CratesLrn.Realize(providers)
    case SteelixLrnOp => SteelixLrn.Realize(providers)
    case SoftmaxOp(s) => CratesSoftmax.Realize(s, providers)
    case ClipOp(c) => SrcClip.Realize(c, providers)
    case CratesDropoutOp => CratesDropout.Realize(providers)
    case SteelixDropoutOp => SteelixDropout.Realize(providers)
    case ReshapeOp =>
      if |providers| == 2 && !Readable(providers[1]) then Err(NotModelled(MALFORMED))
      else SteelixReshape.Realize(providers)
    case SteelixTransposeOp(t) => SteelixTranspose.Realize(t, providers)
    case CratesTransposeOp(t) => CratesTranspose.Realize(t, providers)
    case SqueezeOp(s) => SteelixSqueeze.Realize(s, providers)
    case UnsqueezeOp(u) =>
      if u.axes.None? && |providers| == 2 && providers[1].len * SizeOf(I64) > |providers[1].data| then
        Err(NotModelled(I64_OVERREAD))
      else CratesUnsqueeze.Realize(u, providers)
    case CratesGatherOp(g) => CratesGather.Realize(g, providers)
    case SteelixGatherOp(g) =>
      if |providers| >= 2 && !Valid(providers[0]) then Err(NotModelled(MALFORMED))
      else if |providers| >= 2 && !SteelixGather.IndicesReadable(providers[1]) then Err(NotModelled(I64_OVERREAD))
      else SteelixGather.Realize(g, providers)
    case ShapeOp(s) =>
      if |providers| == 1 && !SteelixShapeOp.UsizeDims(providers[0].shape) then Err(NotModelled(WIDE_DIM))
      else SteelixShapeOp.Realize(s, providers)
    case SteelixConcatOp(c) => SteelixConcat.Realize(c, providers)
    case CratesConcatOp(c) => CratesConcat.Realize(c, providers)
    case SteelixConstantOp(c) => SteelixConstant.Realize(c, providers)
    case CratesConstantOp(c) => CratesConstant.Realize(c, providers)
    case InitialOp(i) => SteelixInitial.Realize(i, providers)
    case UnimplementedOp(u) => SteelixUnimplemented.Realize(u, providers)
  }

  // ---------------------------------------------------------------------------
  // Properties shared by groups of kernels

  /** Every op of the Shape group only computes a shape: realizing it costs no
      flops and no parameters. */
  lemma ShapeOpsCostNothing(op: Op, providers: seq<Tensors.Tensor>)
    requires Group(op) == OpGroup.Shape && Realize(op, providers).Ok?
    ensures Realize(op, providers).value.cost == ZeroCost
  {
  }

  /** The data ops never fail, whatever the providers, and never count flops. */
  lemma DataOpsNeverFail(op: Op, providers: seq<Tensors.Tensor>)
    requires Group(op) in {OpGroup.Constant, Data, OpGroup.Unimplemented}
    ensures Realize(op, providers).Ok? && Realize(op, providers).value.cost.flops == 0
  {
  }
}
