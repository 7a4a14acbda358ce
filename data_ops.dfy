/** `Constant` (steelix/src/ir/ops/data/constant.rs): a stored tensor, counted
    as parameters. */
module SteelixConstant {
  import opened Wrappers
  import opened Tensors
  import opened IrCore

  const NAME: string := "Constant"
  const GROUP: OpGroup := OpGroup.Constant

  datatype Constant = Constant(value: Tensors.Tensor)

  /** `build_constant`: the given tensor, unchanged. */
  function Build(t: Tensors.Tensor): (c: Constant)
    ensures c.value == t
  {
    Constant.Constant(t)
  }

  /** `Constant::realize`: the providers are ignored; the stored tensor is the
      only output, and each of its elements is a parameter. */
  function Realize(c: Constant, providers: seq<Tensors.Tensor>): (r: Result<RealizedOp>)
    ensures r.Ok? && r.value.outputs == [c.value]
    ensures r.value.cost.flops == 0 && r.value.cost.parameters == Numel(c.value)
  {
    Ok(RealizedOp(OpCost(0, Numel(c.value)), [c.value]))
  }

  /** The providers make no difference. */
  lemma ProvidersIgnored(c: Constant, p: seq<Tensors.Tensor>, q: seq<Tensors.Tensor>)
    ensures Realize(c, p) == Realize(c, q)
  {
  }
}

/** `Constant` (crates/ir/src/ops/misc/constant.rs): a stored tensor, free. */
module CratesConstant {
  import opened Wrappers
  import opened Tensors
  import opened IrCore
  import SteelixConstant

  const NAME: string := "Constant"
  const GROUP: OpGroup := OpGroup.Constant

  datatype Constant = Constant(value: Tensors.Tensor)

  /** `build_constant`: the given tensor, unchanged. */
  function Build(t: Tensors.Tensor): (c: Constant)
    ensures c.value == t
  {
    Constant.Constant(t)
  }

  /** `Constant::realize`: the providers are ignored; the stored tensor is the
      only output, at no cost. */
  function Realize(c: Constant, providers: seq<Tensors.Tensor>): (r: Result<RealizedOp>)
    ensures r.Ok? && r.value == RealizedZeroCost([c.value])
  {
    Ok(RealizedOp(OpCost(0, 0), [c.value]))
  }

  /** The trees output the same tensor; only the steelix one counts its
      elements as parameters. */
  lemma TreesDiffer(t: Tensors.Tensor, providers: seq<Tensors.Tensor>)
    ensures var s, c := SteelixConstant.Realize(SteelixConstant.Build(t), providers),
                        Realize(Build(t), providers);
      s.value.outputs == c.value.outputs && s.value.cost.flops == c.value.cost.flops
      && s.value.cost.parameters == c.value.cost.parameters + Numel(t)
  {
  }
}

/** `Initial` (steelix/src/ir/ops/data/initial.rs): a graph input, held as a
    zero tensor of its declared dimensions. */
module SteelixInitial {
  import opened Wrappers
  import opened Shapes
  import opened Tensors
  import opened IrCore

  const NAME: string := "Initial"
  const GROUP: OpGroup := Data

  datatype Initial = Initial(value: Tensors.Tensor)

  /** `build_initial`: an F32 zero tensor of the value info's dimensions,
      whatever dtype the value info declares. */
  function Build(dims: Shape): (i: Initial)
    ensures i.value == New(F32, dims)
  {
    Initial(New(F32, dims))
  }

  /** `Initial::realize`: the providers are ignored; the stored tensor is the
      only output, at no cost. */
  function Realize(i: Initial, providers: seq<Tensors.Tensor>): (r: Result<RealizedOp>)
    ensures r.Ok? && r.value == RealizedZeroCost([i.value])
  {
    Ok(RealizedZeroCost([i.value]))
  }

  /** A built input outputs a valid all-zero F32 tensor of the declared shape,
      four bytes per element. */
  lemma BuiltInputIsZero(dims: Shape, providers: seq<Tensors.Tensor>)
    ensures var t := Realize(Build(dims), providers).value.outputs[0];
      Valid(t) && t.dt == F32 && t.shape == dims && |t.data| == 4 * Product(dims)
      && forall k :: 0 <= k < |t.data| ==> t.data[k] == 0
  {
  }
}

/** `Unimplemented` (steelix/src/ir/ops/data/unimplemented.rs): a node of an
    operator type the tool does not know. */
module SteelixUnimplemented {
  import opened Wrappers
  import opened Tensors
  import opened IrCore

  const GROUP: OpGroup := OpGroup.Unimplemented

  datatype Unimplemented = Unimplemented(opType: string)

  /** `build_unimplemented`: records the node's operator type; it never fails
      (the message it prints is left out). */
  function Build(opType: string): (u: Unimplemented)
    ensures u.opType == opType
  {
    Unimplemented.Unimplemented(opType)
  }

  /** `Unimplemented::name`: the recorded operator type. */
  function Name(u: Unimplemented): string
  {
    u.opType
  }

  /** `Unimplemented::realize`: `RealizedOp::default()`, whatever the
      providers: no cost and no outputs. */
  function Realize(u: Unimplemented, providers: seq<Tensors.Tensor>): (r: Result<RealizedOp>)
    ensures r.Ok? && r.value.cost == ZeroCost && r.value.outputs == []
  {
    Ok(RealizedZeroCost([]))
  }

  /** The name is the type the node was built with, for every type. */
  lemma NameIsOpType(opType: string, providers: seq<Tensors.Tensor>)
    ensures Name(Build(opType)) == opType
    ensures Realize(Build(opType), providers) == Realize(Build(opType), [])
  {
  }
}
