/** The operator interface shared by every kernel (steelix/src/ir/mod.rs): op
    groups, costs, the result of realizing an op, the provider-count check and
    the elementwise ops defined by the `elementwise!` macro. */
module IrCore {
  import opened Wrappers
  import opened Shapes
  import opened Tensors

  /** `OpGroup` (identical in both trees); the colour maps beside it are display only. */
  datatype OpGroup =
    | Activation | Constant | Data | Dropout | Layer | Logic
    | Normalization | Pool | Shape | Tensor | Transform | Unimplemented

  /** `OpCost`: floating-point operations and parameters of one realized op. */
  datatype OpCost = OpCost(flops: nat, parameters: nat)

  /** `OpCost::zero_cost`, the derived default. */
  const ZeroCost: OpCost := OpCost(0, 0)

  /** `OpCost::unary_op_flops`: `flops_per_elem` operations per element of `input`. */
  function UnaryOpFlops(input: Tensors.Tensor, flopsPerElem: nat): (c: OpCost)
    ensures c.parameters == 0
    ensures c.flops == Numel(input) * flopsPerElem
  {
    OpCost(Numel(input) * flopsPerElem, 0)
  }

  /** An op's cost adds up over its elements: the cost of `a + b` operations per
      element is the sum of the costs of `a` and of `b`. */
  lemma UnaryOpFlopsAdds(input: Tensors.Tensor, a: nat, b: nat)
    ensures UnaryOpFlops(input, a + b).flops == UnaryOpFlops(input, a).flops + UnaryOpFlops(input, b).flops
    ensures UnaryOpFlops(input, 0) == ZeroCost
  {
  }

  /** `RealizedOp`: the cost of an op and the tensors it outputs. */
  datatype RealizedOp = RealizedOp(cost: OpCost, outputs: seq<Tensors.Tensor>)

  /** `RealizedOp::zero_cost`. */
  function RealizedZeroCost(outputs: seq<Tensors.Tensor>): (r: RealizedOp)
    ensures r.cost == ZeroCost && r.outputs == outputs
  {
    RealizedOp(ZeroCost, outputs)
  }

  /** Every output can be read through its typed view. */
  predicate ReadableOutputs(r: RealizedOp)
  {
    forall i :: 0 <= i < |r.outputs| ==> Readable(r.outputs[i])
  }

  /** `impl PartialEq for RealizedOp`: equal costs and equal output lists, the
      outputs compared with the tensors' own equality. */
  predicate RealizedEq(a: RealizedOp, b: RealizedOp)
    requires ReadableOutputs(a) && ReadableOutputs(b)
  {
    a.cost == b.cost && |a.outputs| == |b.outputs|
    && forall i :: 0 <= i < |a.outputs| ==> TensorEq(a.outputs[i], b.outputs[i])
  }

  /** On valid outputs the equality is exactly equality of the values. */
  lemma RealizedEqIsEquality(a: RealizedOp, b: RealizedOp)
    requires forall i :: 0 <= i < |a.outputs| ==> Valid(a.outputs[i])
    requires forall i :: 0 <= i < |b.outputs| ==> Valid(b.outputs[i])
    ensures ReadableOutputs(a) && ReadableOutputs(b)
    ensures RealizedEq(a, b) <==> a == b
  {
    assert ReadableOutputs(a) && ReadableOutputs(b);
    if RealizedEq(a, b) {
      forall i | 0 <= i < |a.outputs|
        ensures a.outputs[i] == b.outputs[i]
      {
        TensorEqIsEquality(a.outputs[i], b.outputs[i]);
      }
      assert a.outputs == b.outputs;
    } else if a == b {
      forall i | 0 <= i < |a.outputs|
        ensures TensorEq(a.outputs[i], b.outputs[i])
      {
        TensorEqIsEquality(a.outputs[i], b.outputs[i]);
      }
    }
  }

  /** `validate_providers`: an error naming the bounds, the count and the op when
      the count is outside `lower..=upper`. */
  function ValidateProviders(count: nat, lower: nat, upper: nat, name: string): (r: Result<()>)
    ensures r.Ok? <==> lower <= count <= upper
    ensures r.Err? ==> r.fault == ProviderCount(lower, upper, count, name)
  {
    if count > upper || count < lower then Err(ProviderCount(lower, upper, count, name))
    else Ok(())
  }

  /** The providers' shapes, in order (`providers.iter().map(|p| p.shape.clone())`). */
  function ShapesOf(providers: seq<Tensors.Tensor>): (s: seq<Shape>)
    ensures |s| == |providers| && forall i :: 0 <= i < |providers| ==> s[i] == providers[i].shape
  {
    if providers == [] then [] else [providers[0].shape] + ShapesOf(providers[1..])
  }

  /** Bounds with `lower > upper` reject every count. */
  lemma EmptyBoundsRejectAll(count: nat, lower: nat, upper: nat, name: string)
    requires upper < lower
    ensures ValidateProviders(count, lower, upper, name).Err?
  {
  }

  // ---------------------------------------------------------------------------
  // Elementwise ops

  /** The ops declared with `elementwise!`. */
  datatype Elementwise = Abs | Erf | Sigmoid | LeakyRelu | Relu | Not | Elu

  /** The flop count per element each declaration gives. */
  function FlopFactor(op: Elementwise): nat
  {
    match op
    case Abs => 1
    case Erf => 2
    case Sigmoid => 4
    case LeakyRelu => 2
    case Relu => 1
    case Not => 1
    case Elu => 1
  }

  function ElementwiseGroup(op: Elementwise): OpGroup
  {
    match op
    case Abs | Erf | Sigmoid | Not => Logic
    case LeakyRelu | Relu | Elu => Activation
  }

  /** `stringify!($Op)`: the type's own identifier. */
  function ElementwiseName(op: Elementwise): string
  {
    match op
    case Abs => "Abs"
    case Erf => "Erf"
    case Sigmoid => "Sigmoid"
    case LeakyRelu => "LeakyRelu"
    case Relu => "Relu"
    case Not => "Not"
    case Elu => "Elu"
  }

  /** The `realize` the macro generates: exactly one provider, passed through as
      the only output, costing `numel * flop` flops. */
  function RealizeElementwise(op: Elementwise, providers: seq<Tensors.Tensor>): (r: Result<RealizedOp>)
    ensures r.Ok? <==> |providers| == 1
    ensures r.Err? ==> r.fault == ProviderCount(1, 1, |providers|, ElementwiseName(op))
    ensures r.Ok? ==> r.value.outputs == providers
    ensures r.Ok? ==> r.value.cost == OpCost(Numel(providers[0]) * FlopFactor(op), 0)
  {
    var _ :- ValidateProviders(|providers|, 1, 1, ElementwiseName(op));
    Ok(RealizedOp(UnaryOpFlops(providers[0], FlopFactor(op)), [providers[0]]))
  }

  /** The Logic group is exactly Abs, Erf, Sigmoid and Not; every other
      elementwise op is an activation. The flop factors lie between 1 and 4. */
  lemma ElementwiseGroups(op: Elementwise)
    ensures ElementwiseGroup(op) == Logic <==> op in {Abs, Erf, Sigmoid, Not}
    ensures ElementwiseGroup(op) == Activation <==> op in {LeakyRelu, Relu, Elu}
    ensures 1 <= FlopFactor(op) <= 4
  {
  }

  /** Different ops have different names, so counting ops by name counts them by kind. */
  lemma ElementwiseNamesDistinct(a: Elementwise, b: Elementwise)
    ensures ElementwiseName(a) == ElementwiseName(b) <==> a == b
  {
  }
}
