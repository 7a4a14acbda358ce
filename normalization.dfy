/** `BatchNormalization` (steelix/src/ir/ops/nn/batch_norm.rs): the input and
    its four parameter tensors in, the input out. */
module SteelixBatchNorm {
  import opened Wrappers
  import opened Tensors
  import opened IrCore

  const NAME: string := "BatchNormalization"
  const GROUP: OpGroup := Normalization

  /** `BatchNormalization::realize`: exactly five providers (the input, scale,
      bias, mean and variance); the output is the input itself and the cost
      one flop per input element. */
  function Realize(providers: seq<Tensors.Tensor>): (r: Result<RealizedOp>)
    ensures r.Ok? <==> |providers| == 5
    ensures r.Err? ==> r.fault == ProviderCount(5, 5, |providers|, NAME)
    ensures r.Ok? ==> r.value.outputs == [providers[0]] && r.value.cost == UnaryOpFlops(providers[0], 1)
  {
    var _ :- ValidateProviders(|providers|, 5, 5, NAME);
    Ok(RealizedOp(OpCost(Numel(providers[0]), 0), [providers[0]]))
  }

  /** The four parameter tensors change nothing: the result depends on the
      input alone. */
  lemma ParametersIgnored(p: seq<Tensors.Tensor>, q: seq<Tensors.Tensor>)
    requires |p| == |q| == 5 && p[0] == q[0]
    ensures Realize(p) == Realize(q)
  {
  }
}

/** `LRN` (crates/ir/src/ops/nn/lrn.rs): four multiply-accumulates per element
    and the input listed four times. */
module CratesLrn {
  import opened Wrappers
  import opened Tensors
  import opened IrCore

  const NAME: string := "LRN"
  const GROUP: OpGroup := Normalization

  /** `LRN::realize`: exactly one provider; four copies of it out, at
      `4 * numel` multiply-accumulates. */
  function Realize(providers: seq<Tensors.Tensor>): (r: Result<RealizedOp>)
    ensures r.Ok? <==> |providers| == 1
    ensures r.Err? ==> r.fault == ProviderCount(1, 1, |providers|, NAME)
    ensures r.Ok? ==> r.value.outputs == [providers[0], providers[0], providers[0], providers[0]]
                      && r.value.cost == OpCost(Numel(providers[0]) * 4, 0)
  {
    var _ :- ValidateProviders(|providers|, 1, 1, NAME);
    Ok(RealizedOp(OpCost(Numel(providers[0]) * 4, 0), [providers[0], providers[0], providers[0], providers[0]]))
  }
}

/** `LRN` (steelix/src/ir/ops/nn/lrn.rs): one flop per element and the input
    passed through. */
module SteelixLrn {
  import opened Wrappers
  import opened Tensors
  import opened IrCore
  import CratesLrn

  const NAME: string := "LRN"
  const GROUP: OpGroup := Normalization

  /** `LRN::realize`: exactly one provider, passed through as the only
      output, at one flop per element. */
  function Realize(providers: seq<Tensors.Tensor>): (r: Result<RealizedOp>)
    ensures r.Ok? <==> |providers| == 1
    ensures r.Err? ==> r.fault == ProviderCount(1, 1, |providers|, NAME)
    ensures r.Ok? ==> r.value.outputs == providers && r.value.cost == UnaryOpFlops(providers[0], 1)
  {
    var _ :- ValidateProviders(|providers|, 1, 1, NAME);
    Ok(RealizedOp(OpCost(Numel(providers[0]), 0), [providers[0]]))
  }

  /** The two trees accept the same providers and fail the same way; the
      crates version counts four times the cost and lists the same output four
      times. */
  lemma TreesDiffer(providers: seq<Tensors.Tensor>)
    ensures Realize(providers).Ok? <==> CratesLrn.Realize(providers).Ok?
    ensures Realize(providers).Err? ==> Realize(providers) == CratesLrn.Realize(providers)
    ensures Realize(providers).Ok? ==>
      var s, c := Realize(providers).value, CratesLrn.Realize(providers).value;
      c.cost.flops == 4 * s.cost.flops && c.cost.parameters == s.cost.parameters
      && |c.outputs| == 4 && forall i :: 0 <= i < 4 ==> c.outputs[i] == s.outputs[0]
  {
  }
}
