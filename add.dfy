/** `Add` (steelix/src/ir/ops/binary/add.rs): two providers broadcast together. */
module SteelixAdd {
  import opened Wrappers
  import opened Shapes
  import opened Tensors
  import opened IrCore
  import opened Broadcast

  /** `Add::realize`: exactly two providers whose shapes broadcast (a panic
      otherwise); the output is a zero tensor of the broadcast shape and the
      first provider's dtype, and the cost is one flop per element of the
      first provider. */
  function Realize(providers: seq<Tensors.Tensor>): (r: Result<RealizedOp>)
    ensures r.Ok? <==> |providers| == 2 && MultiBroadcast([providers[0].shape, providers[1].shape]).Some?
    ensures |providers| != 2 ==> r == Err(ProviderCount(2, 2, |providers|, "Add"))
    ensures |providers| == 2 && r.Err? ==> r.fault.Panic?
    ensures r.Ok? ==>
      r.value.outputs == [New(providers[0].dt, MultiBroadcast([providers[0].shape, providers[1].shape]).value)]
      && r.value.cost == OpCost(Numel(providers[0]), 0)
  {
    var _ :- ValidateProviders(|providers|, 2, 2, "Add");
    assert ShapesOf(providers) == [providers[0].shape, providers[1].shape];
    var broadcasted := MultiBroadcast(ShapesOf(providers));
    if broadcasted.None? then Err(Panic("Failed to broadcast shapes in Add"))
    else Ok(RealizedOp(OpCost(Numel(providers[0]), 0), [New(providers[0].dt, broadcasted.value)]))
  }

  /** Exchanging the operands changes neither whether `realize` succeeds nor
      the output shape; only the cost, which counts the first operand. */
  lemma OperandsCommute(x: Tensors.Tensor, y: Tensors.Tensor)
    ensures Realize([x, y]).Ok? <==> Realize([y, x]).Ok?
    ensures Realize([x, y]).Ok? ==>
      Realize([x, y]).value.outputs[0].shape == Realize([y, x]).value.outputs[0].shape
  {
    BroadcastSymmetric(x.shape, y.shape);
  }

  /** The cost counts the first operand, not the output: adding a `[1]` tensor
      to an `[n]` one costs 1 flop however large `n` is. */
  lemma CostCountsFirstOperand(x: Tensors.Tensor, y: Tensors.Tensor, n: nat)
    requires x.shape == [1] && y.shape == [n]
    ensures Realize([x, y]).Ok?
    ensures Realize([x, y]).value.outputs[0].shape == [n]
    ensures Realize([x, y]).value.cost.flops == 1
  {
    BroadcastPairFromDims([1], [n], [n]);
    assert Product([1]) == 1 * Product([]);
  }
}

/** `Add` (crates/ir/src/ops/binary/add.rs): every provider broadcast together,
    with only the first two dimensions of the result kept. */
module CratesAdd {
  import opened Wrappers
  import opened Shapes
  import opened Tensors
  import opened IrCore
  import opened Broadcast

  /** `Add::realize`: no check of the provider count; the shapes must broadcast
      (`unwrap` panics otherwise, as it does for no providers) to a shape of rank
      at least 2, of which the output keeps `[bc[0], bc[1]]`. The cost is one
      flop per element of the first provider. */
  function Realize(providers: seq<Tensors.Tensor>): (r: Result<RealizedOp>)
    ensures r.Ok? <==> MultiBroadcast(ShapesOf(providers)).Some? && |MultiBroadcast(ShapesOf(providers)).value| >= 2
    ensures r.Err? ==> r.fault.Panic?
    ensures r.Ok? ==> (|providers| >= 1
      && r.value.outputs == [New(providers[0].dt, MultiBroadcast(ShapesOf(providers)).value[..2])]
      && r.value.cost == OpCost(Numel(providers[0]), 0))
  {
    var broadcasted := MultiBroadcast(ShapesOf(providers));
    if broadcasted.None? then Err(Panic(UNWRAP_NONE))
    else
      var bc := broadcasted.value;
      if |bc| < 2 then Err(Panic(OUT_OF_BOUNDS))
      else
        var outputShape := [bc[0], bc[1]];
        assert outputShape == bc[..2];
        Ok(RealizedOp(OpCost(Numel(providers[0]), 0), [New(providers[0].dt, outputShape)]))
  }

  /** Adding two tensors of the same shape of rank 3 or more drops every
      dimension after the second: `[2, 3, 4] + [2, 3, 4]` gives `[2, 3]`. */
  lemma KeepsFirstTwo(x: Tensors.Tensor, y: Tensors.Tensor)
    requires x.shape == y.shape && |x.shape| >= 2
    ensures Realize([x, y]).Ok?
    ensures Realize([x, y]).value.outputs[0].shape == x.shape[..2]
  {
    assert ShapesOf([x, y]) == [x.shape, x.shape];
    BroadcastPairFromDims(x.shape, x.shape, x.shape);
  }

  /** A single provider, or none, is accepted or rejected by its broadcast
      alone: there is no provider-count error. */
  lemma NoProviders()
    ensures Realize([]).Err? && Realize([]).fault.Panic?
  {
  }
}
