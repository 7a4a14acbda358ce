/** `Sum` (steelix/src/ir/ops/math/sum.rs): any number of providers broadcast
    together, one flop per input element. */
module SteelixSum {
  import opened Wrappers
  import opened Shapes
  import opened Tensors
  import opened IrCore
  import opened Broadcast

  /** The element count of every provider, added up in order
      (`fold(0, |acc, p| acc + p.numel())`). */
  function TotalNumel(providers: seq<Tensors.Tensor>): nat
  {
    if providers == [] then 0 else TotalNumel(providers[..|providers| - 1]) + Numel(providers[|providers| - 1])
  }

  /** `Sum::realize`: no check of the provider count; the shapes must broadcast
      (a panic otherwise, and for no providers); the output is a zero tensor of
      the broadcast shape and the first provider's dtype, the cost one flop per
      element of every provider. */
  function Realize(providers: seq<Tensors.Tensor>): (r: Result<RealizedOp>)
    ensures r.Ok? <==> MultiBroadcast(ShapesOf(providers)).Some?
    ensures r.Err? ==> r == Err(Panic("Sum: broadcast failed"))
    ensures r.Ok? ==> (|providers| >= 1
      && r.value.outputs == [New(providers[0].dt, MultiBroadcast(ShapesOf(providers)).value)]
      && r.value.cost == OpCost(TotalNumel(providers), 0))
  {
    var broadcasted := MultiBroadcast(ShapesOf(providers));
    if broadcasted.None? then Err(Panic("Sum: broadcast failed"))
    else Ok(RealizedOp(OpCost(TotalNumel(providers), 0), [New(providers[0].dt, broadcasted.value)]))
  }

  /** The total counts each provider: it is at least the element count of any
      one of them, and `k` providers of `n` elements each make `k * n`. */
  lemma {:induction false} TotalNumelBounds(providers: seq<Tensors.Tensor>, n: nat)
    ensures forall i :: 0 <= i < |providers| ==> Numel(providers[i]) <= TotalNumel(providers)
    ensures (forall i :: 0 <= i < |providers| ==> Numel(providers[i]) == n) ==> TotalNumel(providers) == |providers| * n
  {
    if providers != [] {
      var init := providers[..|providers| - 1];
      TotalNumelBounds(init, n);
      assert forall i :: 0 <= i < |init| ==> init[i] == providers[i];
    }
  }

  /** Summing a single tensor gives its own shape and costs its element count. */
  lemma SingleProvider(x: Tensors.Tensor)
    ensures Realize([x]).Ok?
    ensures Realize([x]).value.outputs[0].shape == x.shape
    ensures Realize([x]).value.cost.flops == Numel(x)
  {
    assert ShapesOf([x]) == [x.shape];
    BroadcastSingle(x.shape);
    assert [x][..0] == [];
    assert TotalNumel([x]) == TotalNumel([]) + Numel(x);
  }
}

/** `Sum` (crates/ir/src/ops/math/sum.rs): the same shape rule, with no cost. */
module CratesSum {
  import opened Wrappers
  import opened Shapes
  import opened Tensors
  import opened IrCore
  import opened Broadcast
  import SteelixSum

  /** `Sum::realize`: the shapes must broadcast (`unwrap` panics otherwise);
      the output is a zero tensor of the broadcast shape and the first
      provider's dtype; flops and parameters are both 0. */
  function Realize(providers: seq<Tensors.Tensor>): (r: Result<RealizedOp>)
    ensures r.Ok? <==> MultiBroadcast(ShapesOf(providers)).Some?
    ensures r.Err? ==> r.fault.Panic?
    ensures r.Ok? ==> (|providers| >= 1
      && r.value.outputs == [New(providers[0].dt, MultiBroadcast(ShapesOf(providers)).value)]
      && r.value.cost == ZeroCost)
  {
    var broadcasted := MultiBroadcast(ShapesOf(providers));
    if broadcasted.None? then Err(Panic(UNWRAP_NONE))
    else Ok(RealizedOp(OpCost(0, 0), [New(providers[0].dt, broadcasted.value)]))
  }

  /** The two trees agree on when `Sum` succeeds and on its output; only the
      cost differs. */
  lemma AgreesWithSteelix(providers: seq<Tensors.Tensor>)
    ensures Realize(providers).Ok? <==> SteelixSum.Realize(providers).Ok?
    ensures Realize(providers).Ok? ==> Realize(providers).value.outputs == SteelixSum.Realize(providers).value.outputs
  {
  }
}
