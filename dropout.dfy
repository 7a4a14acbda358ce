/** `Dropout` (crates/ir/src/ops/nn/dropout.rs): a fresh zero tensor shaped
    like the input. */
module CratesDropout {
  import opened Wrappers
  import opened Tensors
  import opened IrCore

  const NAME: string := "Dropout"
  const GROUP: OpGroup := Layer

  /** `Dropout::realize`: one or two providers (the input and an optional
      ratio); a zero tensor of the input's dtype and shape out, at no cost. */
  function Realize(providers: seq<Tensors.Tensor>): (r: Result<RealizedOp>)
    ensures r.Ok? <==> 1 <= |providers| <= 2
    ensures r.Err? ==> r.fault == ProviderCount(1, 2, |providers|, NAME)
    ensures r.Ok? ==> r.value.outputs == [New(providers[0].dt, providers[0].shape)] && r.value.cost == ZeroCost
  {
    var _ :- ValidateProviders(|providers|, 1, 2, NAME);
    Ok(RealizedOp(ZeroCost, [New(providers[0].dt, providers[0].shape)]))
  }
}

/** `Dropout` (steelix/src/ir/ops/nn/dropout.rs): the input passed through. */
module SteelixDropout {
  import opened Wrappers
  import opened Tensors
  import opened IrCore
  import CratesDropout

  const NAME: string := "Dropout"
  const GROUP: OpGroup := Layer

  /** `Dropout::realize`: one or two providers; the first is the only output,
      at no cost. */
  function Realize(providers: seq<Tensors.Tensor>): (r: Result<RealizedOp>)
    ensures r.Ok? <==> 1 <= |providers| <= 2
    ensures r.Err? ==> r.fault == ProviderCount(1, 2, |providers|, NAME)
    ensures r.Ok? ==> r.value == RealizedZeroCost([providers[0]])
  {
    var _ :- ValidateProviders(|providers|, 1, 2, NAME);
    Ok(RealizedZeroCost([providers[0]]))
  }

  /** The two trees accept the same providers at the same (zero) cost, and
      their outputs have the same dtype and shape; on a valid input they are
      the same tensor exactly when every byte of the input is zero. */
  lemma TreesAgreeOnZeroInput(providers: seq<Tensors.Tensor>)
    requires |providers| >= 1 ==> Valid(providers[0])
    ensures Realize(providers).Ok? <==> CratesDropout.Realize(providers).Ok?
    ensures Realize(providers).Ok? ==>
      var s, c := Realize(providers).value, CratesDropout.Realize(providers).value;
      s.cost == c.cost && s.outputs[0].dt == c.outputs[0].dt && s.outputs[0].shape == c.outputs[0].shape
      && (s.outputs[0] == c.outputs[0] <==> forall i :: 0 <= i < |providers[0].data| ==> providers[0].data[i] == 0)
  {
    if 1 <= |providers| <= 2 {
      var x := providers[0];
      var z := New(x.dt, x.shape);
      if forall i :: 0 <= i < |x.data| ==> x.data[i] == 0 {
        assert x.data == z.data;
      }
    }
  }
}
