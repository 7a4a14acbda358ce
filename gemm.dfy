/** `Gemm` (crates/ir/src/ops/math/gemm.rs): every provider shape is broadcast
    together and the cost is read off the broadcast shape. */
module CratesGemm {
  import opened Wrappers
  import opened Shapes
  import opened Tensors
  import opened IrCore
  import opened Broadcast

  /** `Gemm::realize`: two or three providers; the broadcast of all their shapes
      (a panic when there is none) must have two dimensions `m` and `n`, and the
      cost takes `p = n`, so the `usize` expression `2 * p - 1` underflows when
      `n` is 0. The output is a zero tensor of the broadcast shape and the first
      provider's dtype. */
  function Realize(providers: seq<Tensors.Tensor>): (r: Result<RealizedOp>)
    ensures r.Ok? <==> (2 <= |providers| <= 3 && MultiBroadcast(ShapesOf(providers)).Some?
      && |MultiBroadcast(ShapesOf(providers)).value| >= 2 && MultiBroadcast(ShapesOf(providers)).value[1] >= 1)
    ensures !(2 <= |providers| <= 3) ==> r == Err(ProviderCount(2, 3, |providers|, "Gemm"))
    ensures 2 <= |providers| <= 3 && r.Err? ==> r.fault.Panic?
    ensures r.Ok? ==>
      var bc := MultiBroadcast(ShapesOf(providers)).value;
      r.value.outputs == [New(providers[0].dt, bc)]
      && r.value.cost == OpCost(bc[0] * bc[1] * (2 * bc[1] - 1), 0)
  {
    var _ :- ValidateProviders(|providers|, 2, 3, "Gemm");
    var broadcasted := MultiBroadcast(ShapesOf(providers));
    if broadcasted.None? then Err(Panic(UNWRAP_NONE))
    else
      var bc := broadcasted.value;
      if |bc| < 2 then Err(Panic(OUT_OF_BOUNDS))
      else
        var m, n, p := bc[0], bc[1], bc[1];
        if p == 0 then Err(Panic(SUB_OVERFLOW))
        else Ok(RealizedOp(OpCost(m * n * (2 * p - 1), 0), [New(providers[0].dt, bc)]))
  }

  /** Broadcasting the operands together rejects the shapes of an ordinary
      product: an `[m, k]` by `[k, n]` pair whose `k` and `n` differ and are not
      1 has no broadcast, so `realize` panics. */
  lemma RejectsMatrixProduct(x: Tensors.Tensor, y: Tensors.Tensor, m: nat, k: nat, n: nat)
    requires x.shape == [m, k] && y.shape == [k, n] && k != n && k != 1 && n != 1
    ensures Realize([x, y]).Err? && Realize([x, y]).fault.Panic?
  {
    var shapes := ShapesOf([x, y]);
    assert shapes == [[m, k], [k, n]];
    BroadcastSpec(shapes);
    MaxRankPair([m, k], [k, n]);
    assert !Agree(shapes, 0) by {
      assert Aligned(shapes[0], 0) == k && Aligned(shapes[1], 0) == n;
    }
  }

  /** Two square `[n, n]` operands broadcast to `[n, n]`, and the cost is that
      of the matrix product: `2n - 1` operations for each of the `n * n`
      outputs. */
  lemma SquareOperands(x: Tensors.Tensor, y: Tensors.Tensor, n: nat)
    requires x.shape == [n, n] && y.shape == [n, n] && n >= 1
    ensures Realize([x, y]).Ok?
    ensures Realize([x, y]).value.outputs[0].shape == [n, n]
    ensures Realize([x, y]).value.cost.flops == n * n * (2 * n - 1)
  {
    var shapes := ShapesOf([x, y]);
    assert shapes == [[n, n], [n, n]];
    BroadcastSame([n, n]);
  }

  /** A shape broadcast with itself is itself. */
  lemma BroadcastSame(s: Shape)
    ensures MultiBroadcast([s, s]) == Some(s)
  {
    BroadcastPairFromDims(s, s, s);
  }
}

/** `Gemm` (steelix/src/ir/ops/math/gemm.rs): `A * B` through the first
    dimension the two operands share at the same position, plus `C`. */
module SteelixGemm {
  import opened Wrappers
  import opened Shapes
  import opened Tensors
  import opened IrCore
  import opened Broadcast

  /** The search of `matching_dim` from position `i`: the first `j >= i` with
      `x[j] == y[j]`. Reading `y[j]` past its end panics; running off the end
      of `x` is a `bail!`. */
  function MatchingDimFrom(x: Shape, y: Shape, i: nat): (r: Result<nat>)
    requires i <= |x| && i <= |y|
    ensures r.Ok? ==> (i <= r.value < |x| && r.value < |y| && x[r.value] == y[r.value]
      && forall j :: i <= j < r.value ==> x[j] != y[j])
    ensures r.Ok? <==> exists j :: i <= j < |x| && j < |y| && x[j] == y[j]
    ensures r.Err? ==> (r.fault.Panic? <==> |x| > |y|) && (r.fault.Panic? || r.fault.Bail?)
    decreases |x| - i
  {
    if i == |x| then Err(Bail("GEMM: No equal dimension found"))
    else if i == |y| then Err(Panic(OUT_OF_BOUNDS))
    else if x[i] == y[i] then Ok(i)
    else MatchingDimFrom(x, y, i + 1)
  }

  /** `matching_dim(x, y)`: the first position where both shapes have the
      same dimension. */
  function MatchingDim(x: Shape, y: Shape): (r: Result<nat>)
    ensures r.Ok? ==> (r.value < |x| && r.value < |y| && x[r.value] == y[r.value]
      && forall j :: 0 <= j < r.value ==> x[j] != y[j])
    ensures r.Ok? <==> exists j :: 0 <= j < |x| && j < |y| && x[j] == y[j]
    ensures r.Err? ==> (r.fault.Panic? <==> |x| > |y|) && (r.fault.Panic? || r.fault.Bail?)
  {
    MatchingDimFrom(x, y, 0)
  }

  /** The closure as written: a `for` loop with an early return. */
  method MatchingDimLoop(x: Shape, y: Shape) returns (r: Result<nat>)
    ensures r == MatchingDim(x, y)
  {
    for i := 0 to |x|
      invariant i <= |y| ==> MatchingDim(x, y) == MatchingDimFrom(x, y, i)
      invariant i <= |y|
    {
      if i >= |y| {
        return Err(Panic(OUT_OF_BOUNDS));
      }
      if x[i] == y[i] {
        return Ok(i);
      }
    }
    return Err(Bail("GEMM: No equal dimension found"));
  }

  /** `s` with position `k` removed (`Vec::remove`). */
  function Remove(s: Shape, k: nat): (r: Shape)
    requires k < |s|
    ensures |r| == |s| - 1
  {
    s[..k] + s[k + 1..]
  }

  /** Both searches stop at the same position, so the second `?` never fires
      once the first has passed. */
  lemma MatchingDimSymmetric(x: Shape, y: Shape)
    ensures MatchingDim(x, y).Ok? <==> MatchingDim(y, x).Ok?
    ensures MatchingDim(x, y).Ok? ==> MatchingDim(y, x) == MatchingDim(x, y)
  {
    var r, s := MatchingDim(x, y), MatchingDim(y, x);
    if r.Ok? {
      assert y[r.value] == x[r.value];
    }
    if s.Ok? {
      assert x[s.value] == y[s.value];
    }
  }

  /** The `ab_shape` block: remove the matching dimension from each operand
      and keep the first remaining dimension of each. An operand left with no
      dimension panics on the read. */
  function AbShape(a: Shape, b: Shape): (r: Result<Shape>)
    ensures r.Ok? ==> |r.value| == 2
    ensures r.Err? ==> r.fault.Panic? || r.fault.Bail?
  {
    var aDim :- MatchingDim(a, b);
    MatchingDimSymmetric(a, b);
    var bDim := MatchingDim(b, a).value;
    var a1, b1 := Remove(a, aDim), Remove(b, bDim);
    if |a1| == 0 || |b1| == 0 then Err(Panic(OUT_OF_BOUNDS))
    else Ok([a1[0], b1[0]])
  }

  /** The block as written: two searches, two removals and two index writes
      into `[0, 0]`. */
  method BuildAbShape(a: Shape, b: Shape) returns (r: Result<Shape>)
    ensures r == AbShape(a, b)
  {
    var abShape: Shape := [0, 0];
    var aShape, bShape := a, b;
    var aDim :- MatchingDimLoop(aShape, bShape);
    MatchingDimSymmetric(aShape, bShape);
    var bRes := MatchingDimLoop(bShape, aShape);
    var bDim := bRes.value;
    aShape := aShape[..aDim] + aShape[aDim + 1..];
    bShape := bShape[..bDim] + bShape[bDim + 1..];
    if |aShape| == 0 || |bShape| == 0 {
      return Err(Panic(OUT_OF_BOUNDS));
    }
    abShape := abShape[0 := aShape[0]];
    abShape := abShape[1 := bShape[0]];
    assert aShape == Remove(a, aDim) && bShape == Remove(b, bDim);
    assert abShape == [aShape[0], bShape[0]];
    return Ok(abShape);
  }

  /** When the operands share a dimension, `ab_shape` pairs what is left of
      each: for `[m, k]` and `[n, k]` with `m != n` it is `[m, n]`. */
  lemma AbShapeTransposedB(m: nat, k: nat, n: nat)
    requires m != n
    ensures AbShape([m, k], [n, k]) == Ok([m, n])
  {
    var a: Shape, b: Shape := [m, k], [n, k];
    assert a[1] == b[1] && a[0] != b[0];
    assert MatchingDim(a, b) == Ok(1);
    MatchingDimSymmetric(a, b);
    assert Remove(a, 1) == [m] && Remove(b, 1) == [n];
  }

  /** `compute_cost(a, b, ab, c)`: `a[0] * a[1] * (2 * b[1] - 1)` for `A * B` plus
      `ab[0] * ab[1] * (2 * c[1] - 1)` for adding `C`; each index past the end
      panics and so does each `2 * x - 1` with `x == 0`. */
  function ComputeCost(a: Shape, b: Shape, ab: Shape, c: Shape): (r: Result<OpCost>)
    ensures r.Ok? <==> (|a| >= 2 && |b| >= 2 && |ab| >= 2 && |c| >= 2 && b[1] >= 1 && c[1] >= 1)
    ensures r.Err? ==> r.fault.Panic?
    ensures r.Ok? ==> (r.value.parameters == 0
      && r.value.flops == a[0] * a[1] * (2 * b[1] - 1) + ab[0] * ab[1] * (2 * c[1] - 1))
  {
    if |a| < 2 || |b| < 2 then Err(Panic(OUT_OF_BOUNDS))
    else if b[1] == 0 then Err(Panic(SUB_OVERFLOW))
    else
      var abFlops := a[0] * a[1] * (2 * b[1] - 1);
      if |ab| < 2 || |c| < 2 then Err(Panic(OUT_OF_BOUNDS))
      else if c[1] == 0 then Err(Panic(SUB_OVERFLOW))
      else Ok(OpCost(abFlops + ab[0] * ab[1] * (2 * c[1] - 1), 0))
  }

  /** `C`: the third provider, or a zero tensor of shape `[1]` and A's dtype. */
  function OperandC(providers: seq<Tensors.Tensor>): (c: Tensors.Tensor)
    requires 2 <= |providers| <= 3
    ensures |providers| == 3 ==> c == providers[2]
    ensures |providers| == 2 ==> c.shape == [1] && c.dt == providers[0].dt
  {
    if |providers| == 2 then New(providers[0].dt, [1]) else providers[2]
  }

  /** The `expect` on broadcasting `C` to the shape of `A * B`. */
  const NO_C_BROADCAST: string := "Could not broadcast C -> A*B in GEMM"

  /** `Gemm::realize`: two or three providers, `ab_shape`, the broadcast of
      `ab_shape` with C's shape (a panic when there is none), then the cost.
      The output is a zero tensor of shape `ab_shape` and A's dtype. */
  function Realize(providers: seq<Tensors.Tensor>): (r: Result<RealizedOp>)
    ensures !(2 <= |providers| <= 3) ==> r == Err(ProviderCount(2, 3, |providers|, "Gemm"))
    ensures 2 <= |providers| <= 3 && r.Err? ==> r.fault.Panic? || r.fault.Bail?
    ensures 2 <= |providers| <= 3 ==>
      var a, b := providers[0].shape, providers[1].shape;
      var ab := AbShape(a, b);
      var cb := if ab.Ok? then MultiBroadcast([ab.value, OperandC(providers).shape]) else None;
      && (r.Ok? <==> ab.Ok? && cb.Some? && |a| >= 2 && |b| >= 2 && b[1] >= 1
                     && |cb.value| >= 2 && cb.value[1] >= 1)
      && (ab.Err? ==> r == Err(ab.fault))
      && (ab.Ok? && cb.None? ==> r == Err(Panic(NO_C_BROADCAST)))
      && (r.Ok? ==>
            r.value.outputs == [New(providers[0].dt, ab.value)]
            && r.value.cost == ComputeCost(a, b, ab.value, cb.value).value)
  {
    var _ :- ValidateProviders(|providers|, 2, 3, "Gemm");
    var a, b, c := providers[0], providers[1], OperandC(providers);
    var ab :- AbShape(a.shape, b.shape);
    var cShape := MultiBroadcast([ab, c.shape]);
    if cShape.None? then Err(Panic(NO_C_BROADCAST))
    else
      var cost :- ComputeCost(a.shape, b.shape, ab, cShape.value);
      Ok(RealizedOp(cost, [New(a.dt, ab)]))
  }

  /** With `A: [m, k]`, `B: [n, k]` (`m != n`) and no `C`, the output is `[m, n]`
      and the cost is `m * k * (2k - 1)` for the product plus `m * n * (2n - 1)`
      for adding the implicit `C`. */
  lemma TransposedB(x: Tensors.Tensor, y: Tensors.Tensor, m: nat, k: nat, n: nat)
    requires x.shape == [m, k] && y.shape == [n, k] && m != n && k >= 1 && n >= 1
    ensures Realize([x, y]).Ok?
    ensures Realize([x, y]).value.outputs[0].shape == [m, n]
    ensures Realize([x, y]).value.cost.flops == m * k * (2 * k - 1) + m * n * (2 * n - 1)
  {
    AbShapeTransposedB(m, k, n);
    BroadcastWithOne([m, n]);
  }

  /** A rank-2 shape broadcast with `[1]` is itself. */
  lemma BroadcastWithOne(s: Shape)
    requires |s| == 2
    ensures MultiBroadcast([s, [1]]) == Some(s)
  {
    BroadcastPairFromDims(s, [1], s);
  }

  /** A classifier head: `A: [1, 2048]`, `B: [1000, 2048]`, `C: [1000]` gives a
      `[1, 1000]` output. */
  lemma ClassifierHead(x: Tensors.Tensor, y: Tensors.Tensor, z: Tensors.Tensor)
    requires x.shape == [1, 2048] && y.shape == [1000, 2048] && z.shape == [1000]
    ensures Realize([x, y, z]).Ok?
    ensures Realize([x, y, z]).value.outputs[0].shape == [1, 1000]
    ensures Realize([x, y, z]).value.cost == OpCost(2048 * 4095 + 1000 * 1999, 0)
  {
    AbShapeTransposedB(1, 2048, 1000);
    BroadcastRow(1000);
  }

  /** `[1, n]` broadcast with `[n]` is `[1, n]`. */
  lemma BroadcastRow(n: nat)
    ensures MultiBroadcast([[1, n], [n]]) == Some([1, n])
  {
    BroadcastPairFromDims([1, n], [n], [1, n]);
  }
}
