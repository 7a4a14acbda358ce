/** Matrix multiplication (crates/ir/src/ops/binary/matmul.rs): the shape rule
    `compute_shapes` and the `Matmul` op that uses it. */
module Matmul {
  import opened Wrappers
  import opened Shapes
  import opened Tensors
  import opened IrCore
  import opened Broadcast

  /** The four shapes `compute_shapes` returns: both operands after promotion
      and padding, the broadcast output shape with both matrix dimensions, and
      the final output shape without the dimensions added for vectors. */
  datatype ComputedShapes = ComputedShapes(a: Shape, b: Shape, cBroadcast: Shape, cFinal: Shape)

  /** `Vec::insert(at, 1)` where `at` is within bounds. */
  function InsertOne(s: Shape, at: nat): (r: Shape)
    requires at <= |s|
    ensures |r| == |s| + 1
  {
    s[..at] + [1] + s[at..]
  }

  /** Where `compute_shapes` inserts a 1 into an operand of rank below 2: at
      `a_trans` for `a`, at `!b_trans` for `b`. */
  function RowAt(aTrans: bool): nat { if aTrans then 1 else 0 }
  function ColumnAt(bTrans: bool): nat { if bTrans then 0 else 1 }

  /** The insertion panics: the operand has rank below 2 and `at` is past its end. */
  predicate PromoteFails(s: Shape, at: nat)
  {
    |s| < 2 && at > |s|
  }

  /** An operand of rank below 2 with a 1 inserted at `at`; others unchanged. */
  function Promoted(s: Shape, at: nat): (r: Shape)
    requires !PromoteFails(s, at)
    ensures |r| == if |s| < 2 then |s| + 1 else |s|
  {
    if |s| < 2 then InsertOne(s, at) else s
  }

  /** `s` padded on the left with 1s up to rank `rank`. */
  function PadLeft(s: Shape, rank: nat): (r: Shape)
    requires |s| <= rank
    ensures |r| == rank
  {
    Ones(rank - |s|) + s
  }

  /** The last two dimensions of `s` exchanged. */
  function SwapLastTwo(s: Shape): (r: Shape)
    requires |s| >= 2
    ensures |r| == |s| && r[..|s| - 2] == s[..|s| - 2]
    ensures r[|s| - 2] == s[|s| - 1] && r[|s| - 1] == s[|s| - 2]
  {
    s[..|s| - 2] + [s[|s| - 1], s[|s| - 2]]
  }

  function Max(x: nat, y: nat): nat { if x >= y then x else y }

  /** The second half of `compute_shapes`, on operands of equal rank: the
      batch prefixes must broadcast and the contracted dimensions (after the
      transpose swaps) must agree; the broadcast output shape ends in both
      matrix dimensions, the final one leaves out `m` for an implicit row and
      `n` for an implicit column. A rank below 2 makes `len() - 2` underflow. */
  function FromPadded(a2: Shape, b2: Shape, aTrans: bool, bTrans: bool, cTrans: bool,
                      implicitM: bool, implicitN: bool): (r: Result<ComputedShapes>)
    requires |a2| == |b2|
    ensures r.Err? ==> r.fault.Panic? || r.fault.Bail?
    ensures r.Ok? ==> r.value.a == a2 && r.value.b == b2
    ensures r.Ok? ==> |a2| >= 2 && |r.value.cBroadcast| == |a2|
    ensures r.Ok? ==> |r.value.cFinal| == |a2| - (if implicitM then 1 else 0) - (if implicitN then 1 else 0)
    ensures r.Ok? ==> (if aTrans then a2[|a2| - 2] else a2[|a2| - 1]) == (if bTrans then b2[|b2| - 1] else b2[|b2| - 2])
  {
    var rank := |a2|;
    if rank < 2 then Err(Panic(SUB_OVERFLOW))
    else
      var prefix := MultiBroadcast([a2[..rank - 2], b2[..rank - 2]]);
      if prefix.None? then Err(Bail("Could not broadcast"))
      else
        MaxRankPair(a2[..rank - 2], b2[..rank - 2]);
        var m := if aTrans then a2[rank - 1] else a2[rank - 2];
        var ka := if aTrans then a2[rank - 2] else a2[rank - 1];
        var kb := if bTrans then b2[rank - 1] else b2[rank - 2];
        var n := if bTrans then b2[rank - 2] else b2[rank - 1];
        if ka != kb then Err(Bail("Inconsistent matmul"))
        else
          var mPart: Shape := if implicitM then [] else [m];
          var nPart: Shape := if implicitN then [] else [n];
          Ok(ComputedShapes(a2, b2,
            prefix.value + (if cTrans then [n, m] else [m, n]),
            prefix.value + (if cTrans then nPart + mPart else mPart + nPart)))
  }

  /** `compute_shapes(a, b, a_trans, b_trans, c_trans)`: promote operands of
      rank below 2 (a rank-0 `a` with `a_trans`, or a rank-0 `b` without
      `b_trans`, makes the insertion panic), pad the shorter operand on the
      left with 1s, then `FromPadded`. */
  function ComputeShapes(a: Shape, b: Shape, aTrans: bool, bTrans: bool, cTrans: bool): (r: Result<ComputedShapes>)
  {
    if PromoteFails(a, RowAt(aTrans)) || PromoteFails(b, ColumnAt(bTrans)) then
      Err(Panic("insertion index should be <= len"))
    else
      var a1, b1 := Promoted(a, RowAt(aTrans)), Promoted(b, ColumnAt(bTrans));
      var rank := Max(|a1|, |b1|);
      FromPadded(PadLeft(a1, rank), PadLeft(b1, rank), aTrans, bTrans, cTrans, |a| < 2, |b| < 2)
  }

  /** Every failure of `compute_shapes` is a panic or a `bail!`; on success both
      operands have the same rank, at least 2 and at least the larger input
      rank, the broadcast output has that rank too, and the final output has
      one dimension fewer for each vector operand. */
  lemma ComputeShapesRanks(a: Shape, b: Shape, aTrans: bool, bTrans: bool, cTrans: bool)
    ensures var r := ComputeShapes(a, b, aTrans, bTrans, cTrans);
      (r.Err? ==> r.fault.Panic? || r.fault.Bail?)
      && (r.Ok? ==> (|r.value.a| >= 2 && |r.value.a| >= |a| && |r.value.a| >= |b|
                     && |r.value.b| == |r.value.a| && |r.value.cBroadcast| == |r.value.a|))
      && (r.Ok? ==> |r.value.cFinal| == |r.value.a| - (if |a| < 2 then 1 else 0) - (if |b| < 2 then 1 else 0))
  {
    if !PromoteFails(a, RowAt(aTrans)) && !PromoteFails(b, ColumnAt(bTrans)) {
      PromotedShapes(a, b, aTrans, bTrans, cTrans);
    }
  }

  /** The padding loop: `insert(0, 1)` until `s` has rank `target`. */
  method PadFront(s: Shape, target: nat) returns (t: Shape)
    ensures t == PadLeft(s, Max(|s|, target))
  {
    t := s;
    while |t| < target
      invariant |s| <= |t| <= Max(|s|, target)
      invariant t == PadLeft(s, |t|)
      decreases target - |t|
    {
      assert [1] + PadLeft(s, |t|) == PadLeft(s, |t| + 1);
      t := [1] + t;
    }
  }

  /** `compute_shapes` step by step: the inserts, the two padding loops, the
      swaps and the pushes onto the output shapes. */
  method ComputeShapesInPlace(a: Shape, b: Shape, aTrans: bool, bTrans: bool, cTrans: bool)
    returns (r: Result<ComputedShapes>)
    ensures r == ComputeShapes(a, b, aTrans, bTrans, cTrans)
  {
    var ashape, bshape := a, b;
    var implicitM, implicitN := false, false;
    if |ashape| < 2 {
      implicitM := true;
      var at := if aTrans then 1 else 0;
      if at > |ashape| {
        return Err(Panic("insertion index should be <= len"));
      }
      ashape := ashape[..at] + [1] + ashape[at..];
    }
    if |bshape| < 2 {
      implicitN := true;
      var at := if bTrans then 0 else 1;
      if at > |bshape| {
        return Err(Panic("insertion index should be <= len"));
      }
      bshape := bshape[..at] + [1] + bshape[at..];
    }
    assert ashape == Promoted(a, RowAt(aTrans)) && bshape == Promoted(b, ColumnAt(bTrans));
    assert implicitM == (|a| < 2) && implicitN == (|b| < 2);
    ghost var rank := Max(|ashape|, |bshape|);
    ghost var a1, b1 := ashape, bshape;
    ashape := PadFront(ashape, |bshape|);
    bshape := PadFront(bshape, |ashape|);
    assert ashape == PadLeft(a1, rank) && bshape == PadLeft(b1, rank);
    r := Finish(ashape, bshape, aTrans, bTrans, cTrans, implicitM, implicitN);
    PromotedShapes(a, b, aTrans, bTrans, cTrans);
  }

  lemma PromotedShapes(a: Shape, b: Shape, aTrans: bool, bTrans: bool, cTrans: bool)
    requires !PromoteFails(a, RowAt(aTrans)) && !PromoteFails(b, ColumnAt(bTrans))
    ensures var a1, b1 := Promoted(a, RowAt(aTrans)), Promoted(b, ColumnAt(bTrans));
      var rank := Max(|a1|, |b1|);
      ComputeShapes(a, b, aTrans, bTrans, cTrans)
        == FromPadded(PadLeft(a1, rank), PadLeft(b1, rank), aTrans, bTrans, cTrans, |a| < 2, |b| < 2)
  {
  }

  /** The rest of `compute_shapes` once both operands have the same rank. */
  method Finish(ashape: Shape, bshape: Shape, aTrans: bool, bTrans: bool, cTrans: bool,
                implicitM: bool, implicitN: bool) returns (r: Result<ComputedShapes>)
    requires |ashape| == |bshape|
    ensures r == FromPadded(ashape, bshape, aTrans, bTrans, cTrans, implicitM, implicitN)
  {
    if |ashape| < 2 {
      return Err(Panic(SUB_OVERFLOW));
    }
    var prefix := MultiBroadcast([ashape[..|ashape| - 2], bshape[..|bshape| - 2]]);
    if prefix.None? {
      return Err(Bail("Could not broadcast"));
    }
    var cBroadcast := prefix.value;
    var m, ka := ashape[|ashape| - 2], ashape[|ashape| - 1];
    var kb, n := bshape[|bshape| - 2], bshape[|bshape| - 1];
    if aTrans {
      m, ka := ka, m;
    }
    if bTrans {
      kb, n := n, kb;
    }
    if ka != kb {
      return Err(Bail("Inconsistent matmul"));
    }
    var cFinal := cBroadcast;
    if cTrans {
      cBroadcast := cBroadcast + [n];
      cBroadcast := cBroadcast + [m];
      if !implicitN {
        cFinal := cFinal + [n];
      }
      if !implicitM {
        cFinal := cFinal + [m];
      }
    } else {
      cBroadcast := cBroadcast + [m];
      cBroadcast := cBroadcast + [n];
      if !implicitM {
        cFinal := cFinal + [m];
      }
      if !implicitN {
        cFinal := cFinal + [n];
      }
    }
    ghost var mPart: Shape := if implicitM then [] else [m];
    ghost var nPart: Shape := if implicitN then [] else [n];
    assert cBroadcast == prefix.value + (if cTrans then [n, m] else [m, n]);
    assert cFinal == prefix.value + (if cTrans then nPart + mPart else mPart + nPart);
    return Ok(ComputedShapes(ashape, bshape, cBroadcast, cFinal));
  }

  // ---------------------------------------------------------------------------
  // The shape rule against numpy's

  /** numpy's `matmul` shape rule for operands of rank at least 1: a vector `a`
      is read as a row `[1, k]` and a vector `b` as a column `[k, 1]`, the
      batch dimensions broadcast without any padding, the contracted dimensions
      must agree, and the 1s added for vectors are dropped from the result. */
  function NumpyMatmulShape(a: Shape, b: Shape): Option<Shape>
    requires |a| >= 1 && |b| >= 1
  {
    var a1, b1 := PromotedRow(a), PromotedColumn(b);
    var batch := MultiBroadcast([a1[..|a1| - 2], b1[..|b1| - 2]]);
    if batch.None? || a1[|a1| - 1] != b1[|b1| - 2] then None
    else
      Some(batch.value + (if |a| == 1 then [] else [a1[|a1| - 2]])
        + (if |b| == 1 then [] else [b1[|b1| - 1]]))
  }

  /** Without transposes, and for operands that are not scalars, the output
      shape is numpy's: the padding with 1s does not change the broadcast, and
      every failure is a `bail!` error rather than a panic. */
  lemma ComputeShapesIsNumpyMatmul(a: Shape, b: Shape)
    requires |a| >= 1 && |b| >= 1
    ensures var r := ComputeShapes(a, b, false, false, false);
      (r.Ok? <==> NumpyMatmulShape(a, b).Some?)
      && (r.Ok? ==> r.value.cFinal == NumpyMatmulShape(a, b).value)
      && (r.Err? ==> r.fault.Bail?)
  {
    PromoteVectors(a, b);
    FromPaddedBatch(PromotedRow(a), PromotedColumn(b), |a| < 2, |b| < 2);
  }

  /** numpy's reading of a vector as a row (first operand) or a column (second). */
  function PromotedRow(a: Shape): Shape { if |a| == 1 then [1] + a else a }
  function PromotedColumn(b: Shape): Shape { if |b| == 1 then b + [1] else b }

  /** Without transposes, the promotion is numpy's. */
  lemma PromoteVectors(a: Shape, b: Shape)
    requires |a| >= 1 && |b| >= 1
    ensures !PromoteFails(a, RowAt(false)) && Promoted(a, RowAt(false)) == PromotedRow(a)
    ensures !PromoteFails(b, ColumnAt(false)) && Promoted(b, ColumnAt(false)) == PromotedColumn(b)
  {
    if |a| == 1 {
      assert a[..0] + [1] + a[0..] == [1] + a;
    }
    if |b| == 1 {
      assert b[..1] + [1] + b[1..] == b + [1];
    }
  }

  /** On padded operands the batch prefix is the broadcast of the unpadded ones. */
  lemma FromPaddedBatch(a1: Shape, b1: Shape, implicitM: bool, implicitN: bool)
    requires |a1| >= 2 && |b1| >= 2
    ensures var rank := Max(|a1|, |b1|);
      var r := FromPadded(PadLeft(a1, rank), PadLeft(b1, rank), false, false, false, implicitM, implicitN);
      var batch := MultiBroadcast([a1[..|a1| - 2], b1[..|b1| - 2]]);
      (r.Ok? <==> batch.Some? && a1[|a1| - 1] == b1[|b1| - 2])
      && (r.Err? ==> r.fault.Bail?)
      && (r.Ok? ==> r.value.cFinal == batch.value + (if implicitM then [] else [a1[|a1| - 2]])
                                       + (if implicitN then [] else [b1[|b1| - 1]]))
  {
    var rank := Max(|a1|, |b1|);
    PaddedLastTwo(a1, rank);
    PaddedLastTwo(b1, rank);
    BroadcastPadded(a1[..|a1| - 2], b1[..|b1| - 2], rank - |a1|, rank - |b1|);
    FromPaddedPlain(PadLeft(a1, rank), PadLeft(b1, rank), implicitM, implicitN);
  }

  /** Padding on the left keeps the last two dimensions and pads the batch prefix. */
  lemma PaddedLastTwo(s: Shape, rank: nat)
    requires 2 <= |s| <= rank
    ensures var p := PadLeft(s, rank);
      p[..rank - 2] == Ones(rank - |s|) + s[..|s| - 2]
      && p[rank - 1] == s[|s| - 1] && p[rank - 2] == s[|s| - 2]
  {
    var p := PadLeft(s, rank);
    assert p[..rank - 2] == Ones(rank - |s|) + s[..|s| - 2];
  }

  /** `FromPadded` without any transpose. */
  lemma FromPaddedPlain(a2: Shape, b2: Shape, implicitM: bool, implicitN: bool)
    requires |a2| == |b2| >= 2
    ensures var rank := |a2|;
      var prefix := MultiBroadcast([a2[..rank - 2], b2[..rank - 2]]);
      var r := FromPadded(a2, b2, false, false, false, implicitM, implicitN);
      (r.Ok? <==> prefix.Some? && a2[rank - 1] == b2[rank - 2])
      && (r.Err? ==> r.fault.Bail?)
      && (r.Ok? ==> r.value.cFinal == prefix.value + (if implicitM then [] else [a2[rank - 2]])
                                       + (if implicitN then [] else [b2[rank - 1]]))
  {
  }

  /** Transposing the output only exchanges the two matrix dimensions of the
      broadcast output shape. */
  lemma OutputTransposeSwaps(a: Shape, b: Shape, aTrans: bool, bTrans: bool)
    ensures ComputeShapes(a, b, aTrans, bTrans, true).Ok? <==> ComputeShapes(a, b, aTrans, bTrans, false).Ok?
    ensures ComputeShapes(a, b, aTrans, bTrans, true).Ok? ==>
      ComputeShapes(a, b, aTrans, bTrans, true).value.cBroadcast
        == SwapLastTwo(ComputeShapes(a, b, aTrans, bTrans, false).value.cBroadcast)
  {
    if !(PromoteFails(a, RowAt(aTrans)) || PromoteFails(b, ColumnAt(bTrans))) {
      var a1, b1 := Promoted(a, RowAt(aTrans)), Promoted(b, ColumnAt(bTrans));
      var rank := Max(|a1|, |b1|);
      FromPaddedOutputTranspose(PadLeft(a1, rank), PadLeft(b1, rank), aTrans, bTrans, |a| < 2, |b| < 2);
    }
  }

  lemma FromPaddedOutputTranspose(a2: Shape, b2: Shape, aTrans: bool, bTrans: bool, implicitM: bool, implicitN: bool)
    requires |a2| == |b2|
    ensures var t, f := FromPadded(a2, b2, aTrans, bTrans, true, implicitM, implicitN),
                        FromPadded(a2, b2, aTrans, bTrans, false, implicitM, implicitN);
      (t.Ok? <==> f.Ok?) && (t.Ok? ==> t.value.cBroadcast == SwapLastTwo(f.value.cBroadcast))
  {
    var rank := |a2|;
    if rank >= 2 {
      var prefix := MultiBroadcast([a2[..rank - 2], b2[..rank - 2]]);
      if prefix.Some? {
        MaxRankPair(a2[..rank - 2], b2[..rank - 2]);
        var m := if aTrans then a2[rank - 1] else a2[rank - 2];
        var n := if bTrans then b2[rank - 2] else b2[rank - 1];
        assert SwapLastTwo(prefix.value + [m, n]) == prefix.value + [n, m];
      }
    }
  }

  /** For a matrix operand `a`, the `a_trans` flag is the same as exchanging the
      last two dimensions of `a` beforehand. */
  lemma TransposedOperand(a: Shape, b: Shape, bTrans: bool, cTrans: bool)
    requires |a| >= 2
    ensures var t, s := ComputeShapes(a, b, true, bTrans, cTrans), ComputeShapes(SwapLastTwo(a), b, false, bTrans, cTrans);
      (t.Ok? <==> s.Ok?) && (t.Err? ==> t.fault == s.fault)
      && (t.Ok? ==> t.value.cBroadcast == s.value.cBroadcast && t.value.cFinal == s.value.cFinal)
  {
    if !PromoteFails(b, ColumnAt(bTrans)) {
      var b1 := Promoted(b, ColumnAt(bTrans));
      var rank := Max(|a|, |b1|);
      var sw := SwapLastTwo(a);
      assert !PromoteFails(a, RowAt(true)) && Promoted(a, RowAt(true)) == a;
      assert !PromoteFails(sw, RowAt(false)) && Promoted(sw, RowAt(false)) == sw;
      PromotedShapes(a, b, true, bTrans, cTrans);
      PromotedShapes(sw, b, false, bTrans, cTrans);
      PadLeftSwap(a, rank);
      FromPaddedTransposedA(PadLeft(a, rank), PadLeft(sw, rank), PadLeft(b1, rank), bTrans, cTrans, |b| < 2);
    }
  }

  /** Padding commutes with exchanging the last two dimensions. */
  lemma PadLeftSwap(a: Shape, rank: nat)
    requires 2 <= |a| <= rank
    ensures var a2, s2 := PadLeft(a, rank), PadLeft(SwapLastTwo(a), rank);
      a2[..rank - 2] == s2[..rank - 2] && a2[rank - 1] == s2[rank - 2] && a2[rank - 2] == s2[rank - 1]
  {
    PaddedLastTwo(a, rank);
    PaddedLastTwo(SwapLastTwo(a), rank);
  }

  lemma FromPaddedTransposedA(a2: Shape, s2: Shape, b2: Shape, bTrans: bool, cTrans: bool, implicitN: bool)
    requires |a2| == |s2| == |b2| >= 2
    requires a2[..|a2| - 2] == s2[..|s2| - 2] && a2[|a2| - 1] == s2[|s2| - 2] && a2[|a2| - 2] == s2[|s2| - 1]
    ensures var t, u := FromPadded(a2, b2, true, bTrans, cTrans, false, implicitN),
                        FromPadded(s2, b2, false, bTrans, cTrans, false, implicitN);
      (t.Ok? <==> u.Ok?) && (t.Err? ==> t.fault == u.fault)
      && (t.Ok? ==> t.value.cBroadcast == u.value.cBroadcast && t.value.cFinal == u.value.cFinal)
  {
  }

  // ---------------------------------------------------------------------------
  // The op

  /** `Matmul::realize`: exactly two providers; the output is a zero tensor of
      the first provider's dtype and the final shape of `compute_shapes`
      without transposes. The cost reads `m = a[0]`, `n = b[1]` and `p = a[1]`
      from the original shapes, so operands below rank 2 panic on indexing
      even where `compute_shapes` accepted them, and `p = 0` makes the `usize`
      expression `2 * p - 1` underflow. */
  function Realize(providers: seq<Tensors.Tensor>): (r: Result<RealizedOp>)
    ensures r.Ok? <==> (|providers| == 2
      && ComputeShapes(providers[0].shape, providers[1].shape, false, false, false).Ok?
      && |providers[0].shape| >= 2 && |providers[1].shape| >= 2 && providers[0].shape[1] >= 1)
    ensures |providers| != 2 ==> r == Err(ProviderCount(2, 2, |providers|, "Matmul"))
    ensures r.Ok? ==>
      var a, b := providers[0].shape, providers[1].shape;
      r.value.outputs == [New(providers[0].dt, ComputeShapes(a, b, false, false, false).value.cFinal)]
      && r.value.cost == OpCost(a[0] * b[1] * (2 * a[1] - 1), 0)
  {
    var _ :- ValidateProviders(|providers|, 2, 2, "Matmul");
    var a, b := providers[0].shape, providers[1].shape;
    var shapes :- ComputeShapes(a, b, false, false, false);
    if |a| < 2 || |b| < 2 then Err(Panic(OUT_OF_BOUNDS))
    else if a[1] == 0 then Err(Panic(SUB_OVERFLOW))
    else
      var m, n, p := a[0], b[1], a[1];
      Ok(RealizedOp(OpCost(m * n * (2 * p - 1), 0), [New(providers[0].dt, shapes.cFinal)]))
  }

  /** Two matrices `[m, p]` and `[p, n]` give one `[m, n]` output, and the cost
      is `2p - 1` operations (p products, p - 1 additions) for each of its
      elements. */
  lemma RealizeMatrices(x: Tensors.Tensor, y: Tensors.Tensor, m: nat, p: nat, n: nat)
    requires x.shape == [m, p] && y.shape == [p, n] && p >= 1
    ensures Realize([x, y]).Ok?
    ensures |Realize([x, y]).value.outputs| == 1
    ensures Realize([x, y]).value.outputs[0].shape == [m, n]
    ensures Realize([x, y]).value.cost.flops == Numel(Realize([x, y]).value.outputs[0]) * (2 * p - 1)
  {
    ComputeShapesMatrices(x.shape, y.shape, m, p, n);
    assert Product([m, n]) == m * n by {
      assert Product([n]) == n * Product([]);
    }
  }

  /** The cost of multiplying a 2x4 matrix by a 4x3 one: 2 * 3 * 7 = 42 flops. */
  lemma RealizeExample(x: Tensors.Tensor, y: Tensors.Tensor)
    requires x.shape == [2, 4] && y.shape == [4, 3]
    ensures Realize([x, y]).Ok? && Realize([x, y]).value.cost == OpCost(42, 0)
  {
    RealizeMatrices(x, y, 2, 4, 3);
  }

  /** The promotion of a vector first operand never reaches an output:
      `realize` reads `a[1]`, which a vector does not have. */
  lemma RealizeRejectsVectors(x: Tensors.Tensor, y: Tensors.Tensor)
    requires |x.shape| == 1
    ensures Realize([x, y]).Err?
  {
  }

  lemma ComputeShapesMatrices(a: Shape, b: Shape, m: nat, p: nat, n: nat)
    requires a == [m, p] && b == [p, n]
    ensures ComputeShapes(a, b, false, false, false).Ok?
    ensures ComputeShapes(a, b, false, false, false).value.cFinal == [m, n]
  {
    ComputeShapesIsNumpyMatmul(a, b);
    NumpyMatrices(m, p, n);
  }

  /** numpy multiplies an `[m, p]` matrix by a `[p, n]` one into an `[m, n]` one. */
  lemma NumpyMatrices(m: nat, p: nat, n: nat)
    ensures NumpyMatmulShape([m, p], [p, n]) == Some([m, n])
  {
    var a: Shape, b: Shape := [m, p], [p, n];
    assert a[..0] == [] && b[..0] == [];
    MaxRankPair([], []);
    assert MultiBroadcast([[], []]) == Some([]);
    assert NumpyMatmulShape(a, b) == Some([] + [m] + [n]);
    assert [] + [m] + [n] == [m, n];
  }
}
