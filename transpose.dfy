/** `Transpose` (steelix/src/ir/ops/shape/transpose.rs): the dimensions of a
    four-dimensional input, reordered by a permutation of 0..3. */
module SteelixTranspose {
  import opened Wrappers
  import opened Numerics
  import opened Shapes
  import opened Tensors
  import opened IrCore

  const NAME: string := "Transpose"
  const GROUP: OpGroup := OpGroup.Shape

  const EACH_ONCE: string := "assertion `left == right` failed: each axis must be listed exactly once"

  datatype Transpose = Transpose(perm: seq<nat>)

  /** `build_transpose`: the `perm` attribute is required, and its `i64` entries
      are cast to `usize`. */
  function Build(perm: Option<seq<int>>): (r: Result<Transpose>)
    ensures r.Ok? <==> perm.Some?
    ensures r.Err? ==> IsBail(r)
    ensures r.Ok? ==> (|r.value.perm| == |perm.value|
                       && forall i :: 0 <= i < |perm.value| ==> r.value.perm[i] == AsUsize(perm.value[i]))
  {
    if perm.None? then Err(Bail("perm"))
    else Ok(Transpose(seq(|perm.value|, i requires 0 <= i < |perm.value| => AsUsize(perm.value[i]))))
  }

  /** The number of times `a` occurs in `xs`, counted left to right as the
      `usage_counts` loop counts it. */
  function Count(xs: seq<nat>, a: nat): nat
  {
    if xs == [] then 0 else Count(xs[..|xs| - 1], a) + (if xs[|xs| - 1] == a then 1 else 0)
  }

  /** The assertion of the second loop: each of 0, 1, 2 and 3 is used once. */
  predicate ListsEachAxisOnce(perm: seq<nat>)
  {
    forall a :: 0 <= a < 4 ==> Count(perm, a) == 1
  }

  /** Every entry is a valid index into `usage_counts`. */
  predicate AxesBelowFour(perm: seq<nat>)
  {
    forall i :: 0 <= i < |perm| ==> perm[i] < 4
  }

  /** Four entries below 4, all different. */
  predicate IsPermutation(perm: seq<nat>)
  {
    |perm| == 4 && AxesBelowFour(perm) && forall i, j :: 0 <= i < j < 4 ==> perm[i] != perm[j]
  }

  /** What `transpose` returns: output dimension `i` is input dimension
      `perm[i]`. An axis of 4 or more panics in the counting loop, a count other
      than 1 fails the assertion, and an axis beyond the input's rank panics in
      the copying loop. */
  function Permuted(dims: Shape, perm: seq<nat>): Result<Shape>
  {
    if !AxesBelowFour(perm) then Err(Panic(OUT_OF_BOUNDS))
    else if !ListsEachAxisOnce(perm) then Err(Panic(EACH_ONCE))
    else if exists i :: 0 <= i < |perm| && perm[i] >= |dims| then Err(Panic(OUT_OF_BOUNDS))
    else Ok(seq(|perm|, i requires 0 <= i < |perm| => dims[perm[i]]))
  }

  lemma CountStep(xs: seq<nat>, k: nat, a: nat)
    requires k < |xs|
    ensures Count(xs[..k + 1], a) == Count(xs[..k], a) + (if xs[k] == a then 1 else 0)
  {
    assert xs[..k + 1][..k] == xs[..k];
  }

  /** `Transpose::transpose` as written: count the uses of each axis in a
      four-slot array, check every count is 1, and copy the permuted
      dimensions into a copy of that array. */
  method PermuteDims(dims: Shape, perm: seq<nat>) returns (r: Result<Shape>)
    ensures r == Permuted(dims, perm)
  {
    var usageCounts := new nat[4](_ => 0);
    for k := 0 to |perm|
      invariant AxesBelowFour(perm[..k])
      invariant forall a :: 0 <= a < 4 ==> usageCounts[a] == Count(perm[..k], a)
    {
      var axis := perm[k];
      if axis >= 4 {
        return Err(Panic(OUT_OF_BOUNDS));
      }
      forall a | 0 <= a < 4 {
        CountStep(perm, k, a);
      }
      usageCounts[axis] := usageCounts[axis] + 1;
    }
    assert perm[..|perm|] == perm;
    for a := 0 to 4
      invariant forall b :: 0 <= b < a ==> usageCounts[b] == 1
    {
      if usageCounts[a] != 1 {
        return Err(Panic(EACH_ONCE));
      }
    }
    PermutationFacts(perm);
    var newDim := new nat[4](i requires 0 <= i < 4 reads usageCounts => usageCounts[i]);
    for k := 0 to |perm|
      invariant forall j :: 0 <= j < k ==> perm[j] < |dims| && newDim[j] == dims[perm[j]]
    {
      var axis := perm[k];
      if axis >= |dims| {
        return Err(Panic(OUT_OF_BOUNDS));
      }
      newDim[k] := dims[axis];
    }
    assert newDim[..] == seq(|perm|, i requires 0 <= i < |perm| => dims[perm[i]]);
    r := Ok(newDim[..]);
  }

  // ---------------------------------------------------------------------------
  // Counting

  lemma {:induction false} CountAbsent(xs: seq<nat>, a: nat)
    requires forall i :: 0 <= i < |xs| ==> xs[i] != a
    ensures Count(xs, a) == 0
  {
    if xs != [] {
      CountAbsent(xs[..|xs| - 1], a);
    }
  }

  lemma {:induction false} CountPresent(xs: seq<nat>, i: nat)
    requires i < |xs|
    ensures Count(xs, xs[i]) >= 1
  {
    var n := |xs|;
    if i < n - 1 {
      CountPresent(xs[..n - 1], i);
    }
  }

  lemma {:induction false} CountRepeated(xs: seq<nat>, i: nat, j: nat)
    requires i < j < |xs| && xs[i] == xs[j]
    ensures Count(xs, xs[i]) >= 2
  {
    var n := |xs|;
    if j < n - 1 {
      CountRepeated(xs[..n - 1], i, j);
    } else {
      CountPresent(xs[..n - 1], i);
    }
  }

  lemma {:induction false} CountDistinct(xs: seq<nat>, a: nat)
    requires forall i, j :: 0 <= i < j < |xs| ==> xs[i] != xs[j]
    ensures Count(xs, a) <= 1
  {
    var n := |xs|;
    if n > 0 {
      CountDistinct(xs[..n - 1], a);
      if xs[n - 1] == a {
        CountAbsent(xs[..n - 1], a);
      }
    }
  }

  /** The four counts of a list of axes below 4 add up to its length. */
  lemma {:induction false} CountsAddUp(xs: seq<nat>)
    requires AxesBelowFour(xs)
    ensures Count(xs, 0) + Count(xs, 1) + Count(xs, 2) + Count(xs, 3) == |xs|
  {
    if xs != [] {
      CountsAddUp(xs[..|xs| - 1]);
    }
  }

  /** The check the code makes and the usual notion agree: axes below 4 that
      are each counted once are four different axes, and four different axes
      below 4 are each counted once. */
  lemma PermutationFacts(perm: seq<nat>)
    ensures AxesBelowFour(perm) && ListsEachAxisOnce(perm) <==> IsPermutation(perm)
  {
    if AxesBelowFour(perm) && ListsEachAxisOnce(perm) {
      CountsAddUp(perm);
      forall i, j | 0 <= i < j < |perm|
        ensures perm[i] != perm[j]
      {
        if perm[i] == perm[j] {
          CountRepeated(perm, i, j);
          assert false;
        }
      }
    }
    if IsPermutation(perm) {
      CountsAddUp(perm);
      CountDistinct(perm, 0);
      CountDistinct(perm, 1);
      CountDistinct(perm, 2);
      CountDistinct(perm, 3);
    }
  }

  /** `transpose` succeeds exactly when `perm` is a permutation of 0..3 and
      the input has at least four dimensions; the output always has four,
      output dimension `i` being input dimension `perm[i]`. */
  lemma OkExactlyOnPermutations(dims: Shape, perm: seq<nat>)
    ensures Permuted(dims, perm).Ok? <==> IsPermutation(perm) && |dims| >= 4
    ensures Permuted(dims, perm).Ok? ==>
      (|Permuted(dims, perm).value| == 4
       && forall i :: 0 <= i < 4 ==> Permuted(dims, perm).value[i] == dims[perm[i]])
    ensures Permuted(dims, perm).Err? ==> IsPanic(Permuted(dims, perm))
  {
    PermutationFacts(perm);
    if IsPermutation(perm) && |dims| < 4 {
      CountPresentIndex(perm, 3);
    }
  }

  /** Every axis below 4 occurs in a permutation. */
  lemma CountPresentIndex(perm: seq<nat>, a: nat)
    requires IsPermutation(perm) && a < 4
    ensures exists i :: 0 <= i < 4 && perm[i] == a
  {
    PermutationFacts(perm);
    if forall i :: 0 <= i < 4 ==> perm[i] != a {
      CountAbsent(perm, a);
    }
  }

  /** The index at which `perm` holds `a`. */
  function IndexOf(perm: seq<nat>, a: nat): (i: nat)
    requires a in perm
    ensures i < |perm| && perm[i] == a
  {
    if perm[0] == a then 0 else 1 + IndexOf(perm[1..], a)
  }

  /** The permutation that undoes `perm`: it is a permutation too, and
      applying either after the other is the identity. */
  function Inverse(perm: seq<nat>): (q: seq<nat>)
    requires IsPermutation(perm)
    ensures IsPermutation(q)
    ensures forall a :: 0 <= a < 4 ==> perm[q[a]] == a
    ensures forall i :: 0 <= i < 4 ==> q[perm[i]] == i
  {
    forall a | 0 <= a < 4
      ensures a in perm
    {
      CountPresentIndex(perm, a);
    }
    var q := seq(4, a requires 0 <= a < 4 => IndexOf(perm, a));
    assert forall a, b :: 0 <= a < b < 4 ==> q[a] != q[b] by {
      forall a, b | 0 <= a < b < 4
        ensures q[a] != q[b]
      {
        assert perm[q[a]] == a && perm[q[b]] == b;
      }
    }
    q
  }

  /** Transposing by `perm` and then by its inverse gives back a
      four-dimensional input. */
  lemma InverseRoundTrip(dims: Shape, perm: seq<nat>)
    requires IsPermutation(perm) && |dims| == 4
    ensures Permuted(dims, perm).Ok?
    ensures Permuted(Permuted(dims, perm).value, Inverse(perm)) == Ok(dims)
  {
    OkExactlyOnPermutations(dims, perm);
    var t := Permuted(dims, perm).value;
    var q := Inverse(perm);
    OkExactlyOnPermutations(t, q);
    var back := Permuted(t, q).value;
    forall a | 0 <= a < 4
      ensures back[a] == dims[a]
    {
      assert back[a] == t[q[a]] == dims[perm[q[a]]];
    }
    assert back == dims;
  }

  /** NCHW to NHWC: `[0, 2, 3, 1]` moves the channels last. */
  lemma ChannelsLast()
    ensures Permuted([1, 3, 224, 224], [0, 2, 3, 1]) == Ok([1, 224, 224, 3])
  {
    var perm: seq<nat> := [0, 2, 3, 1];
    assert IsPermutation(perm);
    OkExactlyOnPermutations([1, 3, 224, 224], perm);
    var t := Permuted([1, 3, 224, 224], perm).value;
    assert t[0] == 1 && t[1] == 224 && t[2] == 224 && t[3] == 3;
    assert t == [1, 224, 224, 3];
  }

  /** `Transpose::realize`: exactly one provider; a zero tensor of its dtype in
      the permuted shape, at no cost. */
  function Realize(op: Transpose, providers: seq<Tensors.Tensor>): (r: Result<RealizedOp>)
    ensures |providers| != 1 ==> r == Err(ProviderCount(1, 1, |providers|, NAME))
    ensures |providers| == 1 ==>
      var s := Permuted(providers[0].shape, op.perm);
      (r.Ok? <==> s.Ok?)
      && (r.Err? ==> r.fault == s.fault)
      && (r.Ok? ==> r.value.cost == ZeroCost && r.value.outputs == [New(providers[0].dt, s.value)])
  {
    if |providers| != 1 then Err(ProviderCount(1, 1, |providers|, NAME))
    else
      var s := Permuted(providers[0].shape, op.perm);
      if s.Err? then Err(s.fault)
      else Ok(RealizedZeroCost([New(providers[0].dt, s.value)]))
  }
}

/** `Transpose` (crates/ir/src/ops/shape/transpose.rs): the same `transpose`
    as the steelix tree (and the same builder), but the output is always F32. */
module CratesTranspose {
  import opened Wrappers
  import opened Tensors
  import opened IrCore
  import SteelixTranspose

  const NAME: string := "Transpose"
  const GROUP: OpGroup := OpGroup.Shape

  /** `Transpose::realize`: exactly one provider; an F32 zero tensor in the
      permuted shape, at no cost. */
  function Realize(op: SteelixTranspose.Transpose, providers: seq<Tensors.Tensor>): (r: Result<RealizedOp>)
    ensures |providers| != 1 ==> r == Err(ProviderCount(1, 1, |providers|, NAME))
    ensures |providers| == 1 ==>
      var s := SteelixTranspose.Permuted(providers[0].shape, op.perm);
      (r.Ok? <==> s.Ok?)
      && (r.Err? ==> r.fault == s.fault)
      && (r.Ok? ==> r.value.cost == ZeroCost && r.value.outputs == [New(F32, s.value)])
  {
    if |providers| != 1 then Err(ProviderCount(1, 1, |providers|, NAME))
    else
      var s := SteelixTranspose.Permuted(providers[0].shape, op.perm);
      if s.Err? then Err(s.fault)
      else Ok(RealizedZeroCost([New(F32, s.value)]))
  }

  /** The two trees agree on everything but the output dtype, and agree
      entirely on an F32 input. */
  lemma TreesDifferOnlyInDType(op: SteelixTranspose.Transpose, providers: seq<Tensors.Tensor>)
    ensures Realize(op, providers).Ok? <==> SteelixTranspose.Realize(op, providers).Ok?
    ensures Realize(op, providers).Ok? ==>
      var c, s := Realize(op, providers).value, SteelixTranspose.Realize(op, providers).value;
      c.cost == s.cost && c.outputs[0].shape == s.outputs[0].shape
      && (providers[0].dt == F32 <==> c == s)
  {
  }
}
