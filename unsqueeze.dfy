/** `Unsqueeze` (crates/ir/src/ops/shape/unsqueeze.rs): sorts the axes and
    inserts a dimension of size 1 at each of them in turn. */
module CratesUnsqueeze {
  import opened Wrappers
  import opened Numerics
  import opened Shapes
  import opened Tensors
  import opened IrCore
  import SteelixSqueeze

  const NAME: string := "Unsqueeze"
  const GROUP: OpGroup := OpGroup.Shape

  const NO_AXES: string := "Invalid parameters for Unsqueeze."
  /** The assertion of the small-vector `insert` (paraphrased). */
  const INSERT_PAST_END: string := "index exceeds length"

  datatype Unsqueeze = Unsqueeze(axes: Option<seq<int>>)

  // ---------------------------------------------------------------------------
  // Sorting the axes

  predicate Ascending(xs: seq<int>)
  {
    forall i, j :: 0 <= i < j < |xs| ==> xs[i] <= xs[j]
  }

  /** `x` placed after the entries of the ascending `xs` that are not above it. */
  function InsertSorted(xs: seq<int>, x: int): (r: seq<int>)
    requires Ascending(xs)
    ensures |r| == |xs| + 1 && Ascending(r)
    ensures multiset(r) == multiset(xs) + multiset{x}
    ensures forall k :: 0 <= k < |r| ==> r[k] == x || r[k] in xs
  {
    if xs == [] || x < xs[0] then [x] + xs
    else
      var rest := InsertSorted(xs[1..], x);
      InsertedBehindHead(xs, x, rest);
      [xs[0]] + rest
  }

  /** The recursive case of `InsertSorted`: the head stays in front. */
  lemma InsertedBehindHead(xs: seq<int>, x: int, rest: seq<int>)
    requires Ascending(xs) && xs != [] && xs[0] <= x
    requires |rest| == |xs| && Ascending(rest)
    requires multiset(rest) == multiset(xs[1..]) + multiset{x}
    requires forall k :: 0 <= k < |rest| ==> rest[k] == x || rest[k] in xs[1..]
    ensures var r := [xs[0]] + rest;
      && Ascending(r) && multiset(r) == multiset(xs) + multiset{x}
      && forall k :: 0 <= k < |r| ==> r[k] == x || r[k] in xs
  {
    assert xs == [xs[0]] + xs[1..];
    HeadIsLeast(xs);
    var r := [xs[0]] + rest;
    forall i, j | 0 <= i < j < |r|
      ensures r[i] <= r[j]
    {
      assert r[j] == rest[j - 1];
      if i > 0 {
        assert r[i] == rest[i - 1];
      }
    }
    forall k | 0 <= k < |r|
      ensures r[k] == x || r[k] in xs
    {
      if k > 0 {
        assert r[k] == rest[k - 1];
      }
    }
  }

  /** The head of an ascending sequence is its least entry. */
  lemma HeadIsLeast(xs: seq<int>)
    requires Ascending(xs) && xs != []
    ensures forall y :: y in xs ==> xs[0] <= y
  {
    forall y | y in xs
      ensures xs[0] <= y
    {
      var j :| 0 <= j < |xs| && xs[j] == y;
      assert j == 0 || xs[0] <= xs[j];
    }
  }

  /** `axes.sort_by(partial_cmp)`: the axes in ascending order, the same
      entries as many times each. */
  function SortAxes(xs: seq<int>): (r: seq<int>)
    ensures |r| == |xs| && Ascending(r)
    ensures multiset(r) == multiset(xs)
  {
    if xs == [] then []
    else
      var n := |xs|;
      assert xs == xs[..n - 1] + [xs[n - 1]];
      InsertSorted(SortAxes(xs[..n - 1]), xs[n - 1])
  }

  // ---------------------------------------------------------------------------
  // Inserting in turn

  /** The `i`-th sorted axis is at most the length of the shape after `i`
      insertions, so every insertion is in range. */
  predicate FitsInTurn(shape: Shape, axes: seq<int>)
  {
    forall i :: 0 <= i < |axes| ==> axes[i] <= |shape| + i
  }

  /** `new_shape.insert(axis, 1)` for each axis in order. */
  function InsertedInTurn(shape: Shape, axes: seq<int>): (r: Shape)
    requires NonNegative(axes) && FitsInTurn(shape, axes)
    ensures |r| == |shape| + |axes|
  {
    if axes == [] then shape
    else
      var n := |axes|;
      var t := InsertedInTurn(shape, axes[..n - 1]);
      var p := axes[n - 1] as nat;
      t[..p] + [1] + t[p..]
  }

  /** What `unsqueeze` computes for `input.shape`: a negative axis sorts first
      and fails its cast to `usize`; otherwise the first axis past the end of
      the shape built so far fails the insertion. */
  function Unsqueezed(shape: Shape, axes: seq<int>): (r: Result<Shape>)
    ensures r.Err? ==> r.fault.Panic?
    ensures r.Ok? ==> |r.value| == |shape| + |axes|
  {
    var sorted := SortAxes(axes);
    if !NonNegative(sorted) then Err(Panic(UNWRAP_NONE))
    else if !FitsInTurn(shape, sorted) then Err(Panic(INSERT_PAST_END))
    else Ok(InsertedInTurn(shape, sorted))
  }

  /** One more axis that casts and fits keeps both facts for the longer prefix. */
  lemma PrefixStep(shape: Shape, xs: seq<int>, i: nat)
    requires i < |xs| && NonNegative(xs[..i]) && FitsInTurn(shape, xs[..i])
    requires 0 <= xs[i] <= |shape| + i
    ensures xs[..i + 1][..i] == xs[..i] && xs[..i + 1][i] == xs[i]
    ensures NonNegative(xs[..i + 1]) && FitsInTurn(shape, xs[..i + 1])
    ensures var t, p := InsertedInTurn(shape, xs[..i]), xs[i] as nat;
      InsertedInTurn(shape, xs[..i + 1]) == t[..p] + [1] + t[p..]
  {
    var ys := xs[..i + 1];
    assert ys[..i] == xs[..i] && ys[i] == xs[i];
    forall k | 0 <= k < i + 1
      ensures 0 <= ys[k] <= |shape| + k
    {
      if k < i {
        assert ys[k] == xs[..i][k];
      }
    }
  }

  /** Past the first sorted axis that does not fit, the whole list fails to fit. */
  lemma PastEndFails(shape: Shape, xs: seq<int>, i: nat)
    requires Ascending(xs) && i < |xs| && NonNegative(xs[..i]) && xs[i] > |shape| + i
    ensures NonNegative(xs) && !FitsInTurn(shape, xs)
  {
    forall k | 0 <= k < |xs|
      ensures xs[k] >= 0
    {
      if k < i {
        assert xs[k] == xs[..i][k];
      }
    }
  }

  /** `Unsqueeze::unsqueeze` as written: sort, then insert a 1 at each axis. */
  method InsertOnes(shape: Shape, axes: seq<int>) returns (r: Result<Shape>)
    ensures r == Unsqueezed(shape, axes)
  {
    var sorted := SortAxes(axes);
    var newShape := shape;
    for i := 0 to |sorted|
      invariant NonNegative(sorted[..i]) && FitsInTurn(shape, sorted[..i])
      invariant newShape == InsertedInTurn(shape, sorted[..i])
    {
      var axis := sorted[i];
      if axis < 0 {
        return Err(Panic(UNWRAP_NONE));
      }
      if axis > |newShape| {
        PastEndFails(shape, sorted, i);
        return Err(Panic(INSERT_PAST_END));
      }
      PrefixStep(shape, sorted, i);
      newShape := newShape[..axis] + [1] + newShape[axis..];
    }
    assert sorted[..|sorted|] == sorted;
    r := Ok(newShape);
  }

  /** `realize`: one or two providers; with one, the `axes` attribute is
      needed. The attribute wins; otherwise the second provider's buffer is
      read as `i64` values, whatever its dtype. */
  function Realize(op: Unsqueeze, providers: seq<Tensors.Tensor>): (r: Result<RealizedOp>)
    requires op.axes.None? && |providers| == 2 ==> providers[1].len * SizeOf(I64) <= |providers[1].data|
    ensures !(1 <= |providers| <= 2) ==> r == Err(ProviderCount(1, 2, |providers|, NAME))
    ensures |providers| == 1 && op.axes.None? ==> r == Err(Bail(NO_AXES))
    ensures (1 <= |providers| <= 2 && (op.axes.Some? || |providers| == 2)) ==>
      var axes := if op.axes.Some? then op.axes.value
                  else DecodeValues(providers[1].data, I64, providers[1].len);
      var s := Unsqueezed(providers[0].shape, axes);
      (r.Ok? <==> s.Ok?)
      && (r.Err? ==> r.fault == s.fault)
      && (r.Ok? ==> r.value.cost == ZeroCost && r.value.outputs == [New(providers[0].dt, s.value)])
  {
    if !(1 <= |providers| <= 2) then Err(ProviderCount(1, 2, |providers|, NAME))
    else if |providers| == 1 && op.axes.None? then Err(Bail(NO_AXES))
    else
      var axes := if op.axes.Some? then op.axes.value
                  else DecodeValues(providers[1].data, I64, providers[1].len);
      var s := Unsqueezed(providers[0].shape, axes);
      if s.Err? then Err(s.fault)
      else Ok(RealizedZeroCost([New(providers[0].dt, s.value)]))
  }

  /** `build_unsqueeze`: the `axes` attribute is optional. */
  function Build(axes: Option<seq<int>>): (r: Unsqueeze)
    ensures r.axes == axes
  {
    Unsqueeze(axes)
  }

  // ---------------------------------------------------------------------------
  // Properties

  /** Sorting ascending axes changes nothing. */
  lemma {:induction false} SortAxesOfAscending(xs: seq<int>)
    requires Ascending(xs)
    ensures SortAxes(xs) == xs
  {
    if xs != [] {
      var n := |xs|;
      SortAxesOfAscending(xs[..n - 1]);
      InsertSortedLast(xs[..n - 1], xs[n - 1]);
      assert xs[..n - 1] + [xs[n - 1]] == xs;
    }
  }

  lemma {:induction false} InsertSortedLast(xs: seq<int>, x: int)
    requires Ascending(xs) && forall k :: 0 <= k < |xs| ==> xs[k] <= x
    ensures InsertSorted(xs, x) == xs + [x]
  {
    if xs != [] {
      InsertSortedLast(xs[1..], x);
      assert [xs[0]] + (xs[1..] + [x]) == xs + [x];
    }
  }

  /** Two ascending sequences with the same entries are equal: the sorted form
      depends only on the entries. */
  lemma {:induction false} AscendingUnique(a: seq<int>, b: seq<int>)
    requires Ascending(a) && Ascending(b) && multiset(a) == multiset(b)
    ensures a == b
  {
    if a != [] {
      SameHead(a, b);
      AscendingUnique(a[1..], b[1..]);
      assert a == [a[0]] + a[1..] && b == [b[0]] + b[1..];
    } else {
      assert |multiset(b)| == 0;
    }
  }

  /** Two non-empty ascending sequences with the same entries have the same
      head, and their tails have the same entries. */
  lemma SameHead(a: seq<int>, b: seq<int>)
    requires Ascending(a) && Ascending(b) && multiset(a) == multiset(b) && a != []
    ensures b != [] && a[0] == b[0] && multiset(a[1..]) == multiset(b[1..])
  {
    HeadsAgree(a, b);
    TailEntries(a);
    TailEntries(b);
  }

  lemma HeadsAgree(a: seq<int>, b: seq<int>)
    requires Ascending(a) && Ascending(b) && multiset(a) == multiset(b) && a != []
    ensures b != [] && a[0] == b[0]
  {
    assert a[0] in multiset(b);
    assert b[0] in multiset(a);
    HeadIsLeast(a);
    HeadIsLeast(b);
  }

  lemma TailEntries(a: seq<int>)
    requires a != []
    ensures multiset(a[1..]) == multiset(a) - multiset{a[0]}
  {
    assert a == [a[0]] + a[1..];
  }

  /** The order in which the axes are listed does not matter. */
  lemma AxisOrderIrrelevant(shape: Shape, a: seq<int>, b: seq<int>)
    requires multiset(a) == multiset(b)
    ensures Unsqueezed(shape, a) == Unsqueezed(shape, b)
  {
    AscendingUnique(SortAxes(a), SortAxes(b));
  }

  /** A negative axis anywhere makes the cast fail. */
  lemma NegativeAxisPanics(shape: Shape, axes: seq<int>, i: nat)
    requires i < |axes| && axes[i] < 0
    ensures Unsqueezed(shape, axes) == Err(Panic(UNWRAP_NONE))
  {
    var sorted := SortAxes(axes);
    assert axes[i] in multiset(sorted);
    assert axes[i] in sorted;
  }

  predicate StrictlyAscending(xs: seq<int>)
  {
    forall i, j :: 0 <= i < j < |xs| ==> xs[i] < xs[j]
  }

  lemma {:induction false} StrictGap(xs: seq<int>, i: nat, j: nat)
    requires StrictlyAscending(xs) && i <= j < |xs|
    ensures xs[j] - xs[i] >= j - i
  {
    if i < j {
      StrictGap(xs, i, j - 1);
    }
  }

  /** Distinct ascending axes, each a valid position of the output, fit in turn. */
  lemma DistinctAxesFit(shape: Shape, axes: seq<nat>)
    requires StrictlyAscending(axes)
    requires forall i :: 0 <= i < |axes| ==> axes[i] < |shape| + |axes|
    ensures FitsInTurn(shape, axes)
  {
    forall i | 0 <= i < |axes|
      ensures axes[i] <= |shape| + i
    {
      StrictGap(axes, i, |axes| - 1);
    }
  }

  /** Inserting a 1 at `p`, above every listed position, and listing `p` as
      well keeps the same dimensions as before. */
  lemma InsertOneThenSqueeze(t: Shape, front: seq<nat>, p: nat)
    requires p <= |t| && forall q :: q in front ==> q < p
    ensures SteelixSqueeze.Unlisted(t[..p] + [1] + t[p..], front + [p], 0)
            == SteelixSqueeze.Unlisted(t, front, 0)
  {
    InsertedOneDropped(t, front, p);
    assert t == t[..p] + t[p..];
    SteelixSqueeze.UnlistedAppend(t[..p], t[p..], front, 0);
    SteelixSqueeze.UnlistedNoneListed(t[p..], front, p);
  }

  lemma InsertedOneDropped(t: Shape, front: seq<nat>, p: nat)
    requires p <= |t| && forall q :: q in front ==> q < p
    ensures SteelixSqueeze.Unlisted(t[..p] + [1] + t[p..], front + [p], 0)
            == SteelixSqueeze.Unlisted(t[..p], front, 0) + t[p..]
  {
    var axes := front + [p];
    SteelixSqueeze.UnlistedAppend(t[..p] + [1], t[p..], axes, 0);
    SteelixSqueeze.UnlistedAppend(t[..p], [1], axes, 0);
    SteelixSqueeze.UnlistedSameListing(t[..p], axes, front, 0);
    assert SteelixSqueeze.Unlisted([1], axes, p) == [];
    SteelixSqueeze.UnlistedNoneListed(t[p..], axes, p + 1);
  }

  /** Inserting at distinct ascending positions puts a 1 at every listed
      position, and squeezing those positions gives the shape back. */
  lemma {:induction false} InsertedThenSqueezed(shape: Shape, axes: seq<nat>)
    requires StrictlyAscending(axes) && FitsInTurn(shape, axes)
    ensures var out := InsertedInTurn(shape, axes);
      (forall i :: 0 <= i < |axes| ==> axes[i] < |out| && out[axes[i]] == 1)
      && SteelixSqueeze.Unlisted(out, axes, 0) == shape
  {
    if axes != [] {
      var n := |axes|;
      var front := axes[..n - 1];
      var p := axes[n - 1];
      InsertedThenSqueezed(shape, front);
      var t := InsertedInTurn(shape, front);
      var out := t[..p] + [1] + t[p..];
      assert out == InsertedInTurn(shape, axes);
      assert forall q :: q in front ==> q < p;
      assert axes == front + [p];
      InsertOneThenSqueeze(t, front, p);
      OnesStay(t, front, p);
    } else {
      SteelixSqueeze.UnlistedNoneListed(shape, axes, 0);
    }
  }

  /** Inserting a 1 at `p`, behind every earlier position, keeps the 1s there. */
  lemma OnesStay(t: Shape, front: seq<nat>, p: nat)
    requires p <= |t| && forall q :: q in front ==> q < p
    requires forall i :: 0 <= i < |front| ==> front[i] < |t| && t[front[i]] == 1
    ensures var out, axes := t[..p] + [1] + t[p..], front + [p];
      forall i :: 0 <= i < |axes| ==> axes[i] < |out| && out[axes[i]] == 1
  {
    var out, axes := t[..p] + [1] + t[p..], front + [p];
    forall i | 0 <= i < |axes|
      ensures axes[i] < |out| && out[axes[i]] == 1
    {
      if i < |front| {
        assert axes[i] == front[i] && front[i] in front;
      }
    }
  }

  /** For distinct axes, each a valid position of the output, unsqueezing puts
      a 1 at each listed position and `Squeeze` with the same axes undoes it. */
  lemma SqueezeUndoesUnsqueeze(shape: Shape, axes: seq<nat>)
    requires StrictlyAscending(axes)
    requires forall i :: 0 <= i < |axes| ==> axes[i] < |shape| + |axes|
    ensures Unsqueezed(shape, axes).Ok?
    ensures var out := Unsqueezed(shape, axes).value;
      (forall i :: 0 <= i < |axes| ==> out[axes[i]] == 1)
      && SteelixSqueeze.Squeezed(SteelixSqueeze.Squeeze(Some(axes)), out) == shape
  {
    assert Ascending(axes);
    SortAxesOfAscending(axes);
    DistinctAxesFit(shape, axes);
    InsertedThenSqueezed(shape, axes);
  }

  /** `[3, 4, 5]` with axes `[0, 4]` becomes `[1, 3, 4, 5, 1]`. */
  lemma UnsqueezeTest()
    ensures Unsqueezed([3, 4, 5], [0, 4]) == Ok([1, 3, 4, 5, 1])
  {
    var shape: Shape := [3, 4, 5];
    var axes: seq<int> := [0, 4];
    SortAxesOfAscending(axes);
    assert NonNegative(axes) && FitsInTurn(shape, axes);
    InsertedExample();
  }

  lemma InsertedExample()
    ensures NonNegative([0, 4]) && FitsInTurn([3, 4, 5], [0, 4])
    ensures InsertedInTurn([3, 4, 5], [0, 4]) == [1, 3, 4, 5, 1]
  {
    var shape: Shape := [3, 4, 5];
    var axes: seq<int> := [0, 4];
    var s0 := InsertedInTurn(shape, []);
    var s1 := InsertedInTurn(shape, [0]);
    var s2 := InsertedInTurn(shape, axes);
    assert [0][..0] == [] && axes[..1] == [0];
    assert s1 == s0[..0] + [1] + s0[0..];
    assert s2 == s1[..4] + [1] + s1[4..];
    assert s1 == [1, 3, 4, 5];
  }

  /** The axes need not be listed in order: `[4, 0]` does the same. */
  lemma UnsqueezeTestUnordered()
    ensures Unsqueezed([3, 4, 5], [4, 0]) == Ok([1, 3, 4, 5, 1])
  {
    assert [4, 0] == [4] + [0] && [0, 4] == [0] + [4];
    assert multiset([4, 0]) == multiset([0, 4]);
    AxisOrderIrrelevant([3, 4, 5], [4, 0], [0, 4]);
    UnsqueezeTest();
  }

  /** Both unit tests: the axes as an attribute, or as an `i64` tensor. */
  lemma UnsqueezeRealized(x: Tensors.Tensor, a: Tensors.Tensor)
    requires x.shape == [3, 4, 5]
    requires a.dt == I64 && Readable(a) && IntElements(a) == [0, 4]
    ensures Realize(Unsqueeze(Some([0, 4])), [x]) == Ok(RealizedOp(ZeroCost, [New(x.dt, [1, 3, 4, 5, 1])]))
    ensures Realize(Unsqueeze(None), [x, a]) == Ok(RealizedOp(ZeroCost, [New(x.dt, [1, 3, 4, 5, 1])]))
  {
    UnsqueezeTest();
  }
}
