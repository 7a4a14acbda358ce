/** `Squeeze` (steelix/src/ir/ops/shape/squeeze.rs): drops the listed axes, or
    every dimension of size 1 when no axes are given. */
module SteelixSqueeze {
  import opened Wrappers
  import opened Numerics
  import opened Shapes
  import opened Tensors
  import opened IrCore

  const NAME: string := "Squeeze"
  const GROUP: OpGroup := OpGroup.Shape

  datatype Squeeze = Squeeze(axes: Option<seq<nat>>)

  /** The entries of `dims` whose position is not listed in `axes`, in order;
      `from` is the position of `dims[0]` in the whole shape (the `enumerate`
      index). */
  function Unlisted(dims: Shape, axes: seq<nat>, from: nat): (r: Shape)
    ensures |r| <= |dims|
  {
    if dims == [] then []
    else (if from in axes then [] else [dims[0]]) + Unlisted(dims[1..], axes, from + 1)
  }

  /** The entries of `dims` other than 1, in order. */
  function DropOnes(dims: Shape): (r: Shape)
    ensures |r| <= |dims|
    ensures forall i :: 0 <= i < |r| ==> r[i] != 1
  {
    if dims == [] then [] else (if dims[0] == 1 then [] else [dims[0]]) + DropOnes(dims[1..])
  }

  /** `Squeeze::squeeze`: with `axes`, the dimensions at unlisted positions;
      without, the dimensions other than 1. */
  function Squeezed(op: Squeeze, dims: Shape): Shape
  {
    if op.axes.Some? then Unlisted(dims, op.axes.value, 0) else DropOnes(dims)
  }

  /** `realize`: there is no provider-count check, so an empty provider list
      fails when `providers[0]` is read. */
  function Realize(op: Squeeze, providers: seq<Tensors.Tensor>): (r: Result<RealizedOp>)
    ensures r.Err? <==> providers == []
    ensures r.Err? ==> r.fault == Panic(OUT_OF_BOUNDS)
    ensures r.Ok? ==> r.value.cost == ZeroCost
                      && r.value.outputs == [New(providers[0].dt, Squeezed(op, providers[0].shape))]
  {
    if providers == [] then Err(Panic(OUT_OF_BOUNDS))
    else Ok(RealizedZeroCost([New(providers[0].dt, Squeezed(op, providers[0].shape))]))
  }

  /** `build_squeeze`: the `axes` attribute is required and its `i64` entries
      are cast to `usize`; the op always has `Some` axes. */
  function Build(axes: Option<seq<int>>): (r: Result<Squeeze>)
    ensures r.Ok? <==> axes.Some?
    ensures r.Err? ==> r.fault == Bail("axes")
    ensures r.Ok? ==> (r.value.axes.Some? && |r.value.axes.value| == |axes.value|
                       && forall i :: 0 <= i < |axes.value| ==> r.value.axes.value[i] == AsUsize(axes.value[i]))
  {
    if axes.None? then Err(Bail("axes"))
    else Ok(Squeeze(Some(seq(|axes.value|, i requires 0 <= i < |axes.value| => AsUsize(axes.value[i])))))
  }

  // ---------------------------------------------------------------------------
  // The listed-axes filter

  /** The filter works position by position: the dimensions kept from `u + v`
      are those kept from `u`, then those kept from `v`. */
  lemma {:induction false} UnlistedAppend(u: Shape, v: Shape, axes: seq<nat>, from: nat)
    ensures Unlisted(u + v, axes, from) == Unlisted(u, axes, from) + Unlisted(v, axes, from + |u|)
  {
    if u == [] {
      assert u + v == v;
    } else {
      assert (u + v)[1..] == u[1..] + v;
      UnlistedAppend(u[1..], v, axes, from + 1);
    }
  }

  /** When no position is listed, every dimension is kept. */
  lemma {:induction false} UnlistedNoneListed(dims: Shape, axes: seq<nat>, from: nat)
    requires forall p :: from <= p < from + |dims| ==> p !in axes
    ensures Unlisted(dims, axes, from) == dims
  {
    if dims != [] {
      UnlistedNoneListed(dims[1..], axes, from + 1);
    }
  }

  /** When every position is listed, nothing is kept. */
  lemma {:induction false} UnlistedAllListed(dims: Shape, axes: seq<nat>, from: nat)
    requires forall p :: from <= p < from + |dims| ==> p in axes
    ensures Unlisted(dims, axes, from) == []
  {
    if dims != [] {
      UnlistedAllListed(dims[1..], axes, from + 1);
    }
  }

  /** Only the listed positions within the shape matter: two axis lists that
      agree on them keep the same dimensions. */
  lemma {:induction false} UnlistedSameListing(dims: Shape, axes: seq<nat>, axes': seq<nat>, from: nat)
    requires forall p :: from <= p < from + |dims| ==> (p in axes <==> p in axes')
    ensures Unlisted(dims, axes, from) == Unlisted(dims, axes', from)
  {
    if dims != [] {
      UnlistedSameListing(dims[1..], axes, axes', from + 1);
    }
  }

  /** Dropping listed dimensions of size 1 keeps the element count. */
  lemma {:induction false} UnlistedKeepsProduct(dims: Shape, axes: seq<nat>, from: nat)
    requires forall p :: from <= p < from + |dims| && p in axes ==> dims[p - from] == 1
    ensures Product(Unlisted(dims, axes, from)) == Product(dims)
  {
    if dims != [] {
      UnlistedKeepsProduct(dims[1..], axes, from + 1);
      var head := if from in axes then [] else [dims[0]];
      ProductAppend(head, Unlisted(dims[1..], axes, from + 1));
    }
  }

  /** Listing exactly the positions of the 1s gives what the axis-free form
      gives. */
  lemma {:induction false} ListingTheOnesDropsTheOnes(dims: Shape, axes: seq<nat>, from: nat)
    requires forall p :: from <= p < from + |dims| ==> (p in axes <==> dims[p - from] == 1)
    ensures Unlisted(dims, axes, from) == DropOnes(dims)
  {
    if dims != [] {
      ListingTheOnesDropsTheOnes(dims[1..], axes, from + 1);
    }
  }

  /** A listed axis is dropped whatever its size: squeezing axis 0 of a 3 x 4
      shape leaves `[4]` and loses a factor 3 of the element count. */
  lemma ListedAxisDroppedWhateverItsSize()
    ensures Squeezed(Squeeze(Some([0])), [3, 4]) == [4]
    ensures Product([4]) != Product([3, 4])
  {
    assert [3, 4][1..] == [4];
    assert Unlisted([4], [0], 1) == [4];
  }

  // ---------------------------------------------------------------------------
  // The axis-free form

  lemma {:induction false} DropOnesKeepsProduct(dims: Shape)
    ensures Product(DropOnes(dims)) == Product(dims)
  {
    if dims != [] {
      DropOnesKeepsProduct(dims[1..]);
      ProductAppend(if dims[0] == 1 then [] else [dims[0]], DropOnes(dims[1..]));
    }
  }

  /** Squeezing twice without axes is squeezing once. */
  lemma {:induction false} DropOnesIdempotent(dims: Shape)
    ensures DropOnes(DropOnes(dims)) == DropOnes(dims)
  {
    DropOnesOfNoOnes(DropOnes(dims));
  }

  lemma {:induction false} DropOnesOfNoOnes(dims: Shape)
    requires forall i :: 0 <= i < |dims| ==> dims[i] != 1
    ensures DropOnes(dims) == dims
  {
    if dims != [] {
      DropOnesOfNoOnes(dims[1..]);
    }
  }

  /** Every dimension other than 1 survives, in order: the kept dimensions are
      exactly those other than 1. */
  lemma {:induction false} DropOnesKeepsOthers(dims: Shape, i: nat)
    requires i < |dims| && dims[i] != 1
    ensures dims[i] in DropOnes(dims)
  {
    if i > 0 {
      DropOnesKeepsOthers(dims[1..], i - 1);
    }
  }

  // ---------------------------------------------------------------------------
  // The two unit tests

  /** `[1, 1, 2, 5, 5]` without axes squeezes to `[2, 5, 5]`. */
  lemma SqueezeWithoutAxes()
    ensures Squeezed(Squeeze(None), [1, 1, 2, 5, 5]) == [2, 5, 5]
  {
    var d := [1, 1, 2, 5, 5];
    assert d[1..] == [1, 2, 5, 5] && d[1..][1..] == [2, 5, 5];
    DropOnesOfNoOnes([2, 5, 5]);
  }

  /** `[1, 1, 5, 5]` with axes `[0, 1]` squeezes to `[5, 5]`. */
  lemma SqueezeWithAxes()
    ensures Squeezed(Squeeze(Some([0, 1])), [1, 1, 5, 5]) == [5, 5]
  {
    var d := [1, 1, 5, 5];
    assert d == [1, 1] + [5, 5];
    UnlistedAppend([1, 1], [5, 5], [0, 1], 0);
    UnlistedAllListed([1, 1], [0, 1], 0);
    UnlistedNoneListed([5, 5], [0, 1], 2);
  }
}
