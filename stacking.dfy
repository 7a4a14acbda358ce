/** `Tensor::stack_tensors` (crates/ir/src/tensor.rs): joins tensors along one axis.

    The shape rule: every dimension other than `axis` must agree with the first
    tensor's, and the stacked dimension is the sum. The data is copied only when
    every dimension before `axis` is 1, each input landing right after the one
    before it. As written the copy moves `len` BYTES per input, to a byte offset
    that advances by `len`; the model keeps that (`StackTensors`,
    `AsWrittenBytes`) and beside it the evidently intended copy of all
    `len * size_of` bytes (`Stacked`, `IntendedBytes`). */
module Stacking {
  import opened Wrappers
  import opened Shapes
  import opened Tensors
  import Numerics

  // ---------------------------------------------------------------------------
  // The shape rule

  /** The `ensure!` for one axis: `all` walks the tensors in order and stops at the
      first mismatch; indexing a tensor of too small a rank panics first. */
  function CheckAxis(tensors: seq<Tensor>, want: nat, ax: nat, from: nat): Result<()>
    requires from <= |tensors|
    decreases |tensors| - from
  {
    if from == |tensors| then Ok(())
    else if |tensors[from].shape| <= ax then Err(Panic(OUT_OF_BOUNDS))
    else if tensors[from].shape[ax] != want then Err(Bail("Condition failed"))
    else CheckAxis(tensors, want, ax, from + 1)
  }

  /** The `ensure!`s for the axes `ax..` of the first tensor, skipping `axis`. */
  function CheckDims(tensors: seq<Tensor>, first: Shape, axis: nat, ax: nat): Result<()>
    requires ax <= |first|
    decreases |first| - ax
  {
    if ax == |first| then Ok(())
    else if ax == axis then CheckDims(tensors, first, axis, ax + 1)
    else
      var _ :- CheckAxis(tensors, first[ax], ax, 0);
      CheckDims(tensors, first, axis, ax + 1)
  }

  /** Every tensor has a dimension `axis`. */
  predicate HasAxis(tensors: seq<Tensor>, axis: nat)
  {
    forall k :: 0 <= k < |tensors| ==> axis < |tensors[k].shape|
  }

  /** The sum of the `axis` dimensions. */
  function AxisSum(tensors: seq<Tensor>, axis: nat): nat
    requires HasAxis(tensors, axis)
  {
    if tensors == [] then 0
    else AxisSum(tensors[..|tensors| - 1], axis) + tensors[|tensors| - 1].shape[axis]
  }

  /** Every tensor agrees with `first` on every axis of `first` but `axis`. */
  predicate Conforms(tensors: seq<Tensor>, first: Shape, axis: nat)
  {
    (forall k :: 0 <= k < |tensors| ==> |first| <= |tensors[k].shape|)
    && forall k, ax :: 0 <= k < |tensors| && 0 <= ax < |first| && ax != axis ==>
         tensors[k].shape[ax] == first[ax]
  }

  lemma {:induction false} CheckAxisOk(tensors: seq<Tensor>, want: nat, ax: nat, from: nat)
    requires from <= |tensors|
    ensures CheckAxis(tensors, want, ax, from).Ok? <==>
      forall k :: from <= k < |tensors| ==> ax < |tensors[k].shape| && tensors[k].shape[ax] == want
    ensures CheckAxis(tensors, want, ax, from).Err? ==> (CheckAxis(tensors, want, ax, from).fault.Bail? || CheckAxis(tensors, want, ax, from).fault.Panic?)
    ensures (forall k :: from <= k < |tensors| ==> ax < |tensors[k].shape|) ==>
      CheckAxis(tensors, want, ax, from).Err? ==> IsBail(CheckAxis(tensors, want, ax, from))
    decreases |tensors| - from
  {
    if from < |tensors| {
      CheckAxisOk(tensors, want, ax, from + 1);
    }
  }

  /** `t` has every axis `from..` of `first` other than `axis`, with the same size. */
  predicate AgreesFrom(t: Shape, first: Shape, axis: nat, from: nat)
  {
    forall a :: from <= a < |first| && a != axis ==> HasDim(t, a, first[a])
  }

  /** `t` has an axis `a` of size `d`. */
  predicate HasDim(t: Shape, a: nat, d: nat)
  {
    a < |t| && t[a] == d
  }

  lemma {:induction false} CheckDimsOk(tensors: seq<Tensor>, first: Shape, axis: nat, ax: nat)
    requires ax <= |first|
    ensures CheckDims(tensors, first, axis, ax).Ok? <==>
      forall k :: 0 <= k < |tensors| ==> AgreesFrom(tensors[k].shape, first, axis, ax)
    ensures CheckDims(tensors, first, axis, ax).Err? ==> (CheckDims(tensors, first, axis, ax).fault.Bail? || CheckDims(tensors, first, axis, ax).fault.Panic?)
    ensures (forall k :: 0 <= k < |tensors| ==> |first| <= |tensors[k].shape|) ==>
      CheckDims(tensors, first, axis, ax).Err? ==> IsBail(CheckDims(tensors, first, axis, ax))
    decreases |first| - ax
  {
    if ax < |first| {
      CheckDimsOk(tensors, first, axis, ax + 1);
      if ax != axis {
        var c := CheckAxis(tensors, first[ax], ax, 0);
        CheckAxisOk(tensors, first[ax], ax, 0);
        assert CheckDims(tensors, first, axis, ax)
          == if c.Err? then Err(c.fault) else CheckDims(tensors, first, axis, ax + 1);
        forall k | 0 <= k < |tensors|
          ensures AgreesFrom(tensors[k].shape, first, axis, ax) <==>
            (ax < |tensors[k].shape| && tensors[k].shape[ax] == first[ax]
             && AgreesFrom(tensors[k].shape, first, axis, ax + 1))
        {
        }
      } else {
        forall k | 0 <= k < |tensors|
          ensures AgreesFrom(tensors[k].shape, first, axis, ax) <==>
            AgreesFrom(tensors[k].shape, first, axis, ax + 1)
        {
        }
      }
    }
  }

  /** The per-axis checks passing and every tensor having the stacked axis is the
      same as every tensor conforming to the first and having that axis. */
  lemma ConformsWhenChecked(tensors: seq<Tensor>, axis: nat)
    requires tensors != []
    ensures (CheckDims(tensors, tensors[0].shape, axis, 0).Ok? && HasAxis(tensors, axis)) <==>
      (Conforms(tensors, tensors[0].shape, axis) && HasAxis(tensors, axis))
  {
    var first := tensors[0].shape;
    CheckDimsOk(tensors, first, axis, 0);
    if CheckDims(tensors, first, axis, 0).Ok? && HasAxis(tensors, axis) && first != [] {
      forall k | 0 <= k < |tensors|
        ensures |first| <= |tensors[k].shape|
      {
        var a := |first| - 1;
        assert AgreesFrom(tensors[k].shape, first, axis, 0);
        if a != axis {
          assert HasDim(tensors[k].shape, a, first[a]);
        }
      }
    }
    if Conforms(tensors, first, axis) && HasAxis(tensors, axis) {
      forall k | 0 <= k < |tensors|
        ensures AgreesFrom(tensors[k].shape, first, axis, 0)
      {
        forall a | 0 <= a < |first| && a != axis
          ensures HasDim(tensors[k].shape, a, first[a])
        {
        }
      }
    }
  }

  /** The shape `stack_tensors` gives its result, or the error it stops with. The
      first tensor is indexed unconditionally, so an empty list panics. */
  function StackShape(axis: nat, tensors: seq<Tensor>): (r: Result<Shape>)
    ensures tensors == [] ==> IsPanic(r)
    ensures tensors != [] ==>
      (r.Ok? <==> axis < |tensors[0].shape| && Conforms(tensors, tensors[0].shape, axis)
                  && HasAxis(tensors, axis))
    ensures r.Ok? ==> HasAxis(tensors, axis) && axis < |tensors[0].shape|
    ensures r.Ok? ==> r.value == tensors[0].shape[axis := AxisSum(tensors, axis)]
    ensures r.Err? ==> (r.fault.Bail? || r.fault.Panic?)
  {
    if tensors == [] then Err(Panic(OUT_OF_BOUNDS))
    else
      var first := tensors[0].shape;
      CheckDimsOk(tensors, first, axis, 0);
      ConformsWhenChecked(tensors, axis);
      var _ :- CheckDims(tensors, first, axis, 0);
      if !HasAxis(tensors, axis) then Err(Panic(OUT_OF_BOUNDS))
      else Ok(first[axis := AxisSum(tensors, axis)])
  }

  /** When no input has more dimensions than the first, a shape mismatch is
      reported as an error rather than a panic, and only the axis of the first
      tensor being out of range panics. */
  lemma MismatchIsAnError(axis: nat, tensors: seq<Tensor>)
    requires tensors != [] && axis < |tensors[0].shape|
    requires forall k :: 0 <= k < |tensors| ==> |tensors[k].shape| == |tensors[0].shape|
    ensures StackShape(axis, tensors).Err? ==> IsBail(StackShape(axis, tensors))
  {
    CheckDimsOk(tensors, tensors[0].shape, axis, 0);
  }

  // ---------------------------------------------------------------------------
  // The data

  /** The inputs the byte copy reads: valid tensors. */
  predicate StackInputs(tensors: seq<Tensor>)
  {
    forall k :: 0 <= k < |tensors| ==> Valid(tensors[k])
  }

  /** No input of a higher rank than the first. The shape check only inspects the
      first tensor's axes, so a later input may have more; only then can the
      inputs hold more elements than the stacked shape. */
  predicate RanksWithinFirst(tensors: seq<Tensor>)
  {
    forall k :: 0 <= k < |tensors| ==> |tensors[k].shape| <= |tensors[0].shape|
  }

  /** What `stack_tensors` does when the copy would write past the end of the
      result buffer. */
  const OVERRUN: string := "copy past the end of the result buffer"

  function SumLens(tensors: seq<Tensor>): nat
  {
    if tensors == [] then 0 else SumLens(tensors[..|tensors| - 1]) + tensors[|tensors| - 1].len
  }

  /** What the copy loop writes, as written: the first `len` bytes of each input. */
  function AsWrittenBytes(tensors: seq<Tensor>): (bs: seq<Byte>)
    requires forall k :: 0 <= k < |tensors| ==> tensors[k].len <= |tensors[k].data|
    ensures |bs| == SumLens(tensors)
  {
    if tensors == [] then []
    else
      var last := tensors[|tensors| - 1];
      AsWrittenBytes(tensors[..|tensors| - 1]) + last.data[..last.len]
  }

  /** What the copy is evidently meant to write: every byte of each input. */
  function IntendedBytes(tensors: seq<Tensor>): (bs: seq<Byte>)
  {
    if tensors == [] then []
    else IntendedBytes(tensors[..|tensors| - 1]) + tensors[|tensors| - 1].data
  }

  lemma {:induction false} SumLensPrefix(tensors: seq<Tensor>, k: nat)
    requires k <= |tensors|
    ensures SumLens(tensors[..k]) <= SumLens(tensors)
    decreases |tensors| - k
  {
    if k < |tensors| {
      SumLensPrefix(tensors, k + 1);
      assert tensors[..k + 1][..k] == tensors[..k];
    } else {
      assert tensors[..k] == tensors;
    }
  }

  /** The inputs all have the first tensor's dimensions apart from `axis`. */
  predicate SameOffAxis(tensors: seq<Tensor>, first: Shape, axis: nat)
    requires axis < |first|
  {
    forall k :: 0 <= k < |tensors| ==>
      |tensors[k].shape| == |first| && tensors[k].shape[..axis] == first[..axis]
      && tensors[k].shape[axis + 1..] == first[axis + 1..]
  }

  lemma LenOffAxis(t: Tensor, first: Shape, axis: nat)
    requires axis < |first| && AllOnes(first[..axis]) && Valid(t)
    requires |t.shape| == |first| && t.shape[..axis] == first[..axis]
    requires t.shape[axis + 1..] == first[axis + 1..]
    ensures t.len == t.shape[axis] * Product(first[axis + 1..])
  {
    ProductAround(t.shape, axis);
    ProductOfOnes(first[..axis]);
  }

  /** With dimensions before `axis` all 1, each valid input holds
      `shape[axis] * product(dims after axis)` elements, so the inputs together
      hold that product times the sum of their `axis` dimensions. */
  lemma {:induction false} LensAddUp(tensors: seq<Tensor>, first: Shape, axis: nat)
    requires axis < |first| && AllOnes(first[..axis])
    requires forall k :: 0 <= k < |tensors| ==> Valid(tensors[k])
    requires SameOffAxis(tensors, first, axis)
    ensures HasAxis(tensors, axis)
    ensures SumLens(tensors) == AxisSum(tensors, axis) * Product(first[axis + 1..])
  {
    if tensors != [] {
      var init, last := tensors[..|tensors| - 1], tensors[|tensors| - 1];
      assert forall k :: 0 <= k < |init| ==> init[k] == tensors[k];
      LensAddUp(init, first, axis);
      LenOffAxis(last, first, axis);
      var tail, x, y := Product(first[axis + 1..]), AxisSum(init, axis), last.shape[axis];
      assert HasAxis(tensors, axis);
      assert SumLens(tensors) == x * tail + y * tail;
      assert (x + y) * tail == x * tail + y * tail;
    }
  }

  lemma StackedLen(axis: nat, tensors: seq<Tensor>)
    requires StackInputs(tensors) && RanksWithinFirst(tensors) && StackShape(axis, tensors).Ok?
    requires AllOnes(StackShape(axis, tensors).value[..axis])
    ensures SumLens(tensors) == Product(StackShape(axis, tensors).value)
  {
    var first := tensors[0].shape;
    var s := StackShape(axis, tensors).value;
    assert s[..axis] == first[..axis];
    assert s[axis + 1..] == first[axis + 1..];
    forall k | 0 <= k < |tensors|
      ensures |tensors[k].shape| == |first| && tensors[k].shape[..axis] == first[..axis]
        && tensors[k].shape[axis + 1..] == first[axis + 1..]
    {
      var t := tensors[k].shape;
      assert |t| == |first|;
      assert forall a :: 0 <= a < |first| && a != axis ==> t[a] == first[a];
    }
    LensAddUp(tensors, first, axis);
    ProductAround(s, axis);
    ProductOfOnes(s[..axis]);
  }

  /** `v` written over the front of a zeroed buffer of `n` bytes. */
  function Overlay(v: seq<Byte>, n: nat): (bs: seq<Byte>)
    requires |v| <= n
    ensures |bs| == n && bs[..|v|] == v
    ensures forall i :: |v| <= i < n ==> bs[i] == 0
  {
    v + ZeroBytes(n - |v|)
  }

  /** The copy as written, if it runs at all, stays inside the result buffer of
      shape `s` and dtype `dt`. */
  predicate CopyFits(tensors: seq<Tensor>, axis: nat, s: Shape, dt: DType)
  {
    axis <= |s| && AllOnes(s[..axis]) ==> SumLens(tensors) <= Product(s) * SizeOf(dt)
  }

  /** The buffer `stack_tensors` returns, as written, for a stacked shape `s`. */
  function StackedBytesAsWritten(tensors: seq<Tensor>, axis: nat, s: Shape, dt: DType): (bs: seq<Byte>)
    requires StackInputs(tensors) && StackShape(axis, tensors) == Ok(s)
    requires CopyFits(tensors, axis, s, dt)
    ensures |bs| == Product(s) * SizeOf(dt)
    ensures AllOnes(s[..axis]) ==> bs[..SumLens(tensors)] == AsWrittenBytes(tensors)
    ensures !AllOnes(s[..axis]) ==> bs == ZeroBytes(Product(s) * SizeOf(dt))
  {
    var size := Product(s) * SizeOf(dt);
    if AllOnes(s[..axis]) then Overlay(AsWrittenBytes(tensors), size)
    else ZeroBytes(size)
  }

  /** With no input of a higher rank than the first, the copy always fits: the
      inputs hold exactly the stacked shape's elements, at least one byte each. */
  lemma SameRankCopyFits(axis: nat, tensors: seq<Tensor>, dt: DType)
    requires StackInputs(tensors) && RanksWithinFirst(tensors) && StackShape(axis, tensors).Ok?
    ensures CopyFits(tensors, axis, StackShape(axis, tensors).value, dt)
  {
    var s := StackShape(axis, tensors).value;
    if AllOnes(s[..axis]) {
      StackedLen(axis, tensors);
      Numerics.MulMono(1, SizeOf(dt), Product(s));
    }
  }

  /** The `ensure!` loop of `stack_tensors` over the first tensor's axes. */
  method CheckShapes(axis: nat, tensors: seq<Tensor>) returns (r: Result<()>)
    requires tensors != []
    ensures r == CheckDims(tensors, tensors[0].shape, axis, 0)
  {
    var shape := tensors[0].shape;
    var ax := 0;
    while ax < |shape|
      invariant 0 <= ax <= |shape|
      invariant CheckDims(tensors, shape, axis, 0) == CheckDims(tensors, shape, axis, ax)
    {
      if ax != axis {
        var k := 0;
        while k < |tensors|
          invariant 0 <= k <= |tensors|
          invariant CheckAxis(tensors, shape[ax], ax, 0) == CheckAxis(tensors, shape[ax], ax, k)
        {
          if |tensors[k].shape| <= ax {
            return Err(Panic(OUT_OF_BOUNDS));
          }
          if tensors[k].shape[ax] != shape[ax] {
            return Err(Bail("Condition failed"));
          }
          k := k + 1;
        }
      }
      ax := ax + 1;
    }
    r := Ok(());
  }

  /** The sum of the `axis` dimensions; a tensor without that axis panics. */
  method SumAxis(axis: nat, tensors: seq<Tensor>) returns (r: Result<nat>)
    ensures r.Ok? <==> HasAxis(tensors, axis)
    ensures r.Ok? ==> r.value == AxisSum(tensors, axis)
    ensures r.Err? ==> r == Err(Panic(OUT_OF_BOUNDS))
  {
    var total := 0;
    var k := 0;
    while k < |tensors|
      invariant 0 <= k <= |tensors|
      invariant HasAxis(tensors[..k], axis) && total == AxisSum(tensors[..k], axis)
    {
      if |tensors[k].shape| <= axis {
        return Err(Panic(OUT_OF_BOUNDS));
      }
      assert tensors[..k + 1][..k] == tensors[..k];
      total := total + tensors[k].shape[axis];
      k := k + 1;
    }
    assert tensors[..k] == tensors;
    r := Ok(total);
  }

  /** The copy loop as written: input `k` contributes its first `len` bytes at byte
      offset `len` of the inputs before it, into a zeroed buffer. `fits` is false,
      and the copy stops, at the first input whose bytes would run past the end of
      the buffer. */
  method CopyAsWritten(buf: array<Byte>, tensors: seq<Tensor>) returns (fits: bool)
    requires forall k :: 0 <= k < |tensors| ==> tensors[k].len <= |tensors[k].data|
    requires forall i :: 0 <= i < buf.Length ==> buf[i] == 0
    modifies buf
    ensures fits <==> SumLens(tensors) <= buf.Length
    ensures fits ==> buf[..] == Overlay(AsWrittenBytes(tensors), buf.Length)
  {
    var size := buf.Length;
    var offset := 0;
    var k := 0;
    while k < |tensors|
      invariant 0 <= k <= |tensors|
      invariant offset == SumLens(tensors[..k]) && offset <= size
      invariant buf[..offset] == AsWrittenBytes(tensors[..k])
      invariant forall i :: offset <= i < size ==> buf[i] == 0
    {
      var v := tensors[k];
      SumLensPrefix(tensors, k + 1);
      assert tensors[..k + 1][..k] == tensors[..k];
      if offset + v.len > size {
        return false;
      }
      var j := 0;
      while j < v.len
        invariant 0 <= j <= v.len
        invariant buf[..offset + j] == AsWrittenBytes(tensors[..k]) + v.data[..j]
        invariant forall i :: offset + j <= i < size ==> buf[i] == 0
      {
        buf[offset + j] := v.data[j];
        assert v.data[..j + 1] == v.data[..j] + [v.data[j]];
        j := j + 1;
      }
      offset := offset + v.len;
      k := k + 1;
    }
    assert tensors[..k] == tensors;
    assert buf[..] == Overlay(AsWrittenBytes(tensors), size);
    fits := true;
  }

  /** `stack_tensors` as written. The result is `Tensor::uninitialized_dt` (a zeroed
      buffer) of the stacked shape, with each input's first `len` bytes copied in
      when the dimensions before `axis` are all 1. A copy that would run past the
      end of that buffer (possible only when a later input has a higher rank than
      the first) is `NotModelled`. */
  method StackTensors(axis: nat, tensors: seq<Tensor>) returns (r: Result<Tensor>)
    requires StackInputs(tensors)
    ensures StackShape(axis, tensors).Err? ==> r == Err(StackShape(axis, tensors).fault)
    ensures r.Ok? <==>
      StackShape(axis, tensors).Ok?
      && CopyFits(tensors, axis, StackShape(axis, tensors).value, tensors[0].dt)
    ensures StackShape(axis, tensors).Ok? && r.Err? ==> r == Err(NotModelled(OVERRUN))
    ensures r.Ok? ==>
      var s := StackShape(axis, tensors).value;
      r.value == Tensor(tensors[0].dt, s, Product(s), StackedBytesAsWritten(tensors, axis, s, tensors[0].dt))
  {
    if |tensors| == 0 {
      return Err(Panic(OUT_OF_BOUNDS));
    }
    var dt := tensors[0].dt;
    var shape := tensors[0].shape;
    var _ :- CheckShapes(axis, tensors);
    var total :- SumAxis(axis, tensors);
    shape := shape[axis := total];
    assert StackShape(axis, tensors) == Ok(shape);
    var size := Product(shape) * SizeOf(dt);
    var buf := new Byte[size](_ => 0);
    if AllOnes(shape[..axis]) {
      var fits := CopyAsWritten(buf, tensors);
      if !fits {
        return Err(NotModelled(OVERRUN));
      }
    }
    r := Ok(Tensor(dt, shape, Product(shape), buf[..]));
  }

  /** Two F32 tensors of shape [1, 1] stacked on axis 1: the result has eight bytes,
      but only one byte of each input is copied and the rest stays zero. */
  lemma StackTensorsDropsBytes()
    ensures var a := Tensor(F32, [1, 1], 1, [1, 2, 3, 4]);
      var b := Tensor(F32, [1, 1], 1, [5, 6, 7, 8]);
      StackInputs([a, b]) && StackShape(1, [a, b]) == Ok([1, 2])
      && CopyFits([a, b], 1, [1, 2], F32)
      && StackedBytesAsWritten([a, b], 1, [1, 2], F32) == [1, 5, 0, 0, 0, 0, 0, 0]
      && IntendedBytes([a, b]) == [1, 2, 3, 4, 5, 6, 7, 8]
  {
    var a := Tensor(F32, [1, 1], 1, [1, 2, 3, 4]);
    var b := Tensor(F32, [1, 1], 1, [5, 6, 7, 8]);
    ExampleShape(a, b);
    SameRankCopyFits(1, [a, b], F32);
    assert [a, b][..1] == [a] && [a][..0] == [];
    assert AllOnes([1, 2][..1]);
    assert AsWrittenBytes([a]) == [1];
    assert AsWrittenBytes([a, b]) == [1, 5];
  }

  lemma ExampleShape(a: Tensor, b: Tensor)
    requires a == Tensor(F32, [1, 1], 1, [1, 2, 3, 4]) && b == Tensor(F32, [1, 1], 1, [5, 6, 7, 8])
    ensures StackInputs([a, b]) && RanksWithinFirst([a, b]) && StackShape(1, [a, b]) == Ok([1, 2])
  {
    var ts := [a, b];
    assert ts[..1] == [a] && [a][..0] == [];
    assert CheckAxis(ts, 1, 0, 2) == Ok(());
    assert CheckAxis(ts, 1, 0, 1) == Ok(());
    assert CheckAxis(ts, 1, 0, 0) == Ok(());
    assert CheckDims(ts, [1, 1], 1, 1) == Ok(());
    assert CheckDims(ts, [1, 1], 1, 0) == Ok(());
    assert AxisSum([a], 1) == 1;
    assert AxisSum(ts, 1) == 2;
    assert [1, 1][1 := 2] == [1, 2];
  }

  /** A later input of a higher rank than the first: U8 tensors of shapes [2, 1]
      and [2, 1, 3] stacked on axis 1 give shape [2, 2]. The dimension before the
      axis is 2, so nothing is copied and the result is four zero bytes. */
  lemma HigherRankLaterInput()
    ensures var a := Tensor(U8, [2, 1], 2, [1, 2]);
      var b := Tensor(U8, [2, 1, 3], 6, [3, 4, 5, 6, 7, 8]);
      StackInputs([a, b]) && !RanksWithinFirst([a, b])
      && StackShape(1, [a, b]) == Ok([2, 2]) && CopyFits([a, b], 1, [2, 2], U8)
      && StackedBytesAsWritten([a, b], 1, [2, 2], U8) == [0, 0, 0, 0]
  {
    var a := Tensor(U8, [2, 1], 2, [1, 2]);
    var b := Tensor(U8, [2, 1, 3], 6, [3, 4, 5, 6, 7, 8]);
    assert [a, b][..1] == [a] && [a][..0] == [];
    assert Conforms([a, b], [2, 1], 1);
    assert AxisSum([a], 1) == 1;
    assert AxisSum([a, b], 1) == 2;
    assert [2, 1][1 := 2] == [2, 2];
    assert [2, 2][..1] == [2] && [2][0] != 1;
  }

  /** A copy that runs past the buffer: U8 tensors of shapes [1, 2] and [3, 2, 5]
      stacked on axis 0 give shape [4, 2], eight bytes, but the inputs hold
      2 + 30 bytes and the copy runs whatever their ranks. */
  lemma OverrunningCopy()
    ensures var a := Tensor(U8, [1, 2], 2, [1, 2]);
      var b := Tensor(U8, [3, 2, 5], 30, ZeroBytes(30));
      StackInputs([a, b]) && StackShape(0, [a, b]) == Ok([4, 2])
      && !CopyFits([a, b], 0, [4, 2], U8)
  {
    var a := Tensor(U8, [1, 2], 2, [1, 2]);
    var b := Tensor(U8, [3, 2, 5], 30, ZeroBytes(30));
    assert [a, b][..1] == [a] && [a][..0] == [];
    assert Conforms([a, b], [1, 2], 0);
    assert AxisSum([a], 0) == 1;
    assert AxisSum([a, b], 0) == 4;
    assert [1, 2][0 := 4] == [4, 2];
    assert SumLens([a]) == 2;
    assert SumLens([a, b]) == 32;
    assert [4, 2][..0] == [] && AllOnes([]);
  }

  // ---------------------------------------------------------------------------
  // The corrected copy

  lemma {:induction false} IntendedLength(tensors: seq<Tensor>)
    requires forall k :: 0 <= k < |tensors| ==> Valid(tensors[k])
    requires forall k :: 0 <= k < |tensors| ==> tensors[k].dt == tensors[0].dt
    ensures tensors != [] ==> |IntendedBytes(tensors)| == SumLens(tensors) * SizeOf(tensors[0].dt)
  {
    if |tensors| > 1 {
      IntendedLength(tensors[..|tensors| - 1]);
      assert tensors[..|tensors| - 1][0] == tensors[0];
    }
  }

  /** Every input in the dtype of the first. */
  predicate SameDType(tensors: seq<Tensor>)
  {
    forall k :: 0 <= k < |tensors| ==> tensors[k].dt == tensors[0].dt
  }

  /** The corrected copy, if it runs at all, stays inside the result buffer. */
  predicate IntendedFits(tensors: seq<Tensor>, axis: nat, s: Shape)
  {
    axis <= |s| && AllOnes(s[..axis]) ==> SumLens(tensors) <= Product(s)
  }

  /** `stack_tensors` with the copy moving `len * size_of` bytes to a byte offset
      that advances by as much. When the dimensions before `axis` are all 1 the
      result's bytes start with the inputs' bytes one after another; otherwise it
      is the zeroed buffer, as before. A copy past the end of the buffer is
      `NotModelled`, as in `StackTensors`. */
  function Stacked(axis: nat, tensors: seq<Tensor>): (r: Result<Tensor>)
    requires StackInputs(tensors) && SameDType(tensors)
    ensures StackShape(axis, tensors).Err? ==> r == Err(StackShape(axis, tensors).fault)
    ensures r.Ok? <==>
      StackShape(axis, tensors).Ok? && IntendedFits(tensors, axis, StackShape(axis, tensors).value)
    ensures StackShape(axis, tensors).Ok? && r.Err? ==> r == Err(NotModelled(OVERRUN))
    ensures r.Ok? ==>
      (Valid(r.value) && r.value.dt == tensors[0].dt
       && r.value.shape == StackShape(axis, tensors).value)
    ensures r.Ok? && AllOnes(r.value.shape[..axis]) ==>
      var v := IntendedBytes(tensors);
      |v| <= |r.value.data| && r.value.data[..|v|] == v
  {
    var s :- StackShape(axis, tensors);
    var dt := tensors[0].dt;
    var size := Product(s) * SizeOf(dt);
    if AllOnes(s[..axis]) then
      if SumLens(tensors) > Product(s) then Err(NotModelled(OVERRUN))
      else
        IntendedLength(tensors);
        Numerics.MulMono(SumLens(tensors), Product(s), SizeOf(dt));
        Ok(Tensor(dt, s, Product(s), Overlay(IntendedBytes(tensors), size)))
    else Ok(Tensor(dt, s, Product(s), ZeroBytes(size)))
  }

  /** With no input of a higher rank than the first, the corrected stack fails
      only as the shape rule does, and when the copy runs the result's bytes are
      exactly the inputs' bytes one after another. */
  lemma SameRankStacked(axis: nat, tensors: seq<Tensor>)
    requires StackInputs(tensors) && RanksWithinFirst(tensors) && SameDType(tensors)
    ensures Stacked(axis, tensors).Ok? <==> StackShape(axis, tensors).Ok?
    ensures Stacked(axis, tensors).Ok? && AllOnes(Stacked(axis, tensors).value.shape[..axis]) ==>
      Stacked(axis, tensors).value.data == IntendedBytes(tensors)
  {
    if StackShape(axis, tensors).Ok? {
      var s := StackShape(axis, tensors).value;
      if AllOnes(s[..axis]) {
        StackedLen(axis, tensors);
        IntendedLength(tensors);
        var d := Stacked(axis, tensors).value.data;
        assert |d| == |IntendedBytes(tensors)|;
        assert d == d[..|d|];
      }
    }
  }

  /** Each input of the corrected stack sits at the byte offset of the bytes of
      the inputs before it. */
  lemma {:induction false} StackedLayout(tensors: seq<Tensor>, k: nat)
    requires k < |tensors|
    ensures var before := |IntendedBytes(tensors[..k])|;
      before + |tensors[k].data| <= |IntendedBytes(tensors)|
      && IntendedBytes(tensors)[before..before + |tensors[k].data|] == tensors[k].data
    decreases |tensors|
  {
    var init := tensors[..|tensors| - 1];
    if k == |tensors| - 1 {
      assert tensors[..k] == init;
    } else {
      StackedLayout(init, k);
      assert init[..k] == tensors[..k];
      assert init[k] == tensors[k];
    }
  }
}
