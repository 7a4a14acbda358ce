/** `multi_broadcast` (crates/ir/src/ops/shape/broadcast.rs): the common shape of
    a list of shapes under numpy-style broadcasting. Shapes are aligned on their
    last dimension, missing leading dimensions count as 1, and at each position
    the result is 1 when every shape has 1 there and otherwise the one value
    other than 1 that the shapes agree on. */
module Broadcast {
  import opened Wrappers
  import opened Shapes

  /** Dimension `i` of `s` counted from the right, or 1 where `s` has no such dimension. */
  function Aligned(s: Shape, i: nat): nat
  {
    if i < |s| then s[|s| - 1 - i] else 1
  }

  /** The largest rank in the list (`max` of the lengths), 0 for no shapes. */
  function MaxRank(shapes: seq<Shape>): (m: nat)
    ensures forall j :: 0 <= j < |shapes| ==> |shapes[j]| <= m
  {
    if shapes == [] then 0
    else
      var rest := MaxRank(shapes[1..]);
      if |shapes[0]| >= rest then |shapes[0]| else rest
  }

  lemma {:induction false} MaxRankAttained(shapes: seq<Shape>)
    requires shapes != []
    ensures exists j :: 0 <= j < |shapes| && |shapes[j]| == MaxRank(shapes)
  {
    if |shapes[0]| < MaxRank(shapes[1..]) {
      MaxRankAttained(shapes[1..]);
      var j :| 0 <= j < |shapes[1..]| && |shapes[1..][j]| == MaxRank(shapes[1..]);
      assert |shapes[j + 1]| == MaxRank(shapes);
    }
  }

  /** For two shapes the maximal rank is the larger of the two ranks. */
  lemma MaxRankPair(x: Shape, y: Shape)
    ensures MaxRank([x, y]) == if |x| >= |y| then |x| else |y|
  {
    assert [x, y][1..] == [y] && [y][1..] == [];
    assert MaxRank([y]) == |y|;
  }

  /** The inner loop at aligned position `i`: `wanted` keeps the dimension other
      than 1 seen so far (1 if none), and a second, different one fails. */
  function DimFold(shapes: seq<Shape>, i: nat, wanted: nat): Option<nat>
  {
    if shapes == [] then Some(wanted)
    else
      var d := Aligned(shapes[0], i);
      if d != 1 && wanted != 1 && d != wanted then None
      else DimFold(shapes[1..], i, if d != 1 then d else wanted)
  }

  /** Every shape has 1 or `d` at aligned position `i`. */
  predicate OneOr(shapes: seq<Shape>, i: nat, d: nat)
  {
    forall j :: 0 <= j < |shapes| ==> Aligned(shapes[j], i) == 1 || Aligned(shapes[j], i) == d
  }

  /** Some shape has `d` at aligned position `i`. */
  predicate Occurs(shapes: seq<Shape>, i: nat, d: nat)
  {
    exists j :: 0 <= j < |shapes| && Aligned(shapes[j], i) == d
  }

  /** The shapes can be broadcast at aligned position `i`: no two of them have
      different dimensions other than 1 there. */
  predicate Agree(shapes: seq<Shape>, i: nat)
  {
    forall j, k :: 0 <= j < |shapes| && 0 <= k < |shapes| ==>
      Aligned(shapes[j], i) == 1 || Aligned(shapes[k], i) == 1 || Aligned(shapes[j], i) == Aligned(shapes[k], i)
  }

  lemma {:induction false} DimFoldSpec(shapes: seq<Shape>, i: nat, w: nat)
    ensures DimFold(shapes, i, w).Some? <==> Agree(shapes, i) && (w != 1 ==> OneOr(shapes, i, w))
    ensures DimFold(shapes, i, w).Some? ==>
      var v := DimFold(shapes, i, w).value;
      OneOr(shapes, i, v) && (w != 1 ==> v == w) && (w == 1 && v != 1 ==> Occurs(shapes, i, v))
  {
    if shapes != [] {
      var d, rest := Aligned(shapes[0], i), shapes[1..];
      var w' := if d != 1 then d else w;
      DimFoldSpec(rest, i, w');
      assert forall j :: 0 <= j < |rest| ==> Aligned(rest[j], i) == Aligned(shapes[j + 1], i);
      if d != 1 && w != 1 && d != w {
        assert !OneOr(shapes, i, w) by {
          assert Aligned(shapes[0], i) == d;
        }
      } else {
        if DimFold(rest, i, w').Some? {
          var v := DimFold(rest, i, w').value;
          assert OneOr(shapes, i, v) by {
            forall j | 0 <= j < |shapes|
              ensures Aligned(shapes[j], i) == 1 || Aligned(shapes[j], i) == v
            {
              if j > 0 {
                assert Aligned(shapes[j], i) == Aligned(rest[j - 1], i);
              }
            }
          }
          if w == 1 && v != 1 {
            if d != 1 {
              assert Aligned(shapes[0], i) == v;
            } else {
              var j :| 0 <= j < |rest| && Aligned(rest[j], i) == v;
              assert Aligned(shapes[j + 1], i) == v;
            }
          }
          assert Agree(shapes, i) by {
            forall j, k | 0 <= j < |shapes| && 0 <= k < |shapes|
              ensures Aligned(shapes[j], i) == 1 || Aligned(shapes[k], i) == 1
                || Aligned(shapes[j], i) == Aligned(shapes[k], i)
            {
              assert Aligned(shapes[j], i) == 1 || Aligned(shapes[j], i) == v;
              assert Aligned(shapes[k], i) == 1 || Aligned(shapes[k], i) == v;
            }
          }
        } else {
          // The rest fails: either two of its dimensions clash, or one clashes with `w'`.
          if !Agree(rest, i) {
            var j, k :| 0 <= j < |rest| && 0 <= k < |rest|
              && Aligned(rest[j], i) != 1 && Aligned(rest[k], i) != 1
              && Aligned(rest[j], i) != Aligned(rest[k], i);
            assert Aligned(shapes[j + 1], i) == Aligned(rest[j], i);
            assert Aligned(shapes[k + 1], i) == Aligned(rest[k], i);
            assert !Agree(shapes, i);
          } else {
            var j :| 0 <= j < |rest| && Aligned(rest[j], i) != 1 && Aligned(rest[j], i) != w';
            assert Aligned(shapes[j + 1], i) == Aligned(rest[j], i);
            if d != 1 {
              assert !Agree(shapes, i) by {
                assert Aligned(shapes[0], i) == d;
              }
            } else {
              assert w' == w && w != 1;
              assert !OneOr(shapes, i, w);
            }
          }
        }
      }
    }
  }

  /** The broadcast dimensions at aligned positions `k - 1` down to 0, leftmost
      first, or `None` when the shapes disagree at one of them. */
  function BroadcastDims(shapes: seq<Shape>, k: nat): (r: Option<Shape>)
    ensures r.Some? ==> |r.value| == k
  {
    if k == 0 then Some([])
    else
      var d, rest := DimFold(shapes, k - 1, 1), BroadcastDims(shapes, k - 1);
      if d.None? || rest.None? then None else Some([d.value] + rest.value)
  }

  /** `multi_broadcast` as a value: `None` for no shapes or a position where the
      shapes disagree, otherwise the broadcast dimensions, leftmost first. */
  function MultiBroadcast(shapes: seq<Shape>): (r: Option<Shape>)
    ensures shapes == [] ==> r.None?
    ensures r.Some? ==> |r.value| == MaxRank(shapes)
  {
    if shapes == [] then None else BroadcastDims(shapes, MaxRank(shapes))
  }

  /** `BroadcastDims` is the fold at every position below `k`. */
  lemma {:induction false} BroadcastDimsSpec(shapes: seq<Shape>, k: nat)
    ensures BroadcastDims(shapes, k).None? <==> exists i :: 0 <= i < k && DimFold(shapes, i, 1).None?
    ensures BroadcastDims(shapes, k).Some? ==>
      forall i :: 0 <= i < k ==> DimFold(shapes, i, 1).Some? && Aligned(BroadcastDims(shapes, k).value, i) == DimFold(shapes, i, 1).value
  {
    if k > 0 {
      BroadcastDimsSpec(shapes, k - 1);
      var r := BroadcastDims(shapes, k);
      if r.Some? {
        var rest := BroadcastDims(shapes, k - 1).value;
        forall i | 0 <= i < k
          ensures DimFold(shapes, i, 1).Some? && Aligned(r.value, i) == DimFold(shapes, i, 1).value
        {
          if i < k - 1 {
            assert Aligned(r.value, i) == Aligned(rest, i);
          }
        }
      } else if DimFold(shapes, k - 1, 1).None? {
        assert BroadcastDims(shapes, k).None?;
        assert 0 <= k - 1 < k && DimFold(shapes, k - 1, 1).None?;
        assert exists i :: 0 <= i < k && DimFold(shapes, i, 1).None?;
      } else {
        var j :| 0 <= j < k - 1 && DimFold(shapes, j, 1).None?;
      }
    }
  }

  /** Shapes of the same rank with the same aligned dimensions are equal. */
  lemma AlignedEqual(x: Shape, y: Shape)
    requires |x| == |y|
    requires forall i :: 0 <= i < |x| ==> Aligned(x, i) == Aligned(y, i)
    ensures x == y
  {
    forall p | 0 <= p < |x|
      ensures x[p] == y[p]
    {
      assert Aligned(x, |x| - 1 - p) == Aligned(y, |x| - 1 - p);
    }
  }

  /** What `multi_broadcast` computes: a result exactly when the shapes agree
      at every aligned position, and then at each position every shape has 1
      or the result's dimension, which is 1 or the dimension of some shape. */
  lemma BroadcastSpec(shapes: seq<Shape>)
    ensures shapes != [] ==>
      (MultiBroadcast(shapes).Some? <==> forall i :: 0 <= i < MaxRank(shapes) ==> Agree(shapes, i))
    ensures MultiBroadcast(shapes).Some? ==> forall i :: 0 <= i < |MultiBroadcast(shapes).value| ==>
      OneOr(shapes, i, Aligned(MultiBroadcast(shapes).value, i))
    ensures MultiBroadcast(shapes).Some? ==> forall i :: 0 <= i < |MultiBroadcast(shapes).value| ==>
      Aligned(MultiBroadcast(shapes).value, i) == 1 || Occurs(shapes, i, Aligned(MultiBroadcast(shapes).value, i))
  {
    if shapes != [] {
      var len := MaxRank(shapes);
      AllDimFoldSpec(shapes, len);
      BroadcastDimsSpec(shapes, len);
      if !MultiBroadcast(shapes).Some? {
        var i :| 0 <= i < len && DimFold(shapes, i, 1).None?;
        assert !Agree(shapes, i);
        assert !forall i :: 0 <= i < MaxRank(shapes) ==> Agree(shapes, i);
      } else {
        assert BroadcastDims(shapes, len).Some?;
        assert forall i :: 0 <= i < len ==> DimFold(shapes, i, 1).Some?;
        assert forall i :: 0 <= i < MaxRank(shapes) ==> Agree(shapes, i);
      }
    }
  }

  lemma AllDimFoldSpec(shapes: seq<Shape>, len: nat)
    ensures forall i :: 0 <= i < len ==> (DimFold(shapes, i, 1).Some? <==> Agree(shapes, i))
    ensures forall i :: 0 <= i < len && DimFold(shapes, i, 1).Some? ==>
      OneOr(shapes, i, DimFold(shapes, i, 1).value)
      && (DimFold(shapes, i, 1).value == 1 || Occurs(shapes, i, DimFold(shapes, i, 1).value))
  {
    forall i | 0 <= i < len
      ensures DimFold(shapes, i, 1).Some? <==> Agree(shapes, i)
      ensures DimFold(shapes, i, 1).Some? ==>
        OneOr(shapes, i, DimFold(shapes, i, 1).value)
        && (DimFold(shapes, i, 1).value == 1 || Occurs(shapes, i, DimFold(shapes, i, 1).value))
    {
      DimFoldSpec(shapes, i, 1);
    }
  }

  function Reverse(s: seq<nat>): (r: seq<nat>)
    ensures |r| == |s| && forall i :: 0 <= i < |s| ==> r[i] == s[|s| - 1 - i]
  {
    if s == [] then [] else Reverse(s[1..]) + [s[0]]
  }

  /** `multi_broadcast` as written: for each aligned position from the right, the
      inner loop over the shapes, a push, and a final reverse. */
  method MultiBroadcastLoop(shapes: seq<Shape>) returns (r: Option<Shape>)
    ensures r == MultiBroadcast(shapes)
  {
    if |shapes| == 0 {
      return None;
    }
    var len := MaxRank(shapes);
    var shape: seq<nat> := [];
    var i := 0;
    while i < len
      invariant 0 <= i <= len && |shape| == i
      invariant forall p :: 0 <= p < i ==> DimFold(shapes, p, 1) == Some(shape[p])
    {
      var wanted := 1;
      var k := 0;
      while k < |shapes|
        invariant 0 <= k <= |shapes|
        invariant DimFold(shapes, i, 1) == DimFold(shapes[k..], i, wanted)
      {
        var s := shapes[k];
        var dim := if i < |s| then s[|s| - i - 1] else 1;
        assert shapes[k..][1..] == shapes[k + 1..];
        if dim != 1 {
          if wanted != 1 && dim != wanted {
            assert DimFold(shapes, i, 1).None?;
            BroadcastDimsSpec(shapes, len);
            return None;
          }
          wanted := dim;
        }
        k := k + 1;
      }
      shape := shape + [wanted];
      i := i + 1;
    }
    r := Some(Reverse(shape));
    forall p | 0 <= p < len
      ensures DimFold(shapes, p, 1) == Some(Aligned(Reverse(shape), p))
    {
    }
    BroadcastFromFolds(shapes, Reverse(shape));
  }

  // ---------------------------------------------------------------------------
  // Consequences and examples

  /** Reads the result off the per-position folds. */
  lemma BroadcastFromFolds(shapes: seq<Shape>, expected: Shape)
    requires shapes != [] && |expected| == MaxRank(shapes)
    requires forall i :: 0 <= i < |expected| ==> DimFold(shapes, i, 1) == Some(Aligned(expected, i))
    ensures MultiBroadcast(shapes) == Some(expected)
  {
    BroadcastDimsSpec(shapes, |expected|);
    AlignedEqual(MultiBroadcast(shapes).value, expected);
  }

  /** The fold over two shapes at one position: their common dimension, with 1
      giving way to the other, or `None` when they differ and neither is 1. */
  lemma DimFoldPair(a: Shape, b: Shape, i: nat)
    ensures var x, y := Aligned(a, i), Aligned(b, i);
      DimFold([a, b], i, 1) == if x != 1 && y != 1 && x != y then None else Some(if x != 1 then x else y)
  {
    assert [a, b][1..] == [b] && [b][1..] == [];
    var x, y := Aligned(a, i), Aligned(b, i);
    var w := if x != 1 then x else 1;
    assert DimFold([a, b], i, 1) == DimFold([b], i, w);
    if !(y != 1 && w != 1 && y != w) {
      assert DimFold([b], i, w) == DimFold([], i, if y != 1 then y else w);
    }
  }

  /** Two shapes broadcast to `e` when, position by position, `e` has the
      dimension the two agree on. */
  lemma BroadcastPairFromDims(a: Shape, b: Shape, e: Shape)
    requires |e| == (if |a| >= |b| then |a| else |b|)
    requires forall i :: 0 <= i < |e| ==>
      var x, y := Aligned(a, i), Aligned(b, i);
      (x == 1 || x == Aligned(e, i)) && (y == 1 || y == Aligned(e, i)) && (x == Aligned(e, i) || y == Aligned(e, i))
    ensures MultiBroadcast([a, b]) == Some(e)
  {
    MaxRankPair(a, b);
    forall i | 0 <= i < |e|
      ensures DimFold([a, b], i, 1) == Some(Aligned(e, i))
    {
      DimFoldPair(a, b, i);
    }
    BroadcastFromFolds([a, b], e);
  }

  /** Broadcasting a single shape returns it unchanged. */
  lemma BroadcastSingle(s: Shape)
    ensures MultiBroadcast([s]) == Some(s)
  {
    forall i | 0 <= i < |s|
      ensures DimFold([s], i, 1) == Some(Aligned(s, i))
    {
      assert [s][1..] == [];
    }
    BroadcastFromFolds([s], s);
  }

  /** The order of the shapes does not matter for two shapes. */
  lemma BroadcastSymmetric(a: Shape, b: Shape)
    ensures MultiBroadcast([a, b]) == MultiBroadcast([b, a])
  {
    var ab, ba := MultiBroadcast([a, b]), MultiBroadcast([b, a]);
    BroadcastSpec([a, b]);
    BroadcastSpec([b, a]);
    assert MaxRank([a, b]) == MaxRank([b, a]);
    forall i | 0 <= i < MaxRank([a, b])
      ensures Agree([a, b], i) <==> Agree([b, a], i)
    {
    }
    if ab.Some? {
      assert ba.Some?;
      forall i | 0 <= i < |ab.value|
        ensures Aligned(ab.value, i) == Aligned(ba.value, i)
      {
        var x, y := Aligned(ab.value, i), Aligned(ba.value, i);
        assert OneOr([a, b], i, x) && OneOr([b, a], i, y);
        assert x == 1 || Occurs([a, b], i, x);
        assert y == 1 || Occurs([b, a], i, y);
        var ai, bi := Aligned([a, b][0], i), Aligned([a, b][1], i);
        assert Aligned([b, a][0], i) == bi && Aligned([b, a][1], i) == ai;
        assert ai == 1 || ai == x;
        assert bi == 1 || bi == x;
        assert ai == 1 || ai == y;
        assert bi == 1 || bi == y;
        if x != 1 {
          var j :| 0 <= j < 2 && Aligned([a, b][j], i) == x;
        }
        if y != 1 {
          var j :| 0 <= j < 2 && Aligned([b, a][j], i) == y;
        }
      }
      AlignedEqual(ab.value, ba.value);
    } else {
      assert ba.None?;
    }
  }

  /** The examples of the ONNX broadcasting rules. */
  lemma BroadcastExamples()
    ensures MultiBroadcast([[2, 3, 4, 5], []]) == Some([2, 3, 4, 5])
    ensures MultiBroadcast([[2, 3, 4, 5], [5]]) == Some([2, 3, 4, 5])
    ensures MultiBroadcast([[4, 5], [2, 3, 4, 5]]) == Some([2, 3, 4, 5])
  {
    Example([2, 3, 4, 5], []);
    Example([2, 3, 4, 5], [5]);
    Example([4, 5], [2, 3, 4, 5]);
  }

  /** Dimensions of 1 on either side stretch to the other side's. */
  lemma BroadcastStretchExamples()
    ensures MultiBroadcast([[1, 4, 5], [2, 3, 4, 1]]) == Some([2, 3, 4, 5])
    ensures MultiBroadcast([[3, 4, 5], [2, 1, 1, 1]]) == Some([2, 3, 4, 5])
  {
    Example([1, 4, 5], [2, 3, 4, 1]);
    Example([3, 4, 5], [2, 1, 1, 1]);
  }

  lemma Example(a: Shape, b: Shape)
    requires |a| <= 4 && |b| <= 4 && (|a| == 4 || |b| == 4)
    requires forall i :: 0 <= i < 4 ==>
      (Aligned(a, i) == 1 || Aligned(a, i) == Aligned([2, 3, 4, 5], i))
      && (Aligned(b, i) == 1 || Aligned(b, i) == Aligned([2, 3, 4, 5], i))
      && (Aligned(a, i) != 1 || Aligned(b, i) != 1)
    ensures MultiBroadcast([a, b]) == Some([2, 3, 4, 5])
  {
    var e: Shape := [2, 3, 4, 5];
    assert [a, b][1..] == [b] && [b][1..] == [];
    forall i | 0 <= i < 4
      ensures DimFold([a, b], i, 1) == Some(Aligned(e, i))
    {
      var da, db := Aligned(a, i), Aligned(b, i);
      var w := if da != 1 then da else 1;
      assert DimFold([a, b], i, 1) == DimFold([b], i, w);
      var w2 := if db != 1 then db else w;
      assert DimFold([b], i, w) == DimFold([], i, w2);
    }
    assert MaxRank([b]) == |b|;
    BroadcastFromFolds([a, b], e);
  }

  // ---------------------------------------------------------------------------
  // Broadcasting sees shapes only through their aligned dimensions

  /** Left-padding with 1s changes no aligned dimension. */
  lemma AlignedPadded(s: Shape, k: nat, i: nat)
    ensures Aligned(Ones(k) + s, i) == Aligned(s, i)
  {
    if i < |s| {
      assert (Ones(k) + s)[k + |s| - 1 - i] == s[|s| - 1 - i];
    }
  }

  lemma {:induction false} DimFoldCongruent(s1: seq<Shape>, s2: seq<Shape>, i: nat, w: nat)
    requires |s1| == |s2|
    requires forall j :: 0 <= j < |s1| ==> Aligned(s1[j], i) == Aligned(s2[j], i)
    ensures DimFold(s1, i, w) == DimFold(s2, i, w)
  {
    if s1 != [] {
      var d := Aligned(s1[0], i);
      assert Aligned(s2[0], i) == d;
      var w' := if d != 1 then d else w;
      forall j | 0 <= j < |s1[1..]|
        ensures Aligned(s1[1..][j], i) == Aligned(s2[1..][j], i)
      {
        assert s1[1..][j] == s1[j + 1] && s2[1..][j] == s2[j + 1];
      }
      DimFoldCongruent(s1[1..], s2[1..], i, w');
    }
  }

  lemma {:induction false} BroadcastDimsCongruent(s1: seq<Shape>, s2: seq<Shape>, k: nat)
    requires forall i :: 0 <= i < k ==> DimFold(s1, i, 1) == DimFold(s2, i, 1)
    ensures BroadcastDims(s1, k) == BroadcastDims(s2, k)
  {
    if k > 0 {
      BroadcastDimsCongruent(s1, s2, k - 1);
    }
  }

  /** Two lists of shapes with the same maximal rank and the same aligned
      dimensions broadcast alike. */
  lemma BroadcastCongruent(s1: seq<Shape>, s2: seq<Shape>)
    requires |s1| == |s2| && MaxRank(s1) == MaxRank(s2)
    requires forall j, i :: 0 <= j < |s1| ==> Aligned(s1[j], i) == Aligned(s2[j], i)
    ensures MultiBroadcast(s1) == MultiBroadcast(s2)
  {
    if s1 != [] {
      var len := MaxRank(s1);
      forall i | 0 <= i < len
        ensures DimFold(s1, i, 1) == DimFold(s2, i, 1)
      {
        DimFoldCongruent(s1, s2, i, 1);
      }
      BroadcastDimsCongruent(s1, s2, len);
    }
  }

  /** Padding both operands on the left with 1s up to the longer rank, as matmul
      does before broadcasting, does not change the broadcast. */
  lemma BroadcastPadded(a: Shape, b: Shape, ka: nat, kb: nat)
    requires |a| + ka == |b| + kb
    requires ka == 0 || kb == 0
    ensures MultiBroadcast([Ones(ka) + a, Ones(kb) + b]) == MultiBroadcast([a, b])
  {
    var s1, s2 := [Ones(ka) + a, Ones(kb) + b], [a, b];
    assert s1[1..] == [Ones(kb) + b] && s2[1..] == [b];
    assert [Ones(kb) + b][1..] == [] && [b][1..] == [];
    forall j, i | 0 <= j < 2
      ensures Aligned(s1[j], i) == Aligned(s2[j], i)
    {
      AlignedPadded(a, ka, i);
      AlignedPadded(b, kb, i);
    }
    BroadcastCongruent(s1, s2);
  }
}
