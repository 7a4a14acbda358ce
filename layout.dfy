/** Row-major layout of a multi-dimensional array over a flat buffer: the
    element at coordinates `c` of an array of shape `s` is element
    `Ravel(c, s)` of the buffer, the last axis varying fastest. This is how
    `ndarray` lays out the arrays the ops build (`ArrayD::from_elem`,
    `Array::from_shape_vec`), and how a tensor's bytes are read. */
module Layout {
  import opened Numerics
  import opened Shapes

  /** `c` addresses an element of an array of shape `s`. */
  predicate InBounds(c: seq<nat>, s: Shape)
  {
    |c| == |s| && forall i :: 0 <= i < |s| ==> c[i] < s[i]
  }

  /** The flat position of the element at `c`. */
  function Ravel(c: seq<nat>, s: Shape): nat
    requires |c| == |s|
  {
    if s == [] then 0 else c[0] * Product(s[1..]) + Ravel(c[1..], s[1..])
  }

  /** The coordinates of flat position `j`. */
  function Unravel(j: nat, s: Shape): (c: seq<nat>)
    requires j < Product(s)
    ensures |c| == |s|
    decreases |s|
  {
    if s == [] then []
    else
      var p := Product(s[1..]);
      MulPositive(s[0], p);
      [j / p] + Unravel(j % p, s[1..])
  }

  /** Coordinates in bounds have a position inside the buffer. */
  lemma {:induction false} RavelBound(c: seq<nat>, s: Shape)
    requires InBounds(c, s)
    ensures Ravel(c, s) < Product(s)
  {
    if s != [] {
      var p := Product(s[1..]);
      assert InBounds(c[1..], s[1..]);
      RavelBound(c[1..], s[1..]);
      MulSucc(c[0], p);
      MulMono(c[0] + 1, s[0], p);
    }
  }

  /** Every position has coordinates in bounds. */
  lemma {:induction false} UnravelBound(j: nat, s: Shape)
    requires j < Product(s)
    ensures InBounds(Unravel(j, s), s)
    decreases |s|
  {
    if s != [] {
      var p := Product(s[1..]);
      var c := Unravel(j, s);
      MulPositive(s[0], p);
      UnravelBound(j % p, s[1..]);
      assert c[1..] == Unravel(j % p, s[1..]) && c[0] == j / p;
      DivBelow(j, p, s[0]);
      forall i | 1 <= i < |s|
        ensures c[i] < s[i]
      {
        assert c[i] == c[1..][i - 1] && s[i] == s[1..][i - 1];
      }
    }
  }

  /** Unravelling undoes ravelling: every element has exactly one position. */
  lemma {:induction false} UnravelRavel(c: seq<nat>, s: Shape)
    requires InBounds(c, s)
    ensures Ravel(c, s) < Product(s)
    ensures Unravel(Ravel(c, s), s) == c
  {
    RavelBound(c, s);
    if s != [] {
      var p := Product(s[1..]);
      var r := Ravel(c[1..], s[1..]);
      assert InBounds(c[1..], s[1..]);
      UnravelRavel(c[1..], s[1..]);
      DivModUnique(Ravel(c, s), p, r, c[0]);
      assert c == [c[0]] + c[1..];
    }
  }

  /** Ravelling undoes unravelling: every position holds exactly one element. */
  lemma {:induction false} RavelUnravel(j: nat, s: Shape)
    requires j < Product(s)
    ensures Ravel(Unravel(j, s), s) == j
    decreases |s|
  {
    if s != [] {
      var p := Product(s[1..]);
      MulPositive(s[0], p);
      var q, r := j / p, j % p;
      var c := Unravel(j, s);
      assert c[1..] == Unravel(r, s[1..]) && c[0] == q;
      RavelUnravel(r, s[1..]);
      assert j == q * p + r;
    }
  }
}
