/** `TensorShape` (crates/ir/src/tensor_shape.rs): a list of `i64` dimensions and
    its `Display`. */
module TensorShapes {
  import opened Wrappers
  import opened Shapes

  /** `{}` on an `i64`: a '-' in front of the digits of a negative value. */
  function SignedDecimal(d: int): string
  {
    if d < 0 then "-" + Decimal(-d) else Decimal(d)
  }

  /** The intended text of a non-empty dimension list, read from the front: the
      first dimension, then "x" and the text of the rest. */
  function JoinSigned(dims: seq<int>): string
    requires dims != []
  {
    if |dims| == 1 then SignedDecimal(dims[0])
    else SignedDecimal(dims[0]) + "x" + JoinSigned(dims[1..])
  }

  /** `impl Display for TensorShape`: writes "{d}x" for every dimension but the
      last, then the last. The index `len - 1` underflows on an empty list, which
      panics. */
  method Display(dims: seq<int>) returns (r: Result<string>)
    ensures dims == [] ==> IsPanic(r)
    ensures dims != [] ==> r == Ok(JoinSigned(dims))
  {
    if |dims| == 0 {
      return Err(Panic(SUB_OVERFLOW));
    }
    var text := "";
    var i := 0;
    while i < |dims| - 1
      invariant 0 <= i <= |dims| - 1
      invariant text + JoinSigned(dims[i..]) == JoinSigned(dims)
    {
      assert dims[i..][1..] == dims[i + 1..];
      text := text + SignedDecimal(dims[i]) + "x";
      i := i + 1;
    }
    assert dims[i..] == [dims[|dims| - 1]];
    text := text + SignedDecimal(dims[|dims| - 1]);
    r := Ok(text);
  }

  /** A single dimension prints as its decimal value alone, with a leading '-'
      when it is negative. */
  lemma SingleDimension(d: int)
    ensures JoinSigned([d]) == SignedDecimal(d)
    ensures d < 0 ==> JoinSigned([d])[0] == '-' && JoinSigned([d])[1..] == Decimal(-d)
    ensures d >= 0 ==> JoinSigned([d]) == Decimal(d)
  {
  }

  function AsNats(dims: seq<int>): (s: Shape)
    requires forall i :: 0 <= i < |dims| ==> dims[i] >= 0
    ensures |s| == |dims| && forall i :: 0 <= i < |dims| ==> s[i] == dims[i]
  {
    seq(|dims|, i requires 0 <= i < |dims| => dims[i] as nat)
  }

  lemma {:induction false} JoinXFromFront(dims: Shape)
    requires |dims| >= 2
    ensures JoinX(dims) == Decimal(dims[0]) + "x" + JoinX(dims[1..])
    decreases |dims|
  {
    if |dims| > 2 {
      var init := dims[..|dims| - 1];
      JoinXFromFront(init);
      assert init[1..] == dims[1..][..|dims[1..]| - 1];
    } else {
      assert dims[1..] == [dims[1]];
      assert dims[..1] == [dims[0]];
    }
  }

  /** On non-negative dimensions the two display implementations of the crate
      agree: `TensorShape` prints exactly what `Shape` prints. */
  lemma {:induction false} AgreesWithShapeDisplay(dims: seq<int>)
    requires dims != []
    requires forall i :: 0 <= i < |dims| ==> dims[i] >= 0
    ensures JoinSigned(dims) == JoinX(AsNats(dims))
    decreases |dims|
  {
    if |dims| > 1 {
      AgreesWithShapeDisplay(dims[1..]);
      JoinXFromFront(AsNats(dims));
      assert AsNats(dims)[1..] == AsNats(dims[1..]);
    }
  }
}
