/** `Shape` (crates/ir/src/shape.rs): the dimension list of a tensor and its
    "x"-joined textual form. */
module Shapes {

  /** `Shape(SmallVec<[usize; 4]>)`. `Deref`/`DerefMut` hand out the dimension
      list itself and equality is derived, so the model uses the sequence:
      pushing, inserting or removing a dimension is a sequence operation and two
      shapes are equal exactly when their dimension lists are. */
  type Shape = seq<nat>

  /** The number of elements of a tensor of shape `s`; the empty shape has one. */
  function Product(s: seq<nat>): nat
  {
    if s == [] then 1 else s[0] * Product(s[1..])
  }

  lemma {:induction false} ProductAppend(s: seq<nat>, t: seq<nat>)
    ensures Product(s + t) == Product(s) * Product(t)
  {
    if s == [] {
      assert s + t == t;
    } else {
      assert (s + t)[1..] == s[1..] + t;
      ProductAppend(s[1..], t);
    }
  }

  /** Splitting a shape around one position: the product is the product of the
      prefix, the dimension and the suffix. */
  lemma ProductAround(s: seq<nat>, k: nat)
    requires k < |s|
    ensures Product(s) == Product(s[..k]) * s[k] * Product(s[k + 1..])
  {
    assert s == s[..k] + [s[k]] + s[k + 1..];
    ProductAppend(s[..k] + [s[k]], s[k + 1..]);
    ProductAppend(s[..k], [s[k]]);
    assert Product([s[k]]) == s[k] * Product([]);
  }

  /** The element count of an NCHW shape. */
  lemma ProductOfFour(a: nat, b: nat, c: nat, d: nat)
    ensures Product([a, b, c, d]) == a * b * c * d
  {
    var s := [a, b, c, d];
    assert s[1..] == [b, c, d] && s[1..][1..] == [c, d] && s[1..][1..][1..] == [d];
    assert Product([d]) == d;
    assert Product([c, d]) == c * d;
    assert Product([b, c, d]) == b * (c * d);
  }

  /** Every entry of `s` equals 1. */
  predicate AllOnes(s: seq<nat>)
  {
    forall i :: 0 <= i < |s| ==> s[i] == 1
  }

  /** `n` dimensions of size 1. */
  function Ones(n: nat): (s: seq<nat>)
    ensures |s| == n && AllOnes(s)
  {
    seq(n, _ => 1)
  }

  lemma {:induction false} ProductOfOnes(s: seq<nat>)
    requires AllOnes(s)
    ensures Product(s) == 1
  {
    if s != [] {
      ProductOfOnes(s[1..]);
    }
  }

  // ---------------------------------------------------------------------------
  // Decimal text of a number, as `{}` writes a `usize`.

  function DigitChar(d: nat): char
    requires d < 10
  {
    "0123456789"[d]
  }

  function DigitValue(c: char): nat
  {
    if '0' <= c <= '9' then (c as int - '0' as int) else 0
  }

  predicate IsDigit(c: char) { '0' <= c <= '9' }

  /** The decimal digits of `n`, most significant first, with no leading zero. */
  function Decimal(n: nat): (s: string)
    ensures |s| >= 1
    ensures forall i :: 0 <= i < |s| ==> IsDigit(s[i])
    ensures |s| > 1 ==> s[0] != '0'
    decreases n
  {
    if n < 10 then [DigitChar(n)] else Decimal(n / 10) + [DigitChar(n % 10)]
  }

  /** Reads a string of decimal digits back as a number. */
  function ParseDecimal(s: string): nat
  {
    if s == [] then 0 else ParseDecimal(s[..|s| - 1]) * 10 + DigitValue(s[|s| - 1])
  }

  lemma {:induction false} ParseDecimalOfDecimal(n: nat)
    ensures ParseDecimal(Decimal(n)) == n
    decreases n
  {
    if n >= 10 {
      var s := Decimal(n);
      assert s[..|s| - 1] == Decimal(n / 10);
      ParseDecimalOfDecimal(n / 10);
    }
  }

  // ---------------------------------------------------------------------------
  // Display

  /** The text `Display` writes for `dims`: the dimensions in order with an "x"
      between neighbours. */
  function JoinX(dims: Shape): string
  {
    if dims == [] then ""
    else if |dims| == 1 then Decimal(dims[0])
    else JoinX(dims[..|dims| - 1]) + "x" + Decimal(dims[|dims| - 1])
  }

  /** `impl Display for Shape`: for every (i, dim), an "x" first unless i is 0,
      then the dimension. */
  method Display(dims: Shape) returns (text: string)
    ensures text == JoinX(dims)
  {
    text := "";
    var i := 0;
    while i < |dims|
      invariant 0 <= i <= |dims|
      invariant text == JoinX(dims[..i])
    {
      if i > 0 {
        text := text + "x";
      }
      text := text + Decimal(dims[i]);
      assert dims[..i + 1][..i] == dims[..i];
      i := i + 1;
    }
    assert dims[..|dims|] == dims;
  }

  function CountChar(s: string, c: char): nat
  {
    if s == [] then 0 else CountChar(s[..|s| - 1], c) + (if s[|s| - 1] == c then 1 else 0)
  }

  lemma {:induction false} CountCharAppend(s: string, t: string, c: char)
    ensures CountChar(s + t, c) == CountChar(s, c) + CountChar(t, c)
    decreases |t|
  {
    if t == [] {
      assert s + t == s;
    } else {
      assert (s + t)[..|s + t| - 1] == s + t[..|t| - 1];
      CountCharAppend(s, t[..|t| - 1], c);
    }
  }

  lemma {:induction false} CountAbsent(s: string, c: char)
    requires forall i :: 0 <= i < |s| ==> s[i] != c
    ensures CountChar(s, c) == 0
    decreases |s|
  {
    if s != [] {
      CountAbsent(s[..|s| - 1], c);
    }
  }

  /** An empty shape prints as nothing; a non-empty one has exactly rank - 1
      separators, none of them first or last. */
  lemma {:induction false} JoinXSeparators(dims: Shape)
    ensures dims == [] ==> JoinX(dims) == ""
    ensures dims != [] ==>
      (|JoinX(dims)| > 0
       && CountChar(JoinX(dims), 'x') == |dims| - 1
       && JoinX(dims)[0] != 'x'
       && JoinX(dims)[|JoinX(dims)| - 1] != 'x')
    decreases |dims|
  {
    if |dims| == 1 {
      CountAbsent(Decimal(dims[0]), 'x');
    } else if |dims| > 1 {
      var init, last := dims[..|dims| - 1], Decimal(dims[|dims| - 1]);
      JoinXSeparators(init);
      CountAbsent(last, 'x');
      CountCharAppend(JoinX(init) + "x", last, 'x');
      CountCharAppend(JoinX(init), "x", 'x');
      assert CountChar("x", 'x') == 1 by {
        assert "x"[..0] == "";
      }
    }
  }

  // ---------------------------------------------------------------------------
  // Reading the text back: the "x"-joined form loses nothing.

  function LastIndexOf(s: string, c: char): (i: int)
    ensures -1 <= i < |s|
    ensures i >= 0 ==> s[i] == c && forall j :: i < j < |s| ==> s[j] != c
    ensures i < 0 ==> forall j :: 0 <= j < |s| ==> s[j] != c
  {
    if s == [] then -1
    else if s[|s| - 1] == c then |s| - 1
    else LastIndexOf(s[..|s| - 1], c)
  }

  /** Cuts `s` at every 'x'. */
  function SplitX(s: string): seq<string>
    decreases |s|
  {
    var i := LastIndexOf(s, 'x');
    if i < 0 then [s] else SplitX(s[..i]) + [s[i + 1..]]
  }

  /** Parses an "x"-joined shape. */
  function ParseShape(s: string): Shape
  {
    if s == "" then [] else
      var parts := SplitX(s);
      seq(|parts|, i requires 0 <= i < |parts| => ParseDecimal(parts[i]))
  }

  lemma SplitAtLastX(s: string, t: string)
    requires forall j :: 0 <= j < |t| ==> t[j] != 'x'
    ensures SplitX(s + "x" + t) == SplitX(s) + [t]
  {
    var u := s + "x" + t;
    assert u[|s|] == 'x';
    assert LastIndexOf(u, 'x') == |s|;
    assert u[..|s|] == s && u[|s| + 1..] == t;
  }

  /** The decimal text of each dimension. */
  function Decimals(dims: Shape): (r: seq<string>)
    ensures |r| == |dims|
    ensures forall i :: 0 <= i < |dims| ==> r[i] == Decimal(dims[i])
  {
    seq(|dims|, i requires 0 <= i < |dims| => Decimal(dims[i]))
  }

  lemma DecimalsOfSnoc(dims: Shape)
    requires dims != []
    ensures Decimals(dims) == Decimals(dims[..|dims| - 1]) + [Decimal(dims[|dims| - 1])]
  {
  }

  lemma {:induction false} SplitJoinX(dims: Shape)
    requires dims != []
    ensures SplitX(JoinX(dims)) == Decimals(dims)
    decreases |dims|
  {
    if |dims| == 1 {
      assert LastIndexOf(Decimal(dims[0]), 'x') < 0;
      assert Decimals(dims) == [Decimal(dims[0])];
    } else {
      var n := |dims| - 1;
      var init, last := dims[..n], Decimal(dims[n]);
      assert JoinX(dims) == JoinX(init) + "x" + last;
      SplitJoinX(init);
      SplitAtLastX(JoinX(init), last);
      DecimalsOfSnoc(dims);
    }
  }

  /** Round trip: parsing the displayed text gives the shape back. */
  lemma DisplayRoundTrip(dims: Shape)
    ensures ParseShape(JoinX(dims)) == dims
  {
    if dims != [] {
      JoinXSeparators(dims);
      SplitJoinX(dims);
      forall i | 0 <= i < |dims|
        ensures ParseShape(JoinX(dims))[i] == dims[i]
      {
        ParseDecimalOfDecimal(dims[i]);
      }
    }
  }

  /** For example [1, 3, 224, 224] prints as "1x3x224x224". */
  lemma DisplayExample()
    ensures JoinX([1, 3, 224, 224]) == "1x3x224x224"
  {
    DecimalExample();
    var d: Shape := [1, 3, 224, 224];
    assert d[..3] == [1, 3, 224] && d[..3][..2] == [1, 3] && d[..3][..2][..1] == [1];
    JoinXSnoc(d);
    JoinXSnoc(d[..3]);
    JoinXSnoc(d[..3][..2]);
    assert JoinX([1]) == "1";
  }

  lemma JoinXSnoc(dims: Shape)
    requires |dims| >= 2
    ensures JoinX(dims) == JoinX(dims[..|dims| - 1]) + "x" + Decimal(dims[|dims| - 1])
  {
  }

  lemma DecimalExample()
    ensures Decimal(224) == "224" && Decimal(3) == "3" && Decimal(1) == "1"
  {
    assert Decimal(22) == "22";
  }
}
