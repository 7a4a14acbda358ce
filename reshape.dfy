/** `Reshape` (steelix/src/ir/ops/shape/reshape.rs): the new shape is read from
    the second provider, whose entries are kept as they are except one `-1`,
    which stands for what the other entries leave of the input's element count.

    The entries are read in the `as_std!` type of the second provider's dtype;
    all of the arithmetic on them (`product`, the comparison with `-1`, the cast
    of the computed entry back) happens in that type. */
module SteelixReshape {
  import opened Wrappers
  import opened Numerics
  import opened Shapes
  import opened Tensors
  import opened IrCore

  const NAME: string := "Reshape"
  const GROUP: OpGroup := OpGroup.Shape

  const ONE_UNKNOWN: string := "Reshape: only one unknown dimension is allowed"
  const UNKNOWN_TOO_LARGE: string := "Failed to compute unknown dimension in Reshape"

  /** The panic of the final `num::cast` to `usize`, which fails exactly on a
      negative entry and prints it. */
  function CastMessage(e: int): string
    requires e < 0
  {
    "Failed to cast: -" + Decimal(-e)
  }

  /** An entry that counts toward `product`: neither the wildcard nor 0. */
  predicate Known(d: int)
  {
    d != -1 && d != 0
  }

  /** `product` after the entries of `xs`, taken left to right. It is never 0,
      so the division by it cannot fail. */
  function KnownProduct(xs: seq<int>): (p: int)
    ensures p != 0
  {
    if xs == [] then 1
    else
      var last := xs[|xs| - 1];
      KnownProduct(xs[..|xs| - 1]) * (if Known(last) then last else 1)
  }

  /** `unknown_dim` after the entries of `xs`: the first index holding -1. */
  function UnknownAt(xs: seq<int>): (u: Option<nat>)
    ensures u.Some? ==> u.value < |xs| && xs[u.value] == -1 && forall j :: 0 <= j < u.value ==> xs[j] != -1
    ensures u.None? <==> forall j :: 0 <= j < |xs| ==> xs[j] != -1
  {
    if xs == [] then None
    else if UnknownAt(xs[..|xs| - 1]).Some? then UnknownAt(xs[..|xs| - 1])
    else if xs[|xs| - 1] == -1 then Some(|xs| - 1)
    else None
  }

  /** The panic the scan raises at entry `i` (of a signed type), if any: a -1
      after an earlier -1, or a product that leaves the entry type. */
  function StepFault(dims: seq<int>, dt: DType, i: nat): Option<Fault>
    requires i < |dims|
  {
    if dims[i] == -1 then
      if UnknownAt(dims[..i]).Some? then Some(Panic(ONE_UNKNOWN)) else None
    else if dims[i] != 0 && !InRange(KnownProduct(dims[..i + 1]), dt) then Some(Panic(MUL_OVERFLOW))
    else None
  }

  /** The first panic of the scan over the first `n` entries. */
  function ScanFault(dims: seq<int>, dt: DType, n: nat): (f: Option<Fault>)
    requires n <= |dims|
    ensures f.Some? ==> f.value.Panic?
  {
    if n == 0 then None
    else if ScanFault(dims, dt, n - 1).Some? then ScanFault(dims, dt, n - 1)
    else StepFault(dims, dt, n - 1)
  }

  /** The index of the first negative entry. */
  function FirstNegative(xs: seq<int>): (i: nat)
    requires !NonNegative(xs)
    ensures i < |xs| && xs[i] < 0 && forall k :: 0 <= k < i ==> xs[k] >= 0
  {
    if xs[0] < 0 then 0 else 1 + FirstNegative(xs[1..])
  }

  /** The final cast of every entry to `usize`: it stops at the first negative one. */
  function CastDims(xs: seq<int>): (r: Result<Shape>)
  {
    if !NonNegative(xs) then Err(Panic(CastMessage(xs[FirstNegative(xs)])))
    else Ok(seq(|xs|, i requires 0 <= i < |xs| => xs[i] as nat))
  }

  /** `Reshape::reshape` for an integer entry type `dt`: the new shape, or the
      panic it stops with. For an unsigned type `D::from(-1)` is `None`, so the
      first entry already panics. */
  function Reshaped(original: Shape, dims: seq<int>, dt: DType): Result<Shape>
    requires !IsFloat(dt)
  {
    if !IsSigned(dt) && dims != [] then Err(Panic(UNWRAP_NONE))
    else if ScanFault(dims, dt, |dims|).Some? then Err(ScanFault(dims, dt, |dims|).value)
    else match UnknownAt(dims)
      case None => CastDims(dims)
      case Some(u) =>
        var p := KnownProduct(dims);
        if p < 0 then Err(Panic(UNWRAP_NONE))
        else if !InRange(Product(original) / p, dt) then Err(Panic(UNKNOWN_TOO_LARGE))
        else CastDims(dims[u := Product(original) / p])
  }

  lemma KnownProductStep(dims: seq<int>, i: nat)
    requires i < |dims|
    ensures KnownProduct(dims[..i + 1]) == KnownProduct(dims[..i]) * (if Known(dims[i]) then dims[i] else 1)
    ensures UnknownAt(dims[..i + 1]) ==
      (if UnknownAt(dims[..i]).Some? then UnknownAt(dims[..i]) else if dims[i] == -1 then Some(i) else None)
  {
    assert dims[..i + 1][..i] == dims[..i];
  }

  /** The outcome of the scan: its first panic, or the product of the known
      entries and the position of the wildcard. */
  function Scanned(dims: seq<int>, dt: DType): Result<(int, Option<nat>)>
  {
    if !IsSigned(dt) && dims != [] then Err(Panic(UNWRAP_NONE))
    else if ScanFault(dims, dt, |dims|).Some? then Err(ScanFault(dims, dt, |dims|).value)
    else Ok((KnownProduct(dims), UnknownAt(dims)))
  }

  /** `Reshape::reshape` as written: a scan that multiplies the known entries
      and remembers the wildcard, the wildcard filled in, and a cast of every
      entry to `usize`. */
  method Reshape(original: Shape, dims: seq<int>, dt: DType) returns (r: Result<Shape>)
    requires !IsFloat(dt)
    ensures r == Reshaped(original, dims, dt)
  {
    var shapeData := dims;
    var scan := Scan(dims, dt);
    if scan.Err? {
      return Err(scan.fault);
    }
    var product, unknown := scan.value.0, scan.value.1;
    if unknown.Some? {
      if product < 0 {
        return Err(Panic(UNWRAP_NONE));
      }
      var q := Product(original) / product;
      if !InRange(q, dt) {
        return Err(Panic(UNKNOWN_TOO_LARGE));
      }
      shapeData := shapeData[unknown.value := q];
    }
    r := CastEntries(shapeData);
  }

  /** The scan of `Reshape::reshape`: `D::from(-1)` for each entry, the product
      of the known entries and the position of the wildcard, or the first
      panic. */
  method Scan(dims: seq<int>, dt: DType) returns (r: Result<(int, Option<nat>)>)
    requires !IsFloat(dt)
    ensures r == Scanned(dims, dt)
  {
    var product := 1;
    var unknown: Option<nat> := None;
    var i := 0;
    while i < |dims|
      invariant 0 <= i <= |dims|
      invariant i > 0 ==> IsSigned(dt)
      invariant ScanFault(dims, dt, i).None?
      invariant product == KnownProduct(dims[..i])
      invariant unknown == UnknownAt(dims[..i])
    {
      if !IsSigned(dt) {
        return Err(Panic(UNWRAP_NONE));
      }
      ScanAdvance(dims, dt, i);
      var d := dims[i];
      if d == -1 {
        if unknown.Some? {
          ScanFaultSticks(dims, dt, i + 1, |dims|);
          return Err(Panic(ONE_UNKNOWN));
        }
        unknown := Some(i);
      } else if d != 0 {
        if !InRange(product * d, dt) {
          ScanFaultSticks(dims, dt, i + 1, |dims|);
          return Err(Panic(MUL_OVERFLOW));
        }
        product := product * d;
      }
      i := i + 1;
    }
    assert dims[..i] == dims;
    r := Ok((product, unknown));
  }

  /** The closing `num::cast(x).unwrap()` of every entry, left to right. */
  method CastEntries(shapeData: seq<int>) returns (r: Result<Shape>)
    ensures r == CastDims(shapeData)
  {
    var newShape: Shape := [];
    for j := 0 to |shapeData|
      invariant forall k :: 0 <= k < j ==> shapeData[k] >= 0
      invariant |newShape| == j && forall k :: 0 <= k < j ==> newShape[k] == shapeData[k]
    {
      var e := shapeData[j];
      if e < 0 {
        assert FirstNegative(shapeData) == j;
        return Err(Panic(CastMessage(e)));
      }
      newShape := newShape + [e];
    }
    assert NonNegative(shapeData);
    assert newShape == seq(|shapeData|, k requires 0 <= k < |shapeData| => shapeData[k] as nat);
    r := Ok(newShape);
  }

  /** One more entry scanned after a scan without panic. */
  lemma ScanAdvance(dims: seq<int>, dt: DType, i: nat)
    requires i < |dims| && ScanFault(dims, dt, i).None?
    ensures ScanFault(dims, dt, i + 1) == StepFault(dims, dt, i)
    ensures KnownProduct(dims[..i + 1]) == KnownProduct(dims[..i]) * (if Known(dims[i]) then dims[i] else 1)
    ensures UnknownAt(dims[..i + 1]) ==
      (if UnknownAt(dims[..i]).Some? then UnknownAt(dims[..i]) else if dims[i] == -1 then Some(i) else None)
  {
    KnownProductStep(dims, i);
  }

  lemma {:induction false} ScanFaultSticks(dims: seq<int>, dt: DType, n: nat, m: nat)
    requires n <= m <= |dims|
    requires ScanFault(dims, dt, n).Some?
    ensures ScanFault(dims, dt, m) == ScanFault(dims, dt, n)
    decreases m - n
  {
    if n < m {
      ScanFaultSticks(dims, dt, n, m - 1);
    }
  }

  lemma {:induction false} ScanFaultPrefix(dims: seq<int>, dt: DType, m: nat, n: nat)
    requires m <= n <= |dims|
    requires ScanFault(dims, dt, n).None?
    ensures ScanFault(dims, dt, m).None?
    decreases n - m
  {
    if m < n {
      ScanFaultPrefix(dims, dt, m + 1, n);
    }
  }

  /** What a successful reshape produces: as many entries as the shape tensor
      holds, each one copied (0 included) except the single -1, which becomes
      the input's element count divided by the product of the known entries;
      there is at most one -1, and the product of the known entries is
      positive when there is one. */
  lemma ReshapedEntries(original: Shape, dims: seq<int>, dt: DType)
    requires !IsFloat(dt) && Reshaped(original, dims, dt).Ok?
    ensures var r := Reshaped(original, dims, dt).value;
      |r| == |dims|
      && (forall i, j :: 0 <= i < j < |dims| && dims[i] == -1 ==> dims[j] != -1)
      && (UnknownAt(dims).None? ==> forall i :: 0 <= i < |dims| ==> r[i] == dims[i])
      && (UnknownAt(dims).Some? ==>
            var u := UnknownAt(dims).value;
            KnownProduct(dims) > 0 && r[u] == Product(original) / KnownProduct(dims)
            && forall i :: 0 <= i < |dims| && i != u ==> r[i] == dims[i])
  {
    if !IsSigned(dt) {
      assert dims == [];
    } else {
      AtMostOneWildcard(dims, dt);
    }
  }

  /** A scan that does not panic saw at most one -1. */
  lemma AtMostOneWildcard(dims: seq<int>, dt: DType)
    requires ScanFault(dims, dt, |dims|).None?
    ensures forall i, j :: 0 <= i < j < |dims| && dims[i] == -1 ==> dims[j] != -1
  {
    forall i, j | 0 <= i < j < |dims| && dims[i] == -1
      ensures dims[j] != -1
    {
      ScanFaultPrefix(dims, dt, j + 1, |dims|);
      assert StepFault(dims, dt, j).None?;
      assert dims[..j][i] == -1;
    }
  }

  /** Two -1 entries always panic, whatever comes before them. */
  lemma SecondUnknownPanics(original: Shape, dims: seq<int>, dt: DType, i: nat, j: nat)
    requires !IsFloat(dt) && i < j < |dims| && dims[i] == -1 && dims[j] == -1
    ensures IsPanic(Reshaped(original, dims, dt))
  {
    if Reshaped(original, dims, dt).Ok? {
      ReshapedEntries(original, dims, dt);
    }
  }

  /** The product of a list of known entries, one of which may have been the
      wildcard (at `u`) and been replaced by `ys[u]`. */
  lemma {:induction false} ProductWithWildcard(xs: seq<int>, ys: seq<nat>, u: nat)
    requires |xs| == |ys|
    requires forall i :: 0 <= i < |xs| && i != u ==> Known(xs[i]) && ys[i] == xs[i]
    requires u < |xs| ==> xs[u] == -1
    ensures Product(ys) == (if u < |xs| then ys[u] else 1) * KnownProduct(xs)
  {
    var n := |xs|;
    if n > 0 {
      var xs', ys' := xs[..n - 1], ys[..n - 1];
      assert ys == ys' + [ys[n - 1]];
      ProductAppend(ys', [ys[n - 1]]);
      assert Product([ys[n - 1]]) == ys[n - 1];
      ProductWithWildcard(xs', ys', u);
      var c := if u < n then ys[u] else 1;
      if u == n - 1 {
        assert Product(ys') == KnownProduct(xs');
        assert KnownProduct(xs) == KnownProduct(xs');
      } else {
        assert c == (if u < |xs'| then ys'[u] else 1);
        var k', y := KnownProduct(xs'), ys[n - 1];
        assert Product(ys') == c * k';
        assert KnownProduct(xs) == k' * y;
        assert Product(ys) == (c * k') * y;
        MulAssoc(c, k', y);
      }
    }
  }

  /** With no 0 entry and no wildcard, the new shape has the product of its
      entries. */
  lemma ElementCountWithoutWildcard(original: Shape, dims: seq<int>, dt: DType)
    requires !IsFloat(dt) && Reshaped(original, dims, dt).Ok?
    requires forall i :: 0 <= i < |dims| ==> dims[i] != 0
    requires UnknownAt(dims).None?
    ensures Product(Reshaped(original, dims, dt).value) == KnownProduct(dims)
  {
    ReshapedEntries(original, dims, dt);
    ProductWithWildcard(dims, Reshaped(original, dims, dt).value, |dims|);
  }

  /** With no 0 entry, filling in the wildcard keeps the input's element count
      when the known entries divide it. */
  lemma ElementCountKept(original: Shape, dims: seq<int>, dt: DType)
    requires !IsFloat(dt) && Reshaped(original, dims, dt).Ok?
    requires forall i :: 0 <= i < |dims| ==> dims[i] != 0
    requires UnknownAt(dims).Some? && Product(original) % KnownProduct(dims) == 0
    ensures Product(Reshaped(original, dims, dt).value) == Product(original)
  {
    var r := Reshaped(original, dims, dt).value;
    var u := UnknownAt(dims).value;
    ReshapedEntries(original, dims, dt);
    forall i | 0 <= i < |dims| && i != u
      ensures Known(dims[i])
    {
      assert dims[u] == -1;
    }
    ProductWithWildcard(dims, r, u);
    ExactQuotient(Product(original), KnownProduct(dims));
  }

  lemma ExactQuotient(a: int, p: int)
    requires p > 0 && a % p == 0
    ensures (a / p) * p == a
  {
  }

  /** A 0 entry is copied, not taken from the input: `[0, -1]` on a 2 x 3 input
      gives `[0, 6]`, which has no elements at all. */
  lemma ZeroIsCopied()
    ensures Reshaped([2, 3], [0, -1], I64) == Ok([0, 6])
  {
    var dims := [0, -1];
    assert dims[..0] == [] && dims[..1] == [0] && dims[..2] == dims;
    assert KnownProduct([0]) == 1;
    assert KnownProduct(dims) == 1;
    assert UnknownAt(dims) == Some(1);
    assert ScanFault(dims, I64, 2).None?;
    assert Product([2, 3]) == 6;
    assert dims[1 := 6] == [0, 6];
    assert NonNegative([0, 6]);
    assert seq(2, i requires 0 <= i < 2 => [0, 6][i] as nat) == [0, 6];
  }

  /** `Reshape::realize`: exactly two providers; the second holds the entries
      (a float shape tensor is outside the model); the output is a zero tensor
      of the first provider's dtype in the new shape, at no cost. */
  function Realize(providers: seq<Tensors.Tensor>): (r: Result<RealizedOp>)
    requires |providers| == 2 ==> Readable(providers[1])
    ensures |providers| != 2 ==> r == Err(ProviderCount(2, 2, |providers|, NAME))
    ensures |providers| == 2 && IsFloat(providers[1].dt) ==> r.Err? && r.fault.NotModelled?
    ensures |providers| == 2 && !IsFloat(providers[1].dt) ==>
      var s := Reshaped(providers[0].shape, IntElements(providers[1]), providers[1].dt);
      (r.Ok? <==> s.Ok?)
      && (r.Err? ==> r.fault == s.fault)
      && (r.Ok? ==> r.value.cost == ZeroCost && r.value.outputs == [New(providers[0].dt, s.value)])
  {
    if |providers| != 2 then Err(ProviderCount(2, 2, |providers|, NAME))
    else if IsFloat(providers[1].dt) then Err(NotModelled("Reshape with a floating-point shape tensor"))
    else
      var s := Reshaped(providers[0].shape, IntElements(providers[1]), providers[1].dt);
      if s.Err? then Err(s.fault)
      else Ok(RealizedZeroCost([New(providers[0].dt, s.value)]))
  }

  /** A 1 x 1280 x 1 x 1 input reshaped by `[1280, 1]` becomes 1280 x 1. */
  lemma ClassifierHead()
    ensures Reshaped([1, 1280, 1, 1], [1280, 1], I64) == Ok([1280, 1])
  {
    var vals := [1280, 1];
    assert vals[..0] == [] && vals[..1] == [1280] && vals[..2] == vals;
    assert KnownProduct([1280]) == 1280;
    assert ScanFault(vals, I64, 2).None?;
    assert UnknownAt(vals).None?;
    assert NonNegative(vals);
    assert seq(2, i requires 0 <= i < 2 => vals[i] as nat) == [1280, 1];
  }

  /** The same through `realize`, with the entries in an `i64` tensor (one
      built by `from_vec`, say: `Tensors.FromVecRoundTrip`). */
  lemma ClassifierHeadRealized(x: Tensors.Tensor, s: Tensors.Tensor)
    requires x.shape == [1, 1280, 1, 1]
    requires s.dt == I64 && Readable(s) && IntElements(s) == [1280, 1]
    ensures Realize([x, s]).Ok? && Realize([x, s]).value.outputs == [New(x.dt, [1280, 1])]
  {
    ClassifierHead();
  }
}
