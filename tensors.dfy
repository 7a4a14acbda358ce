/** `Tensor` and `DType` (crates/ir/src/tensor.rs).

    A tensor is a dtype, a shape, an element count `len` and a byte buffer. The
    buffer is modelled as bytes, as the code keeps it (`BytesMut`); the typed
    views the code takes by pointer casts are modelled for the integer dtypes by
    a little-endian two's-complement codec, which is what those casts read on the
    little-endian targets the code runs on. */
module Tensors {
  import opened Wrappers
  import opened Shapes
  import Numerics

  type Byte = x: int | 0 <= x < 256

  datatype DType = U8 | U16 | U32 | U64 | I8 | I16 | I32 | I64 | F16 | F32 | F64

  /** `DType::default()` */
  const DEFAULT_DTYPE: DType := F32

  /** The std type `as_std!` dispatches a dtype to, named by its dtype: every dtype
      goes to its own type except F16, which goes to `i16`. */
  function AsStd(dt: DType): DType
  {
    if dt == F16 then I16 else dt
  }

  predicate IsFloat(dt: DType) { dt == F32 || dt == F64 }

  predicate IsSigned(dt: DType) { AsStd(dt) in {I8, I16, I32, I64} }

  /** `DType::size_of`: `mem::size_of` of the `as_std!` type, in bytes. */
  function SizeOf(dt: DType): (n: nat)
    ensures n in {1, 2, 4, 8}
  {
    match dt
    case U8 | I8 => 1
    case U16 | I16 | F16 => 2
    case U32 | I32 | F32 => 4
    case U64 | I64 | F64 => 8
  }

  /** F16 has the width of the `i16` it is dispatched to. */
  lemma SizeOfStd(dt: DType)
    ensures SizeOf(AsStd(dt)) == SizeOf(dt)
  {
  }

  // ---------------------------------------------------------------------------
  // Arithmetic on element offsets

  /** Byte offset `k` of a buffer of `n` elements of width `w` lies in element
      `k / w`, at position `k % w` inside it. */
  lemma OffsetInElement(k: nat, w: nat, n: nat)
    requires w > 0 && k < n * w
    ensures k / w < n
    ensures (k / w) * w + k % w == k && k % w < w
    ensures (k / w + 1) * w <= n * w
  {
    var i, j := k / w, k % w;
    assert k == i * w + j && 0 <= j < w;
    if i >= n {
      Numerics.MulMono(n, i, w);
    }
    Numerics.MulMono(i + 1, n, w);
  }

  /** A slice of a concatenation that lies in its second part. */
  lemma SliceOfAppend<T>(p: seq<T>, q: seq<T>, lo: nat, hi: nat)
    requires |p| <= lo <= hi <= |p| + |q|
    ensures (p + q)[lo..hi] == q[lo - |p|..hi - |p|]
  {
  }

  // ---------------------------------------------------------------------------
  // Integer element codec

  function Pow256(n: nat): (p: nat)
    ensures p >= 1
  {
    if n == 0 then 1 else 256 * Pow256(n - 1)
  }

  /** The `n` little-endian bytes of `u`. */
  function EncodeLE(u: nat, n: nat): (bs: seq<Byte>)
    ensures |bs| == n
  {
    if n == 0 then [] else [u % 256] + EncodeLE(u / 256, n - 1)
  }

  function DecodeLE(bs: seq<Byte>): (u: nat)
  {
    if bs == [] then 0 else bs[0] + 256 * DecodeLE(bs[1..])
  }

  lemma {:induction false} DecodeLEBound(bs: seq<Byte>)
    ensures DecodeLE(bs) < Pow256(|bs|)
  {
    if bs != [] {
      DecodeLEBound(bs[1..]);
    }
  }

  lemma {:induction false} DecodeEncodeLE(u: nat, n: nat)
    requires u < Pow256(n)
    ensures DecodeLE(EncodeLE(u, n)) == u
  {
    if n > 0 {
      DecodeEncodeLE(u / 256, n - 1);
      assert EncodeLE(u, n)[1..] == EncodeLE(u / 256, n - 1);
    }
  }

  lemma {:induction false} EncodeDecodeLE(bs: seq<Byte>)
    ensures EncodeLE(DecodeLE(bs), |bs|) == bs
  {
    if bs != [] {
      var u := DecodeLE(bs);
      assert u % 256 == bs[0] && u / 256 == DecodeLE(bs[1..]);
      EncodeDecodeLE(bs[1..]);
    }
  }

  /** The smallest and largest value of an integer dtype's `as_std!` type. */
  function MinValue(dt: DType): int
  {
    if IsSigned(dt) then -(Pow256(SizeOf(dt)) / 2) else 0
  }

  function MaxValue(dt: DType): int
  {
    if IsSigned(dt) then Pow256(SizeOf(dt)) / 2 - 1 else Pow256(SizeOf(dt)) - 1
  }

  predicate InRange(x: int, dt: DType)
  {
    MinValue(dt) <= x <= MaxValue(dt)
  }

  /** The bytes of one element: two's complement for the signed types. */
  function EncodeValue(x: int, dt: DType): (bs: seq<Byte>)
    requires !IsFloat(dt) && InRange(x, dt)
    ensures |bs| == SizeOf(dt)
  {
    EncodeLE(if x < 0 then x + Pow256(SizeOf(dt)) else x, SizeOf(dt))
  }

  /** The element stored in `bs`, read as the `as_std!` type of `dt`. */
  function DecodeValue(bs: seq<Byte>, dt: DType): (x: int)
    requires !IsFloat(dt) && |bs| == SizeOf(dt)
    ensures InRange(x, dt)
  {
    DecodeLEBound(bs);
    var u := DecodeLE(bs);
    if IsSigned(dt) && u >= Pow256(SizeOf(dt)) / 2 then u - Pow256(SizeOf(dt)) else u
  }

  /** The codec is a bijection between the values of an integer dtype and its
      byte images: reading back what was written gives the value, and writing
      back what was read gives the bytes. */
  lemma ValueRoundTrip(x: int, dt: DType)
    requires !IsFloat(dt) && InRange(x, dt)
    ensures DecodeValue(EncodeValue(x, dt), dt) == x
  {
    var w := SizeOf(dt);
    var p := Pow256(w);
    var u := if x < 0 then x + p else x;
    assert 0 <= u < p;
    DecodeEncodeLE(u, w);
    assert DecodeLE(EncodeValue(x, dt)) == u;
  }

  lemma BytesRoundTrip(bs: seq<Byte>, dt: DType)
    requires !IsFloat(dt) && |bs| == SizeOf(dt)
    ensures EncodeValue(DecodeValue(bs, dt), dt) == bs
  {
    DecodeLEBound(bs);
    EncodeDecodeLE(bs);
  }

  /** The byte image of a list of elements, as a `Vec<T>` holds it. */
  function EncodeValues(xs: seq<int>, dt: DType): (bs: seq<Byte>)
    requires !IsFloat(dt) && forall i :: 0 <= i < |xs| ==> InRange(xs[i], dt)
    ensures |bs| == |xs| * SizeOf(dt)
  {
    if xs == [] then []
    else
      var rest := EncodeValues(xs[1..], dt);
      Numerics.MulSucc(|xs| - 1, SizeOf(dt));
      EncodeValue(xs[0], dt) + rest
  }

  /** Element `i` of a byte buffer holding elements of `dt`. */
  function ElementBytes(bs: seq<Byte>, dt: DType, i: nat): (e: seq<Byte>)
    requires (i + 1) * SizeOf(dt) <= |bs|
    ensures |e| == SizeOf(dt)
  {
    bs[i * SizeOf(dt)..(i + 1) * SizeOf(dt)]
  }

  /** The first `count` elements of `bs`, read as the `as_std!` type of `dt`. */
  function DecodeValues(bs: seq<Byte>, dt: DType, count: nat): (xs: seq<int>)
    requires !IsFloat(dt) && count * SizeOf(dt) <= |bs|
    ensures |xs| == count
  {
    seq(count, i requires 0 <= i < count =>
      assert (i + 1) * SizeOf(dt) <= count * SizeOf(dt);
      DecodeValue(ElementBytes(bs, dt, i), dt))
  }

  lemma {:induction false} EncodedElement(xs: seq<int>, dt: DType, i: nat)
    requires !IsFloat(dt) && forall k :: 0 <= k < |xs| ==> InRange(xs[k], dt)
    requires i < |xs|
    ensures (i + 1) * SizeOf(dt) <= |EncodeValues(xs, dt)|
    ensures ElementBytes(EncodeValues(xs, dt), dt, i) == EncodeValue(xs[i], dt)
  {
    var w := SizeOf(dt);
    Numerics.MulMono(i + 1, |xs|, w);
    var head, tail := EncodeValue(xs[0], dt), EncodeValues(xs[1..], dt);
    assert EncodeValues(xs, dt) == head + tail;
    if i == 0 {
      assert (head + tail)[0..w] == head;
    } else {
      EncodedElement(xs[1..], dt, i - 1);
      Numerics.MulSucc(i - 1, w);
      Numerics.MulSucc(i, w);
      SliceOfAppend(head, tail, i * w, (i + 1) * w);
    }
  }

  /** Writing a list of integers as bytes and reading them back loses nothing. */
  lemma ValuesRoundTrip(xs: seq<int>, dt: DType)
    requires !IsFloat(dt) && forall i :: 0 <= i < |xs| ==> InRange(xs[i], dt)
    ensures DecodeValues(EncodeValues(xs, dt), dt, |xs|) == xs
  {
    forall i | 0 <= i < |xs|
      ensures DecodeValues(EncodeValues(xs, dt), dt, |xs|)[i] == xs[i]
    {
      EncodedElement(xs, dt, i);
      ValueRoundTrip(xs[i], dt);
    }
  }

  // ---------------------------------------------------------------------------
  // The container

  datatype Tensor = Tensor(dt: DType, shape: Shape, len: nat, data: seq<Byte>)

  /** What every constructor of the file establishes: `len` is the element count of
      the shape and the buffer holds exactly `len` elements of the dtype. */
  predicate Valid(t: Tensor)
  {
    t.len == Product(t.shape) && |t.data| == t.len * SizeOf(t.dt)
  }

  /** The unchecked typed view reads `len` elements: it stays inside the buffer. */
  predicate Readable(t: Tensor)
  {
    t.len * SizeOf(t.dt) <= |t.data|
  }

  /** `Tensor::default()`: dtype F32, the empty shape, no elements and no bytes.
      Its shape has one element by `numel`, so it is readable but not valid. */
  const DefaultTensor: Tensor := Tensor(DEFAULT_DTYPE, [], 0, [])

  lemma DefaultTensorIsEmpty()
    ensures Readable(DefaultTensor) && !Valid(DefaultTensor)
    ensures Numel(DefaultTensor) == 1 && DefaultTensor.len == 0
  {
  }

  function ZeroBytes(n: nat): (bs: seq<Byte>)
    ensures |bs| == n && forall i :: 0 <= i < n ==> bs[i] == 0
  {
    seq(n, _ => 0)
  }

  /** `Tensor::new(dt, shape)`, and `zeros::<T>` / `uninitialized::<T>` with `dt` the
      dtype of `T`: a zero-filled buffer for every element of the shape. */
  function New(dt: DType, shape: Shape): (t: Tensor)
    ensures Valid(t)
    ensures t.dt == dt && t.shape == shape && t.len == Product(shape)
    ensures forall i :: 0 <= i < |t.data| ==> t.data[i] == 0
  {
    var len := Product(shape);
    Tensor(dt, shape, len, ZeroBytes(len * SizeOf(dt)))
  }

  /** `Tensor::from_vec::<T>(shape, data)` with `raw` the memory image of `data` and
      `dt` the dtype of `T`: it copies the bytes of the first `product(shape)`
      elements. Fewer elements than that is a read past the vector, so the caller
      must supply enough. */
  function FromVec(dt: DType, shape: Shape, raw: seq<Byte>): (t: Tensor)
    requires Product(shape) * SizeOf(dt) <= |raw|
    ensures Valid(t)
    ensures t.dt == dt && t.shape == shape && t.len == Product(shape)
    ensures t.data == raw[..t.len * SizeOf(dt)]
  {
    var len := Product(shape);
    Tensor(dt, shape, len, raw[..len * SizeOf(dt)])
  }

  /** The elements of an integer tensor, as its typed view reads them. */
  function IntElements(t: Tensor): (xs: seq<int>)
    requires !IsFloat(t.dt) && Readable(t)
    ensures |xs| == t.len
  {
    DecodeValues(t.data, t.dt, t.len)
  }

  /** A tensor built by `from_vec` from integer values reads back as the first
      `product(shape)` of those values. */
  lemma FromVecRoundTrip(dt: DType, shape: Shape, xs: seq<int>)
    requires !IsFloat(dt) && forall i :: 0 <= i < |xs| ==> InRange(xs[i], dt)
    requires Product(shape) <= |xs|
    ensures Product(shape) * SizeOf(dt) <= |EncodeValues(xs, dt)|
    ensures IntElements(FromVec(dt, shape, EncodeValues(xs, dt))) == xs[..Product(shape)]
  {
    var n, w := Product(shape), SizeOf(dt);
    var bs := EncodeValues(xs, dt);
    Numerics.MulMono(n, |xs|, w);
    var t := FromVec(dt, shape, bs);
    forall i | 0 <= i < n
      ensures IntElements(t)[i] == xs[i]
    {
      FromVecElement(dt, shape, xs, i);
    }
  }

  lemma FromVecElement(dt: DType, shape: Shape, xs: seq<int>, i: nat)
    requires !IsFloat(dt) && forall k :: 0 <= k < |xs| ==> InRange(xs[k], dt)
    requires i < Product(shape) <= |xs|
    requires Product(shape) * SizeOf(dt) <= |EncodeValues(xs, dt)|
    ensures IntElements(FromVec(dt, shape, EncodeValues(xs, dt)))[i] == xs[i]
  {
    var n, w := Product(shape), SizeOf(dt);
    var bs := EncodeValues(xs, dt);
    var t := FromVec(dt, shape, bs);
    EncodedElement(xs, dt, i);
    Numerics.MulMono(i + 1, n, w);
    PrefixElement(bs, dt, n * w, i);
    ValueRoundTrip(xs[i], dt);
  }

  /** Cutting a buffer after element `i` leaves element `i` as it was. */
  lemma PrefixElement(bs: seq<Byte>, dt: DType, m: nat, i: nat)
    requires (i + 1) * SizeOf(dt) <= m <= |bs|
    ensures ElementBytes(bs[..m], dt, i) == ElementBytes(bs, dt, i)
  {
  }

  /** `numel`: the element count of the shape, whatever `len` says. */
  function Numel(t: Tensor): nat
  {
    Product(t.shape)
  }

  /** `rank`: the number of dimensions. */
  function Rank(t: Tensor): nat
  {
    |t.shape|
  }

  lemma NumelOfValid(t: Tensor)
    requires Valid(t)
    ensures Numel(t) == t.len && |t.data| == Numel(t) * SizeOf(t.dt)
  {
  }

  /** `update_shape`: the shape is replaced and nothing else changes. */
  function UpdateShape(t: Tensor, newShape: Shape): (u: Tensor)
    ensures u.shape == newShape
    ensures u.dt == t.dt && u.len == t.len && u.data == t.data
  {
    t.(shape := newShape)
  }

  /** There is no error check: the result is valid exactly when the new shape has
      as many elements as the old one. */
  lemma UpdateShapeValidity(t: Tensor, newShape: Shape)
    requires Valid(t)
    ensures Valid(UpdateShape(t, newShape)) <==> Product(newShape) == Product(t.shape)
  {
  }

  /** `to_scalar::<D>()` with `width` the size of `D`: an error on an empty tensor,
      otherwise the bytes of the first element. */
  function ToScalar(t: Tensor, width: nat): (r: Result<seq<Byte>>)
    requires t.len == 0 || width <= |t.data|
    ensures r.Err? <==> t.len == 0
    ensures r.Err? ==> IsBail(r)
    ensures r.Ok? ==> r.value == t.data[..width]
  {
    if t.len == 0 then Err(Bail("to_scalar called on empty tensor")) else Ok(t.data[..width])
  }

  /** The typed slice `as_slice_unchecked` reads: the first `len` elements. */
  function TypedSlice(t: Tensor): (elems: seq<seq<Byte>>)
    requires Readable(t)
    ensures |elems| == t.len
  {
    seq(t.len, i requires 0 <= i < t.len =>
      assert (i + 1) * SizeOf(t.dt) <= t.len * SizeOf(t.dt);
      ElementBytes(t.data, t.dt, i))
  }

  /** `impl PartialEq for Tensor`: equal dtype, shape and length, and equal typed
      slices. Elements are compared by their bytes, which is the comparison of the
      integer dtypes (floats, where NaN and signed zeros differ, are not modelled). */
  predicate TensorEq(a: Tensor, b: Tensor)
    requires Readable(a) && Readable(b)
  {
    a.dt == b.dt && a.shape == b.shape && a.len == b.len && TypedSlice(a) == TypedSlice(b)
  }

  /** On valid tensors the crate's equality is exactly equality of the values. */
  lemma TensorEqIsEquality(a: Tensor, b: Tensor)
    requires Valid(a) && Valid(b)
    ensures TensorEq(a, b) <==> a == b
  {
    if TensorEq(a, b) {
      var w := SizeOf(a.dt);
      forall k | 0 <= k < |a.data|
        ensures a.data[k] == b.data[k]
      {
        OffsetInElement(k, w, a.len);
        var i, j := k / w, k % w;
        assert TypedSlice(a)[i] == TypedSlice(b)[i];
        assert TypedSlice(a)[i][j] == a.data[k];
        assert TypedSlice(b)[i][j] == b.data[k];
      }
      assert a.data == b.data;
    }
  }
}
