/** `Gather` (crates/ir/src/ops/shape/gather.rs): the output shape only. The
    shape rule, `compute_output_shape`, is the same text in both trees. */
module CratesGather {
  import opened Wrappers
  import opened Shapes
  import opened Tensors
  import opened IrCore

  const NAME: string := "Gather"
  const GROUP: OpGroup := OpGroup.Shape

  datatype Gather = Gather(axis: int)

  /** The input dimensions with the dimension at `axis` replaced by the whole
      indices shape; an axis that matches no position leaves the input shape. */
  function Spliced(axis: int, input: Shape, indices: Shape): (r: Shape)
    ensures 0 <= axis < |input| ==> |r| == |input| - 1 + |indices|
    ensures !(0 <= axis < |input|) ==> r == input
  {
    if 0 <= axis < |input| then input[..axis] + indices + input[axis + 1..] else input
  }

  /** `compute_output_shape` as written: walk the input dimensions, pushing
      each one, except at position `axis`, where every indices dimension is
      pushed instead. */
  method ComputeOutputShape(axis: int, input: Shape, indices: Shape) returns (out: Shape)
    ensures out == Spliced(axis, input, indices)
  {
    out := [];
    for i := 0 to |input|
      invariant out == if 0 <= axis < i then input[..axis] + indices + input[axis + 1..i] else input[..i]
    {
      if i != axis {
        if 0 <= axis < i {
          assert input[axis + 1..i + 1] == input[axis + 1..i] + [input[i]];
        } else {
          assert input[..i + 1] == input[..i] + [input[i]];
        }
        out := out + [input[i]];
      } else {
        ghost var before := out;
        for k := 0 to |indices|
          invariant out == before + indices[..k]
        {
          assert indices[..k + 1] == indices[..k] + [indices[k]];
          out := out + [indices[k]];
        }
        assert indices[..|indices|] == indices;
        assert input[axis + 1..i + 1] == [];
      }
    }
    assert input[..|input|] == input;
  }

  /** The output holds one input slab per index: its element count is the
      input's with the axis dimension replaced by the number of indices. */
  lemma SplicedCount(axis: nat, input: Shape, indices: Shape)
    requires axis < |input|
    ensures Product(Spliced(axis, input, indices))
            == Product(input[..axis]) * Product(indices) * Product(input[axis + 1..])
    ensures Product(input) == Product(input[..axis]) * input[axis] * Product(input[axis + 1..])
  {
    ProductAppend(input[..axis] + indices, input[axis + 1..]);
    ProductAppend(input[..axis], indices);
    ProductAround(input, axis);
  }

  /** Gathering along an axis with a one-dimensional indices shape `[n]`
      keeps the rank and sets that dimension to `n`. */
  lemma OneDimensionalIndices(axis: nat, input: Shape, n: nat)
    requires axis < |input|
    ensures Spliced(axis, input, [n]) == input[axis := n]
  {
  }

  /** `realize`: exactly two providers; a zero-filled tensor of the first
      provider's dtype with the spliced shape, at zero cost. */
  function Realize(op: Gather, providers: seq<Tensors.Tensor>): (r: Result<RealizedOp>)
    ensures r.Err? <==> |providers| != 2
    ensures r.Err? ==> r.fault == ProviderCount(2, 2, |providers|, NAME)
    ensures r.Ok? ==> (r.value.cost == ZeroCost
      && r.value.outputs == [New(providers[0].dt, Spliced(op.axis, providers[0].shape, providers[1].shape))])
  {
    if |providers| != 2 then Err(ProviderCount(2, 2, |providers|, NAME))
    else Ok(RealizedZeroCost([New(providers[0].dt, Spliced(op.axis, providers[0].shape, providers[1].shape))]))
  }

  /** `build_gather`: `axis` defaults to 0. */
  function Build(axis: Option<int>): (r: Gather)
    ensures axis.None? ==> r.axis == 0
    ensures axis.Some? ==> r.axis == axis.value
  {
    Gather(axis.GetOr(0))
  }
}

/** `Gather` (steelix/src/ir/ops/shape/gather.rs): evaluates the gather on the
    data. A scalar index selects one slab along the axis; non-scalar indices
    along axis 0 stack the selected rows, and one-dimensional indices along
    another axis pick the selected slab in every block before that axis. */
module SteelixGather {
  import opened Wrappers
  import opened Numerics
  import opened Shapes
  import opened Tensors
  import opened IrCore
  import CratesGather

  const NAME: string := "Gather"
  const GROUP: OpGroup := OpGroup.Shape

  /** The assertion of `index_axis` on an index past the axis (paraphrased). */
  const INDEX_BELOW_DIM: string := "assertion failed: index < dim"

  datatype Gather = Gather(axis: int)

  // ---------------------------------------------------------------------------
  // One slab along an axis

  lemma SlabBound(outer: nat, b: nat, j: nat)
    requires j < outer * b
    ensures b > 0 && j / b < outer
  {
    MulPositive(outer, b);
    var q := j / b;
    if q >= outer {
      MulMono(outer, q, b);
      assert false;
    }
  }

  /** Byte `m` of slab `index` of block `q` lies inside `outer` blocks of `d`
      slabs of `b` bytes. */
  lemma BlockBound(outer: nat, d: nat, b: nat, index: nat, q: nat, m: nat)
    requires q < outer && index < d && m < b
    ensures (q * d + index) * b + m < outer * d * b
  {
    MulMono(q, outer - 1, d);
    assert (outer - 1) * d == outer * d - d;
    var row := q * d + index;
    assert row + 1 <= outer * d;
    MulMono(row + 1, outer * d, b);
    assert (row + 1) * b == row * b + b;
  }

  /** Where byte `j` of the slab comes from: byte `j % b` of slab `index` of
      block `j / b`. */
  function SlabSource(outer: nat, d: nat, b: nat, index: nat, j: nat): (s: nat)
    requires index < d && j < outer * b
    ensures s < outer * d * b
  {
    SlabBound(outer, b, j);
    var q: nat, m: nat := j / b, j % b;
    BlockBound(outer, d, b, index, q, m);
    (q * d + index) * b + m
  }

  /** The bytes of `index_axis`: the data seen as `outer` blocks of `d` slabs of
      `b` bytes, and from each block the slab at `index`. */
  function Slab(bytes: seq<Byte>, outer: nat, d: nat, b: nat, index: nat): (r: seq<Byte>)
    requires index < d && outer * d * b <= |bytes|
    ensures |r| == outer * b
  {
    seq(outer * b, j requires 0 <= j < outer * b => bytes[SlabSource(outer, d, b, index, j)])
  }

  /** Byte `k` of block `o` of the slab is byte `k` of slab `index` of block `o`
      of the data. */
  lemma SlabEntry(bytes: seq<Byte>, outer: nat, d: nat, b: nat, index: nat, o: nat, k: nat)
    requires index < d && outer * d * b <= |bytes|
    requires o < outer && k < b
    ensures 0 <= o * b + k < outer * b && 0 <= (o * d + index) * b + k < |bytes|
    ensures Slab(bytes, outer, d, b, index)[o * b + k] == bytes[(o * d + index) * b + k]
  {
    MulNonNegative(o, b);
    MulNonNegative(o * d + index, b);
    var j := o * b + k;
    MulMono(o + 1, outer, b);
    assert (o + 1) * b == o * b + b;
    DivModUnique(j, b, k, o);
    assert SlabSource(outer, d, b, index, j) == (o * d + index) * b + k;
  }

  /** Split a valid tensor's shape around `axis`: `outer` leading elements,
      `d` along the axis, and `b` bytes per slab. */
  lemma SlabSizes(data: Tensors.Tensor, axis: nat)
    requires Valid(data) && axis < |data.shape|
    ensures var outer, b := Product(data.shape[..axis]), Product(data.shape[axis + 1..]) * SizeOf(data.dt);
      |data.data| == outer * data.shape[axis] * b
      && Product(data.shape[..axis] + data.shape[axis + 1..]) * SizeOf(AsStd(data.dt)) == outer * b
  {
    var outer, d, inner, w := Product(data.shape[..axis]), data.shape[axis], Product(data.shape[axis + 1..]), SizeOf(data.dt);
    ProductAround(data.shape, axis);
    ProductAppend(data.shape[..axis], data.shape[axis + 1..]);
    SizeOfStd(data.dt);
    MulAssoc(outer * d, inner, w);
    MulAssoc(outer, inner, w);
  }

  /** `index_axis(Axis(axis), index).to_owned()` on the data view: the entries
      at `index` along `axis`, as a tensor without that axis. An axis past the
      rank fails the shape lookup and an index past the axis fails the
      assertion; a negative value, cast to `usize`, is past either. */
  function IndexAxis(data: Tensors.Tensor, axis: int, index: int): (r: Result<Tensors.Tensor>)
    requires Valid(data)
    ensures r.Err? <==> !(0 <= axis < |data.shape| && 0 <= index < data.shape[axis])
    ensures r.Err? ==> r.fault.Panic?
    ensures r.Ok? ==> Valid(r.value) && r.value.dt == AsStd(data.dt)
                      && r.value.shape == data.shape[..axis] + data.shape[axis + 1..]
  {
    if !(0 <= axis < |data.shape|) then Err(Panic(OUT_OF_BOUNDS))
    else if !(0 <= index < data.shape[axis]) then Err(Panic(INDEX_BELOW_DIM))
    else
      var outer, b := Product(data.shape[..axis]), Product(data.shape[axis + 1..]) * SizeOf(data.dt);
      SlabSizes(data, axis);
      var shape := data.shape[..axis] + data.shape[axis + 1..];
      Ok(Tensors.Tensor(AsStd(data.dt), shape, Product(shape), Slab(data.data, outer, data.shape[axis], b, index)))
  }

  // ---------------------------------------------------------------------------
  // A scalar index

  /** The scalar index as written: a negative value is moved up by the size of
      axis 0, whatever the gather axis (a rank-0 input has no axis 0). */
  function ScalarIndexAsWritten(shape: Shape, v: int): Result<int>
  {
    if v >= 0 then Ok(v)
    else if |shape| == 0 then Err(Panic(OUT_OF_BOUNDS))
    else Ok(v + shape[0])
  }

  /** The scalar index as evidently intended: a negative value counts back
      from the end of the gather axis. */
  function ScalarIndexIntended(shape: Shape, axis: nat, v: int): (i: int)
    requires axis < |shape|
    ensures -shape[axis] <= v < shape[axis] ==> 0 <= i < shape[axis]
    ensures 0 <= v ==> i == v
    ensures v < 0 ==> i == shape[axis] + v
  {
    if v >= 0 then v else v + shape[axis]
  }

  /** The indices tensor can be read as `product(shape)` values of type `i64`,
      which is what `to_scalar::<i64>` and `to_array_view::<i64>` read. */
  predicate IndicesReadable(indices: Tensors.Tensor)
  {
    Product(indices.shape) * SizeOf(I64) <= |indices.data|
  }

  // ---------------------------------------------------------------------------
  // Non-scalar indices along axis 0

  /** A negative index moved up by `d`. */
  function Wrap(v: int, d: nat): int
  {
    if v >= 0 then v else v + d
  }

  predicate AllInRange(indices: seq<int>, d: nat)
  {
    forall k :: 0 <= k < |indices| ==> 0 <= Wrap(indices[k], d) < d
  }

  lemma RowFits(i: nat, d: nat, rowBytes: nat)
    requires i < d
    ensures i * rowBytes + rowBytes <= d * rowBytes
  {
    MulMono(i + 1, d, rowBytes);
  }

  /** Row `i` of `d` rows of `rowBytes` bytes. */
  function Row(bytes: seq<Byte>, d: nat, rowBytes: nat, i: nat): (r: seq<Byte>)
    requires |bytes| == d * rowBytes && i < d
    ensures |r| == rowBytes
    ensures forall c :: 0 <= c < rowBytes ==> i * rowBytes + c < |bytes| && r[c] == bytes[i * rowBytes + c]
  {
    RowFits(i, d, rowBytes);
    bytes[i * rowBytes..i * rowBytes + rowBytes]
  }

  /** The rows the indices select, one after another in row-major order of the
      indices. */
  function Rows(bytes: seq<Byte>, d: nat, rowBytes: nat, indices: seq<int>): (r: seq<Byte>)
    requires |bytes| == d * rowBytes && AllInRange(indices, d)
    ensures |r| == |indices| * rowBytes
  {
    if indices == [] then []
    else
      var n := |indices|;
      Rows(bytes, d, rowBytes, indices[..n - 1]) + Row(bytes, d, rowBytes, Wrap(indices[n - 1], d))
  }

  /** What the non-scalar loop computes: any index outside `-d..d` fails
      `index_axis`; otherwise the selected rows. */
  function GatheredRows(bytes: seq<Byte>, d: nat, rowBytes: nat, indices: seq<int>): Result<seq<Byte>>
    requires |bytes| == d * rowBytes
  {
    if !AllInRange(indices, d) then Err(Panic(INDEX_BELOW_DIM))
    else Ok(Rows(bytes, d, rowBytes, indices))
  }

  lemma RowsStep(bytes: seq<Byte>, d: nat, rowBytes: nat, indices: seq<int>, k: nat)
    requires |bytes| == d * rowBytes && k < |indices|
    requires AllInRange(indices[..k], d) && 0 <= Wrap(indices[k], d) < d
    ensures AllInRange(indices[..k + 1], d)
    ensures Rows(bytes, d, rowBytes, indices[..k + 1])
            == Rows(bytes, d, rowBytes, indices[..k]) + Row(bytes, d, rowBytes, Wrap(indices[k], d))
  {
    assert indices[..k + 1][..k] == indices[..k];
    assert indices[..k + 1] == indices[..k] + [indices[k]];
  }

  /** The loop over the indices, as written for axis 0: each index is moved
      up by `d` when negative and its row is written to the next output row. */
  method GatherRows(bytes: seq<Byte>, d: nat, rowBytes: nat, indices: seq<int>) returns (r: Result<seq<Byte>>)
    requires |bytes| == d * rowBytes
    ensures r == GatheredRows(bytes, d, rowBytes, indices)
  {
    var out := [];
    for k := 0 to |indices|
      invariant AllInRange(indices[..k], d)
      invariant out == Rows(bytes, d, rowBytes, indices[..k])
    {
      var v := indices[k];
      var i := if v >= 0 then v else v + d;
      if !(0 <= i < d) {
        assert !(0 <= Wrap(indices[k], d) < d);
        return Err(Panic(INDEX_BELOW_DIM));
      }
      RowsStep(bytes, d, rowBytes, indices, k);
      out := out + Row(bytes, d, rowBytes, i);
    }
    assert indices[..|indices|] == indices;
    r := Ok(out);
  }

  /** Output row `k` is the data row the `k`-th index selects. */
  lemma {:induction false} RowsEntry(bytes: seq<Byte>, d: nat, rowBytes: nat, indices: seq<int>, k: nat, c: nat)
    requires |bytes| == d * rowBytes && AllInRange(indices, d)
    requires k < |indices| && c < rowBytes
    ensures 0 <= k * rowBytes + c < |indices| * rowBytes
    ensures 0 <= Wrap(indices[k], d) < d && 0 <= Wrap(indices[k], d) * rowBytes + c < |bytes|
    ensures Rows(bytes, d, rowBytes, indices)[k * rowBytes + c] == bytes[Wrap(indices[k], d) * rowBytes + c]
  {
    var n := |indices|;
    MulNonNegative(k, rowBytes);
    MulNonNegative(Wrap(indices[k], d), rowBytes);
    RowFits(Wrap(indices[k], d), d, rowBytes);
    MulMono(k + 1, n, rowBytes);
    if k < n - 1 {
      assert indices[..n - 1][k] == indices[k];
      RowsEntry(bytes, d, rowBytes, indices[..n - 1], k, c);
    }
  }

  // ---------------------------------------------------------------------------
  // One-dimensional indices along any axis

  /** `q` lies in block `q / (n * b)` of `outer` blocks of `n * b` bytes. */
  lemma PickBound(outer: nat, n: nat, b: nat, q: nat)
    requires q < outer * n * b
    ensures n > 0 && b > 0 && q / (n * b) < outer
  {
    MulAssoc(outer, n, b);
    SlabBound(outer, n * b, q);
    MulPositive(n, b);
  }

  /** Where byte `q` of the gather along an axis comes from. The output is
      `outer` blocks of `n` slabs of `b` bytes; its byte `q % b` of slab
      `(q / b) % n` of block `q / (n * b)` is the same byte of the data's slab
      at the wrapped index `(q / b) % n`, in the same block. */
  function PickSource(outer: nat, d: nat, b: nat, indices: seq<int>, q: nat): (s: nat)
    requires AllInRange(indices, d) && q < outer * |indices| * b
    ensures s < outer * d * b
  {
    var n := |indices|;
    PickBound(outer, n, b, q);
    var o: nat, j: nat, m: nat := q / (n * b), (q / b) % n, q % b;
    BlockBound(outer, d, b, Wrap(indices[j], d), o, m);
    (o * d + Wrap(indices[j], d)) * b + m
  }

  /** The output bytes of a gather by the one-dimensional `indices` along an
      axis that splits the data into `outer` blocks of `d` slabs of `b` bytes. */
  function Picked(bytes: seq<Byte>, outer: nat, d: nat, b: nat, indices: seq<int>): (r: seq<Byte>)
    requires AllInRange(indices, d) && outer * d * b <= |bytes|
    ensures |r| == outer * |indices| * b
  {
    seq(outer * |indices| * b,
        q requires 0 <= q < outer * |indices| * b => bytes[PickSource(outer, d, b, indices, q)])
  }

  /** Byte `m` of output slab `j` of block `o` is byte `m` of the data's slab at
      the `j`-th index, moved up by `d` when negative, in block `o`. */
  lemma PickedEntry(bytes: seq<Byte>, outer: nat, d: nat, b: nat, indices: seq<int>, o: nat, j: nat, m: nat)
    requires AllInRange(indices, d) && outer * d * b <= |bytes|
    requires o < outer && j < |indices| && m < b
    ensures 0 <= (o * |indices| + j) * b + m < outer * |indices| * b
    ensures 0 <= (o * d + Wrap(indices[j], d)) * b + m < |bytes|
    ensures Picked(bytes, outer, d, b, indices)[(o * |indices| + j) * b + m]
            == bytes[(o * d + Wrap(indices[j], d)) * b + m]
  {
    var n, i := |indices|, Wrap(indices[j], d);
    var q := (o * n + j) * b + m;
    MulNonNegative(o * n + j, b);
    MulNonNegative(o * d + i, b);
    BlockBound(outer, n, b, j, o, m);
    BlockBound(outer, d, b, i, o, m);
    DivModUnique(q, b, m, o * n + j);
    DivModUnique(o * n + j, n, j, o);
    RowFits(j, n, b);
    assert q == o * (n * b) + (j * b + m) by {
      assert (o * n + j) * b == (o * n) * b + j * b;
      MulAssoc(o, n, b);
    }
    DivModUnique(q, n * b, j * b + m, o);
    assert PickSource(outer, d, b, indices, q) == (o * d + i) * b + m;
  }

  /** Along axis 0 there is one block, and the gather is the row gather. */
  lemma PickedOnAxisZero(bytes: seq<Byte>, d: nat, b: nat, indices: seq<int>)
    requires AllInRange(indices, d) && |bytes| == d * b
    ensures Picked(bytes, 1, d, b, indices) == Rows(bytes, d, b, indices)
  {
    var p, r := Picked(bytes, 1, d, b, indices), Rows(bytes, d, b, indices);
    assert |p| == |indices| * b == |r|;
    forall q | 0 <= q < |p|
      ensures p[q] == r[q]
    {
      PickedRowByte(bytes, d, b, indices, q);
    }
  }

  lemma PickedRowByte(bytes: seq<Byte>, d: nat, b: nat, indices: seq<int>, q: nat)
    requires AllInRange(indices, d) && |bytes| == d * b && q < |indices| * b
    ensures q < |Picked(bytes, 1, d, b, indices)| && q < |Rows(bytes, d, b, indices)|
    ensures Picked(bytes, 1, d, b, indices)[q] == Rows(bytes, d, b, indices)[q]
  {
    var n := |indices|;
    SplitIndex(q, n, b);
    var k, c := q / b, q % b;
    var w := Wrap(indices[k], d);
    PickedEntry(bytes, 1, d, b, indices, 0, k, c);
    assert (0 * n + k) * b + c == q && (0 * d + w) * b + c == w * b + c;
    RowsEntry(bytes, d, b, indices, k, c);
  }

  /** The output of a gather along `axis` holds `outer * n * b` bytes for `n`
      indices. */
  lemma AlongSizes(data: Tensors.Tensor, axis: nat, n: nat)
    requires Valid(data) && axis < |data.shape|
    ensures var outer, b := Product(data.shape[..axis]), Product(data.shape[axis + 1..]) * SizeOf(data.dt);
      var shape := CratesGather.Spliced(axis, data.shape, [n]);
      |data.data| == outer * data.shape[axis] * b
      && Product(shape) * SizeOf(AsStd(data.dt)) == outer * n * b
  {
    var outer, inner, w := Product(data.shape[..axis]), Product(data.shape[axis + 1..]), SizeOf(data.dt);
    SlabSizes(data, axis);
    CratesGather.SplicedCount(axis, data.shape, [n]);
    assert Product([n]) == n;
    SizeOfStd(data.dt);
    MulAssoc(outer * n, inner, w);
  }

  /** The non-scalar branch of `eval` for one-dimensional indices along an axis
      inside the data's rank: output slab `j` along the axis is the data's slab
      at the `j`-th index; an index outside `-d..d` fails `index_axis`. */
  function EvalAlong(axis: nat, data: Tensors.Tensor, indices: Tensors.Tensor): (r: Result<Tensors.Tensor>)
    requires Valid(data) && IndicesReadable(indices) && axis < |data.shape| && |indices.shape| == 1
    ensures r.Ok? <==> AllInRange(DecodeValues(indices.data, I64, Product(indices.shape)), data.shape[axis])
    ensures r.Err? ==> r.fault == Panic(INDEX_BELOW_DIM)
    ensures r.Ok? ==> Valid(r.value) && r.value.dt == AsStd(data.dt)
                      && r.value.shape == data.shape[axis := indices.shape[0]]
  {
    var n := indices.shape[0];
    assert indices.shape == [n] && Product(indices.shape) == n;
    var outer, d, b := Product(data.shape[..axis]), data.shape[axis], Product(data.shape[axis + 1..]) * SizeOf(data.dt);
    var vals := DecodeValues(indices.data, I64, n);
    if !AllInRange(vals, d) then Err(Panic(INDEX_BELOW_DIM))
    else
      AlongSizes(data, axis, n);
      CratesGather.OneDimensionalIndices(axis, data.shape, n);
      var shape := data.shape[axis := n];
      var bytes := Picked(data.data, outer, d, b, vals);
      assert |bytes| == Product(shape) * SizeOf(AsStd(data.dt));
      Ok(Tensors.Tensor(AsStd(data.dt), shape, Product(shape), bytes))
  }

  // ---------------------------------------------------------------------------
  // eval and realize

  /** The non-scalar branch of `eval` along axis 0 of a data tensor of rank
      at least 1: the rows selected by the indices, in an output of shape
      `indices.shape ++ data.shape[1..]`. */
  function EvalRows(data: Tensors.Tensor, indices: Tensors.Tensor): (r: Result<Tensors.Tensor>)
    requires Valid(data) && IndicesReadable(indices) && data.shape != []
    ensures r.Err? ==> r.fault == Panic(INDEX_BELOW_DIM)
    ensures r.Ok? ==> Valid(r.value) && r.value.dt == AsStd(data.dt)
                      && r.value.shape == indices.shape + data.shape[1..]
  {
    var d, rowBytes := data.shape[0], RowBytes(data);
    RowSizes(data);
    var rows := GatheredRows(data.data, d, rowBytes, DecodeValues(indices.data, I64, Product(indices.shape)));
    if rows.Err? then Err(rows.fault)
    else
      var shape := indices.shape + data.shape[1..];
      OutputSize(indices.shape, data.shape[1..], data.dt);
      Ok(Tensors.Tensor(AsStd(data.dt), shape, Product(shape), rows.value))
  }

  /** The bytes of one slice along axis 0. */
  function RowBytes(data: Tensors.Tensor): nat
    requires data.shape != []
  {
    Product(data.shape[1..]) * SizeOf(data.dt)
  }

  lemma RowSizes(data: Tensors.Tensor)
    requires Valid(data) && data.shape != []
    ensures |data.data| == data.shape[0] * RowBytes(data)
  {
    MulAssoc(data.shape[0], Product(data.shape[1..]), SizeOf(data.dt));
  }

  lemma OutputSize(indicesShape: Shape, rest: Shape, dt: DType)
    ensures Product(indicesShape) * (Product(rest) * SizeOf(dt))
            == Product(indicesShape + rest) * SizeOf(AsStd(dt))
  {
    SizeOfStd(dt);
    ProductAppend(indicesShape, rest);
    MulAssoc(Product(indicesShape), Product(rest), SizeOf(dt));
  }

  /** The scalar branch of `eval`: read the index, move a negative one up by
      the size of axis 0, and take that slab along the axis. */
  function EvalScalar(op: Gather, data: Tensors.Tensor, indices: Tensors.Tensor): (r: Result<Tensors.Tensor>)
    requires Valid(data) && IndicesReadable(indices) && indices.shape == []
    ensures r.Ok? ==> Valid(r.value) && r.value.dt == AsStd(data.dt)
  {
    var raw := ToScalar(indices, SizeOf(I64));
    if raw.Err? then Err(raw.fault)
    else
      var i := ScalarIndexAsWritten(data.shape, DecodeValue(raw.value, I64));
      if i.Err? then Err(i.fault)
      else IndexAxis(data, op.axis, i.value)
  }

  /** `Gather::eval` with `T` the standard type of the data's dtype. The output
      of the non-scalar branch starts as `Tensor::uninitialized`, a zeroed
      buffer; with no indices the loop never runs and it stays zero. Otherwise
      an axis outside the data's rank panics on the first `index_axis_mut`. */
  function Eval(op: Gather, data: Tensors.Tensor, indices: Tensors.Tensor): (r: Result<Tensors.Tensor>)
    requires Valid(data) && IndicesReadable(indices)
    ensures r.Ok? ==> Valid(r.value) && r.value.dt == AsStd(data.dt)
    ensures r.Ok? && indices.shape != [] ==>
      r.value.shape == CratesGather.Spliced(op.axis, data.shape, indices.shape)
    ensures indices.shape != [] && Product(indices.shape) == 0 ==>
      r == Ok(New(AsStd(data.dt), CratesGather.Spliced(op.axis, data.shape, indices.shape)))
    ensures indices.shape != [] && Product(indices.shape) > 0 && !(0 <= op.axis < |data.shape|) ==>
      r == Err(Panic(OUT_OF_BOUNDS))
  {
    if indices.shape == [] then EvalScalar(op, data, indices)
    else if Product(indices.shape) == 0 then
      Ok(New(AsStd(data.dt), CratesGather.Spliced(op.axis, data.shape, indices.shape)))
    else if !(0 <= op.axis < |data.shape|) then Err(Panic(OUT_OF_BOUNDS))
    else if op.axis == 0 then
      assert data.shape[..0] == [];
      EvalRows(data, indices)
    else if |indices.shape| == 1 then EvalAlong(op.axis, data, indices)
    else Err(NotModelled(ALONG_INNER_AXIS))
  }

  /** Indices of rank 2 or more along an axis other than 0: after the first
      index coordinate the code indexes axis 0 of the remaining output view,
      not the axes the indices occupy, and the assignment then broadcasts or
      panics depending on the dimensions. */
  const ALONG_INNER_AXIS: string := "Gather with indices of rank 2 or more along an axis other than 0"

  /** `realize`: there is no provider-count check, so fewer than two providers
      fail on `providers[1]`; the result of `eval` is the only output, at
      zero cost. */
  function Realize(op: Gather, providers: seq<Tensors.Tensor>): (r: Result<RealizedOp>)
    requires |providers| >= 2 ==> Valid(providers[0]) && IndicesReadable(providers[1])
    ensures |providers| < 2 ==> r == Err(Panic(OUT_OF_BOUNDS))
    ensures |providers| >= 2 ==>
      var e := Eval(op, providers[0], providers[1]);
      (r.Ok? <==> e.Ok?) && (r.Err? ==> r.fault == e.fault)
      && (r.Ok? ==> r.value.cost == ZeroCost && r.value.outputs == [e.value])
  {
    if |providers| < 2 then Err(Panic(OUT_OF_BOUNDS))
    else
      var e := Eval(op, providers[0], providers[1]);
      if e.Err? then Err(e.fault) else Ok(RealizedZeroCost([e.value]))
  }

  /** `build_gather`: `axis` defaults to 0. */
  function Build(axis: Option<int>): (r: Gather)
    ensures axis.None? ==> r.axis == 0
    ensures axis.Some? ==> r.axis == axis.value
  {
    Gather(axis.GetOr(0))
  }

  // ---------------------------------------------------------------------------
  // Properties

  /** With non-scalar indices along axis 0, output row `k` (in row-major order
      of the indices) is the data row at the `k`-th index, moved up by the
      axis size when negative. */
  lemma RowGathered(data: Tensors.Tensor, indices: Tensors.Tensor, k: nat, c: nat)
    requires Valid(data) && IndicesReadable(indices) && data.shape != []
    requires EvalRows(data, indices).Ok?
    requires k < Product(indices.shape) && c < RowBytes(data)
    ensures var rowBytes, v := RowBytes(data),
                              DecodeValues(indices.data, I64, Product(indices.shape))[k];
      var i := Wrap(v, data.shape[0]);
      0 <= i < data.shape[0] && 0 <= i * rowBytes + c < |data.data|
      && 0 <= k * rowBytes + c < |EvalRows(data, indices).value.data|
      && EvalRows(data, indices).value.data[k * rowBytes + c] == data.data[i * rowBytes + c]
  {
    var d, rowBytes := data.shape[0], RowBytes(data);
    RowSizes(data);
    var vals := DecodeValues(indices.data, I64, Product(indices.shape));
    assert GatheredRows(data.data, d, rowBytes, vals).Ok?;
    var out := EvalRows(data, indices).value.data;
    assert out == Rows(data.data, d, rowBytes, vals);
    RowsEntry(data.data, d, rowBytes, vals, k, c);
    var i := Wrap(vals[k], d);
    assert 0 <= i * rowBytes + c < |data.data|;
    assert 0 <= k * rowBytes + c < |out|;
    assert out[k * rowBytes + c] == data.data[i * rowBytes + c];
  }

  /** With one-dimensional indices along an axis other than 0, `eval` is the
      gather along that axis. */
  lemma EvalAlongInner(op: Gather, data: Tensors.Tensor, indices: Tensors.Tensor)
    requires Valid(data) && IndicesReadable(indices) && 0 < op.axis < |data.shape| && |indices.shape| == 1
    ensures Product(indices.shape) > 0 ==> Eval(op, data, indices) == EvalAlong(op.axis, data, indices)
  {
  }

  /** The output bytes of the gather along `axis` are `Picked` of the data's
      bytes, seen as `outer` blocks of `d` slabs of `b` bytes, by the decoded
      indices; `PickedEntry` says what each byte is. */
  lemma AlongData(axis: nat, data: Tensors.Tensor, indices: Tensors.Tensor)
    requires Valid(data) && IndicesReadable(indices) && axis < |data.shape| && |indices.shape| == 1
    ensures Product(indices.shape) == indices.shape[0]
    ensures var outer, d, b := Product(data.shape[..axis]), data.shape[axis], Product(data.shape[axis + 1..]) * SizeOf(data.dt);
      var r := EvalAlong(axis, data, indices);
      outer * d * b <= |data.data|
      && (r.Ok? ==>
            var vals := DecodeValues(indices.data, I64, Product(indices.shape));
            AllInRange(vals, d) && r.value.data == Picked(data.data, outer, d, b, vals))
  {
    assert indices.shape == [indices.shape[0]];
    AlongSizes(data, axis, indices.shape[0]);
  }

  /** A scalar index in range selects slab `index` along the axis: byte `k` of
      block `o` of the output is byte `k` of slab `index` of block `o` of the
      data. */
  lemma ScalarSlabEntry(data: Tensors.Tensor, axis: nat, index: nat, o: nat, k: nat)
    requires Valid(data) && axis < |data.shape| && index < data.shape[axis]
    requires o < Product(data.shape[..axis]) && k < Product(data.shape[axis + 1..]) * SizeOf(data.dt)
    ensures var b := Product(data.shape[axis + 1..]) * SizeOf(data.dt);
      IndexAxis(data, axis, index).Ok?
      && 0 <= o * b + k < |IndexAxis(data, axis, index).value.data|
      && 0 <= (o * data.shape[axis] + index) * b + k < |data.data|
      && IndexAxis(data, axis, index).value.data[o * b + k] == data.data[(o * data.shape[axis] + index) * b + k]
  {
    var outer, b := Product(data.shape[..axis]), Product(data.shape[axis + 1..]) * SizeOf(data.dt);
    SlabSizes(data, axis);
    SlabEntry(data.data, outer, data.shape[axis], b, index, o, k);
  }

  /** On axis 0 the written and the intended scalar index agree. */
  lemma ScalarIndexOnAxisZero(shape: Shape, v: int)
    requires |shape| > 0
    ensures ScalarIndexAsWritten(shape, v) == Ok(ScalarIndexIntended(shape, 0, v))
  {
  }

  /** On a 2 x 3 input gathered along axis 1 with the scalar index -1, the last
      column (2) is meant; the code moves -1 up by the size of axis 0 and
      selects column 1. */
  lemma NegativeScalarUsesAxisZero()
    ensures ScalarIndexAsWritten([2, 3], -1) == Ok(1)
    ensures ScalarIndexIntended([2, 3], 1, -1) == 2
  {
  }

  /** On a 1 x 3 input along axis 1 the index -2 is valid (column 1), yet the
      code moves it only to -1, which fails `index_axis`. */
  lemma NegativeScalarPanics(data: Tensors.Tensor)
    requires Valid(data) && data.shape == [1, 3]
    ensures ScalarIndexAsWritten(data.shape, -2) == Ok(-1)
    ensures IndexAxis(data, 1, -1).Err?
    ensures ScalarIndexIntended(data.shape, 1, -2) == 1 && IndexAxis(data, 1, 1).Ok?
  {
  }

  /** The unit test: a 3 x 2 input gathered along axis 0 by `[[0, 1], [1, 2]]`
      gives the 2 x 2 x 2 tensor of rows 0, 1, 1, 2. */
  lemma GatherRowsTest(data: Tensors.Tensor, indices: Tensors.Tensor)
    requires Valid(data) && data.shape == [3, 2]
    requires Valid(indices) && indices.dt == I64 && indices.shape == [2, 2]
    requires IntElements(indices) == [0, 1, 1, 2]
    ensures IndicesReadable(indices)
    ensures var r := Realize(Gather(0), [data, indices]);
      var w := 2 * SizeOf(data.dt);
      |data.data| == 3 * w
      && r.Ok? && r.value.cost == ZeroCost && |r.value.outputs| == 1
      && r.value.outputs[0].shape == [2, 2, 2] && r.value.outputs[0].dt == AsStd(data.dt)
      && r.value.outputs[0].data == data.data[..w] + data.data[w..2 * w] + data.data[w..2 * w] + data.data[2 * w..3 * w]
  {
    assert Product([2]) == 2 && Product([2, 2]) == 4 && [3, 2][1..] == [2];
    var w := 2 * SizeOf(data.dt);
    assert |data.data| == 3 * w;
    RowsOfTest(data.data, w);
  }

  lemma RowsOfTest(bytes: seq<Byte>, w: nat)
    requires |bytes| == 3 * w
    ensures AllInRange([0, 1, 1, 2], 3)
    ensures Rows(bytes, 3, w, [0, 1, 1, 2]) == bytes[..w] + bytes[w..2 * w] + bytes[w..2 * w] + bytes[2 * w..3 * w]
  {
    var vals: seq<int> := [0, 1, 1, 2];
    assert AllInRange(vals, 3);
    assert vals[..3] == [0, 1, 1] && vals[..3][..2] == [0, 1] && vals[..3][..2][..1] == [0];
    assert [0][..0] == [];
    assert Rows(bytes, 3, w, [0]) == bytes[..w];
    assert Rows(bytes, 3, w, [0, 1]) == bytes[..w] + bytes[w..2 * w];
    assert Rows(bytes, 3, w, [0, 1, 1]) == bytes[..w] + bytes[w..2 * w] + bytes[w..2 * w];
  }
}
