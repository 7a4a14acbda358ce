/** The im2col patch extraction of crates/ir/src/ops/shape/im2col.rs.

    The kernel walks an already padded NCHW input: for every batch entry `b`,
    every row position `h` (0, s0, 2 s0, ... below `ih - kr + 1`) and every
    column position `w` (0, s1, ... below `iw - kc + 1`) it copies the
    `c x kr x kc` patch anchored there, element by element, into a zero-filled
    staging buffer of `n * h_out * w_out` rows and `c * kr * kc` columns through
    a running write index. The result is the transpose of that buffer.

    What the six nested loops copy is a strided gather: each loop is an axis
    with a trip count and a stride into the input, and the element written for
    the indices `(i_1, ..., i_6)` is the input element at
    `anchor + i_1 * stride_1 + ... + i_6 * stride_6`. Elements are of an
    arbitrary type `T`; `zero` is the value the staging buffer starts with. */
module Im2ColKernel {
  import opened Wrappers
  import opened Numerics

  // ---------------------------------------------------------------------------
  // Blocks written one after the other

  /** `count` blocks laid end to end: block `k` is `f(k)`. */
  function Blocks<T>(count: nat, f: nat -> seq<T>): seq<T>
  {
    if count == 0 then [] else Blocks(count - 1, f) + f(count - 1)
  }

  /** Every block `f(k)`, `k < count`, has `size` elements. */
  predicate Uniform<T>(count: nat, f: nat -> seq<T>, size: nat)
  {
    forall k :: 0 <= k < count ==> |f(k)| == size
  }

  lemma {:induction false} BlocksLength<T>(count: nat, f: nat -> seq<T>, size: nat)
    requires Uniform(count, f, size)
    ensures |Blocks(count, f)| == count * size
  {
    if count > 0 {
      BlocksLength(count - 1, f, size);
      MulSucc(count - 1, size);
    }
  }

  /** Element `j` of block `k` sits at `k * size + j`. */
  lemma {:induction false} BlocksAt<T>(count: nat, f: nat -> seq<T>, size: nat, k: nat, j: nat)
    requires Uniform(count, f, size) && k < count && j < size
    ensures k * size + j < |Blocks(count, f)|
    ensures Blocks(count, f)[k * size + j] == f(k)[j]
  {
    BlocksLength(count, f, size);
    BlocksLength(count - 1, f, size);
    if k < count - 1 {
      BlocksAt(count - 1, f, size, k, j);
      MulMono(k + 1, count - 1, size);
      MulSucc(k, size);
    }
  }

  /** One more block adds its own length, and a longer run of blocks is at
      least as long. */
  lemma {:induction false} BlocksGrow<T>(k: nat, count: nat, f: nat -> seq<T>)
    requires 0 < k <= count
    ensures |Blocks(k - 1, f)| + |f(k - 1)| == |Blocks(k, f)| <= |Blocks(count, f)|
  {
    if k < count {
      BlocksGrow(k, count - 1, f);
    }
  }

  // ---------------------------------------------------------------------------
  // Writing a block into the staging buffer

  /** `now` is `before` with `block` written over it from index `at`, and
      nothing else changed. */
  ghost predicate Written<T>(now: seq<T>, before: seq<T>, at: nat, block: seq<T>)
  {
    |now| == |before| && at + |block| <= |now|
    && (forall j :: 0 <= j < at || at + |block| <= j < |now| ==> now[j] == before[j])
    && (forall j :: 0 <= j < |block| ==> now[at + j] == block[j])
  }

  lemma WrittenNothing<T>(s: seq<T>, at: nat)
    requires at <= |s|
    ensures Written(s, s, at, [])
  {
  }

  /** Writing `x` and then `y` right after it writes `x + y`. */
  lemma WrittenStep<T>(before: seq<T>, mid: seq<T>, after: seq<T>, at: nat, x: seq<T>, y: seq<T>)
    requires Written(mid, before, at, x) && Written(after, mid, at + |x|, y)
    ensures Written(after, before, at, x + y)
  {
    forall j | 0 <= j < |x + y|
      ensures after[at + j] == (x + y)[j]
    {
      if j >= |x| {
        assert after[at + |x| + (j - |x|)] == y[j - |x|];
      }
    }
  }

  // ---------------------------------------------------------------------------
  // Strided gathers

  /** One loop: its trip count and how far apart in the input its steps are. */
  datatype Axis = Axis(count: nat, stride: nat)

  function Read<T>(input: seq<T>, i: nat, zero: T): T
  {
    if i < |input| then input[i] else zero
  }

  /** The elements the loops `axes` (outermost first) copy from `input`,
      starting at `base`, in the order they copy them. */
  function Gather<T>(input: seq<T>, base: nat, axes: seq<Axis>, zero: T): seq<T>
    decreases |axes|, 1
  {
    if axes == [] then [Read(input, base, zero)]
    else Blocks(axes[0].count, Steps(input, base, axes, zero))
  }

  /** The blocks the outermost of `axes` copies, one per step. */
  function Steps<T>(input: seq<T>, base: nat, axes: seq<Axis>, zero: T): nat -> seq<T>
    requires axes != []
    decreases |axes|, 0
  {
    (k: nat) => Gather(input, base + k * axes[0].stride, axes[1..], zero)
  }

  /** The product of the trip counts. */
  function Trips(axes: seq<Axis>): nat
  {
    if axes == [] then 1 else axes[0].count * Trips(axes[1..])
  }

  lemma {:induction false} GatherLength<T>(input: seq<T>, base: nat, axes: seq<Axis>, zero: T)
    ensures |Gather(input, base, axes, zero)| == Trips(axes)
    decreases |axes|
  {
    if axes != [] {
      var f := Steps(input, base, axes, zero);
      forall k | 0 <= k < axes[0].count
        ensures |f(k)| == Trips(axes[1..])
      {
        GatherLength(input, base + k * axes[0].stride, axes[1..], zero);
      }
      BlocksLength(axes[0].count, f, Trips(axes[1..]));
    }
  }

  /** How far past `base` the loops `axes` read: one past the last element they
      read, or 0 when they read nothing. */
  function Reach(axes: seq<Axis>): nat
  {
    if axes == [] then 1
    else
      var inner := Reach(axes[1..]);
      if axes[0].count == 0 || inner == 0 then 0 else (axes[0].count - 1) * axes[0].stride + inner
  }

  /** The reads from `base` stay inside an input of `len` elements. */
  predicate Reads(len: nat, base: nat, reach: nat)
  {
    reach == 0 || base + reach <= len
  }

  /** Step `k` of the outermost loop reads inside the input when all of them do. */
  lemma ReachCovers(len: nat, base: nat, axes: seq<Axis>, k: nat)
    requires axes != [] && k < axes[0].count && Reads(len, base, Reach(axes))
    ensures Reads(len, base + k * axes[0].stride, Reach(axes[1..]))
  {
    if Reach(axes[1..]) > 0 {
      MulMono(k, axes[0].count - 1, axes[0].stride);
    }
  }

  /** One step of the outermost of `axes`: once the first `k` blocks are in
      place, writing block `k` right after them puts the first `k + 1` in place,
      and the next block still fits. */
  lemma GatherStep<T>(before: seq<T>, mid: seq<T>, after: seq<T>, at: nat,
                      input: seq<T>, base: nat, axes: seq<Axis>, zero: T, k: nat)
    requires axes != [] && k < axes[0].count
    requires Written(mid, before, at, Blocks(k, Steps(input, base, axes, zero)))
    requires Written(after, mid, at + |Blocks(k, Steps(input, base, axes, zero))|,
                     Gather(input, base + k * axes[0].stride, axes[1..], zero))
    ensures Written(after, before, at, Blocks(k + 1, Steps(input, base, axes, zero)))
    ensures |Blocks(k + 1, Steps(input, base, axes, zero))| ==
            |Blocks(k, Steps(input, base, axes, zero))| + |Gather(input, base + k * axes[0].stride, axes[1..], zero)|
  {
    var f := Steps(input, base, axes, zero);
    WrittenStep(before, mid, after, at, Blocks(k, f), f(k));
  }

  /** Before step `k` of the outermost of `axes`, the next block fits in the
      room the whole gather has, and its reads stay inside the input. */
  lemma GatherRoom<T>(input: seq<T>, base: nat, axes: seq<Axis>, zero: T, k: nat)
    requires axes != [] && k < axes[0].count && Reads(|input|, base, Reach(axes))
    ensures |Blocks(k, Steps(input, base, axes, zero))| + |Gather(input, base + k * axes[0].stride, axes[1..], zero)|
            <= |Gather(input, base, axes, zero)|
    ensures Reads(|input|, base + k * axes[0].stride, Reach(axes[1..]))
  {
    BlocksGrow(k + 1, axes[0].count, Steps(input, base, axes, zero));
    ReachCovers(|input|, base, axes, k);
  }

  /** The position of the indices `idx` (one per axis) in the gather. */
  function Flat(idx: seq<nat>, axes: seq<Axis>): nat
    requires |idx| == |axes|
  {
    if axes == [] then 0 else idx[0] * Trips(axes[1..]) + Flat(idx[1..], axes[1..])
  }

  /** The input offset, past `base`, of the indices `idx`. */
  function Offset(idx: seq<nat>, axes: seq<Axis>): nat
    requires |idx| == |axes|
  {
    if axes == [] then 0 else idx[0] * axes[0].stride + Offset(idx[1..], axes[1..])
  }

  predicate InRange(idx: seq<nat>, axes: seq<Axis>)
  {
    |idx| == |axes| && forall i :: 0 <= i < |idx| ==> idx[i] < axes[i].count
  }

  /** The gather holds, for every combination of loop indices, the input
      element at `base` plus the sum of the indices times the strides. */
  lemma {:induction false} GatherAt<T>(input: seq<T>, base: nat, axes: seq<Axis>, zero: T, idx: seq<nat>)
    requires InRange(idx, axes)
    ensures Flat(idx, axes) < |Gather(input, base, axes, zero)|
    ensures Gather(input, base, axes, zero)[Flat(idx, axes)] == Read(input, base + Offset(idx, axes), zero)
    decreases |axes|
  {
    if axes != [] {
      var f := Steps(input, base, axes, zero);
      var size := Trips(axes[1..]);
      forall k | 0 <= k < axes[0].count
        ensures |f(k)| == size
      {
        GatherLength(input, base + k * axes[0].stride, axes[1..], zero);
      }
      assert InRange(idx[1..], axes[1..]) by {
        forall i | 0 <= i < |idx| - 1
          ensures idx[1..][i] < axes[1..][i].count
        {
          assert idx[1..][i] == idx[i + 1];
        }
      }
      var inner := base + idx[0] * axes[0].stride;
      GatherAt(input, inner, axes[1..], zero, idx[1..]);
      GatherLength(input, inner, axes[1..], zero);
      BlocksAt(axes[0].count, f, size, idx[0], Flat(idx[1..], axes[1..]));
    }
  }

  // ---------------------------------------------------------------------------
  // The geometry of the six loops

  /** The padded input `n x c x ih x iw`, the kernel `kr x kc` and the strides. */
  datatype Geometry = Geometry(n: nat, c: nat, ih: nat, iw: nat, kr: nat, kc: nat, s0: nat, s1: nat)

  /** How many positions `0, s, 2s, ...` lie below `bound`: the trip count of
      `(0..bound).step_by(s)`. */
  function Positions(bound: nat, s: nat): nat
    requires s > 0
  {
    if bound == 0 then 0 else (bound - 1) / s + 1
  }

  lemma PositionsBelow(bound: nat, s: nat, k: nat)
    requires s > 0
    ensures k * s < bound <==> k < Positions(bound, s)
  {
    if bound > 0 {
      var q := (bound - 1) / s;
      assert q * s <= bound - 1 < (q + 1) * s;
      if k <= q {
        MulMono(k, q, s);
      } else {
        MulMono(q + 1, k, s);
      }
    }
  }

  /** The loops run past their bounds checks: a row and a column position exist
      and the strides are positive. */
  predicate Steppable(g: Geometry)
  {
    g.ih >= g.kr && g.iw >= g.kc && g.s0 > 0 && g.s1 > 0
  }

  /** Row positions per batch entry. */
  function RowsOut(g: Geometry): nat
    requires Steppable(g)
  {
    Positions(g.ih - g.kr + 1, g.s0)
  }

  /** Column positions per row position. */
  function ColsOut(g: Geometry): nat
    requires Steppable(g)
  {
    Positions(g.iw - g.kc + 1, g.s1)
  }

  /** The loop over `kci`. */
  function KciAxes(g: Geometry): seq<Axis> { [Axis(g.kc, 1)] }

  /** The loops over `kri` and `kci`: one channel of a patch. */
  function KriAxes(g: Geometry): seq<Axis> { [Axis(g.kr, g.iw)] + KciAxes(g) }

  /** The loops from `channel` inward: one patch. */
  function ChannelAxes(g: Geometry): seq<Axis> { [Axis(g.c, g.ih * g.iw)] + KriAxes(g) }

  /** The loops from `w` inward: the patches of one row position. */
  function ColumnAxes(g: Geometry): seq<Axis>
    requires Steppable(g)
  {
    [Axis(ColsOut(g), g.s1)] + ChannelAxes(g)
  }

  /** The loops from `h` inward, a row position `h` apart from the next by
      `s0 * rowStride` elements. */
  function RowAxes(g: Geometry, rowStride: nat): seq<Axis>
    requires Steppable(g)
  {
    [Axis(RowsOut(g), g.s0 * rowStride)] + ColumnAxes(g)
  }

  /** All six loops. */
  function BatchAxes(g: Geometry, rowStride: nat): seq<Axis>
    requires Steppable(g)
  {
    [Axis(g.n, g.c * g.ih * g.iw)] + RowAxes(g, rowStride)
  }

  // ---------------------------------------------------------------------------
  // The loops

  /** The loop over `kci`: one kernel row. */
  method CopyKernelRow<T>(buf: array<T>, oidx: nat, input: seq<T>, base: nat, g: Geometry, ghost zero: T)
    returns (next: nat)
    requires oidx + |Gather(input, base, KciAxes(g), zero)| <= buf.Length
    requires Reads(|input|, base, Reach(KciAxes(g)))
    modifies buf
    ensures Written(buf[..], old(buf[..]), oidx, Gather(input, base, KciAxes(g), zero))
    ensures next == oidx + |Gather(input, base, KciAxes(g), zero)|
  {
    ghost var axes := KciAxes(g);
    assert axes[1..] == [] && axes[0] == Axis(g.kc, 1);
    ghost var before := buf[..];
    next := oidx;
    WrittenNothing(buf[..], oidx);
    for kci := 0 to g.kc
      invariant Written(buf[..], before, oidx, Blocks(kci, Steps(input, base, axes, zero)))
      invariant next == oidx + |Blocks(kci, Steps(input, base, axes, zero))|
    {
      GatherRoom(input, base, axes, zero, kci);
      assert Reach([]) == 1;
      ghost var mid := buf[..];
      buf[next] := input[base + kci];
      assert Gather(input, base + kci * 1, [], zero) == [input[base + kci]];
      GatherStep(before, mid, buf[..], oidx, input, base, axes, zero, kci);
      next := next + 1;
    }
  }

  /** The loop over `kri`: one channel of a patch. */
  method CopyChannel<T>(buf: array<T>, oidx: nat, input: seq<T>, base: nat, g: Geometry, ghost zero: T)
    returns (next: nat)
    requires oidx + |Gather(input, base, KriAxes(g), zero)| <= buf.Length
    requires Reads(|input|, base, Reach(KriAxes(g)))
    modifies buf
    ensures Written(buf[..], old(buf[..]), oidx, Gather(input, base, KriAxes(g), zero))
    ensures next == oidx + |Gather(input, base, KriAxes(g), zero)|
  {
    ghost var axes := KriAxes(g);
    assert axes[1..] == KciAxes(g) && axes[0] == Axis(g.kr, g.iw);
    ghost var before := buf[..];
    next := oidx;
    WrittenNothing(buf[..], oidx);
    for kri := 0 to g.kr
      invariant Written(buf[..], before, oidx, Blocks(kri, Steps(input, base, axes, zero)))
      invariant next == oidx + |Blocks(kri, Steps(input, base, axes, zero))|
    {
      GatherRoom(input, base, axes, zero, kri);
      ghost var mid := buf[..];
      next := CopyKernelRow(buf, next, input, base + kri * g.iw, g, zero);
      GatherStep(before, mid, buf[..], oidx, input, base, axes, zero, kri);
    }
  }

  /** The loop over `channel`: one patch. */
  method CopyPatch<T>(buf: array<T>, oidx: nat, input: seq<T>, anchor: nat, g: Geometry, ghost zero: T)
    returns (next: nat)
    requires oidx + |Gather(input, anchor, ChannelAxes(g), zero)| <= buf.Length
    requires Reads(|input|, anchor, Reach(ChannelAxes(g)))
    modifies buf
    ensures Written(buf[..], old(buf[..]), oidx, Gather(input, anchor, ChannelAxes(g), zero))
    ensures next == oidx + |Gather(input, anchor, ChannelAxes(g), zero)|
  {
    ghost var axes := ChannelAxes(g);
    assert axes[1..] == KriAxes(g) && axes[0] == Axis(g.c, g.ih * g.iw);
    ghost var before := buf[..];
    next := oidx;
    WrittenNothing(buf[..], oidx);
    for channel := 0 to g.c
      invariant Written(buf[..], before, oidx, Blocks(channel, Steps(input, anchor, axes, zero)))
      invariant next == oidx + |Blocks(channel, Steps(input, anchor, axes, zero))|
    {
      GatherRoom(input, anchor, axes, zero, channel);
      ghost var mid := buf[..];
      var channelOffset := channel * g.ih * g.iw;
      MulAssoc(channel, g.ih, g.iw);
      next := CopyChannel(buf, next, input, anchor + channelOffset, g, zero);
      GatherStep(before, mid, buf[..], oidx, input, anchor, axes, zero, channel);
    }
  }

  /** The loop over `w`: the patches of one row position, `anchor = rowAnchor + w`. */
  method CopyPatchRow<T>(buf: array<T>, oidx: nat, input: seq<T>, rowAnchor: nat, g: Geometry, ghost zero: T)
    returns (next: nat)
    requires Steppable(g)
    requires oidx + |Gather(input, rowAnchor, ColumnAxes(g), zero)| <= buf.Length
    requires Reads(|input|, rowAnchor, Reach(ColumnAxes(g)))
    modifies buf
    ensures Written(buf[..], old(buf[..]), oidx, Gather(input, rowAnchor, ColumnAxes(g), zero))
    ensures next == oidx + |Gather(input, rowAnchor, ColumnAxes(g), zero)|
  {
    ghost var axes := ColumnAxes(g);
    assert axes[1..] == ChannelAxes(g) && axes[0] == Axis(ColsOut(g), g.s1);
    ghost var before := buf[..];
    next := oidx;
    WrittenNothing(buf[..], oidx);
    var w := 0;
    ghost var wi: nat := 0;
    while w < g.iw - g.kc + 1
      invariant w == wi * g.s1 && wi <= ColsOut(g)
      invariant Written(buf[..], before, oidx, Blocks(wi, Steps(input, rowAnchor, axes, zero)))
      invariant next == oidx + |Blocks(wi, Steps(input, rowAnchor, axes, zero))|
      decreases ColsOut(g) - wi
    {
      PositionsBelow(g.iw - g.kc + 1, g.s1, wi);
      GatherRoom(input, rowAnchor, axes, zero, wi);
      ghost var mid := buf[..];
      next := CopyPatch(buf, next, input, rowAnchor + w, g, zero);
      GatherStep(before, mid, buf[..], oidx, input, rowAnchor, axes, zero, wi);
      MulSucc(wi, g.s1);
      w := w + g.s1;
      wi := wi + 1;
    }
    PositionsBelow(g.iw - g.kc + 1, g.s1, wi);
  }

  /** The loop over `h`: the patches of one batch entry. The row anchor is
      `batchOffset + h * ih`. */
  method CopyBatch<T>(buf: array<T>, oidx: nat, input: seq<T>, batchOffset: nat, g: Geometry, ghost zero: T)
    returns (next: nat)
    requires Steppable(g)
    requires oidx + |Gather(input, batchOffset, RowAxes(g, g.ih), zero)| <= buf.Length
    requires Reads(|input|, batchOffset, Reach(RowAxes(g, g.ih)))
    modifies buf
    ensures Written(buf[..], old(buf[..]), oidx, Gather(input, batchOffset, RowAxes(g, g.ih), zero))
    ensures next == oidx + |Gather(input, batchOffset, RowAxes(g, g.ih), zero)|
  {
    ghost var axes := RowAxes(g, g.ih);
    assert axes[1..] == ColumnAxes(g) && axes[0] == Axis(RowsOut(g), g.s0 * g.ih);
    ghost var before := buf[..];
    next := oidx;
    WrittenNothing(buf[..], oidx);
    var h := 0;
    ghost var hi: nat := 0;
    while h < g.ih - g.kr + 1
      invariant h == hi * g.s0 && hi <= RowsOut(g)
      invariant Written(buf[..], before, oidx, Blocks(hi, Steps(input, batchOffset, axes, zero)))
      invariant next == oidx + |Blocks(hi, Steps(input, batchOffset, axes, zero))|
      decreases RowsOut(g) - hi
    {
      PositionsBelow(g.ih - g.kr + 1, g.s0, hi);
      GatherRoom(input, batchOffset, axes, zero, hi);
      ghost var mid := buf[..];
      MulAssoc(hi, g.s0, g.ih);
      next := CopyPatchRow(buf, next, input, batchOffset + h * g.ih, g, zero);
      GatherStep(before, mid, buf[..], oidx, input, batchOffset, axes, zero, hi);
      MulSucc(hi, g.s0);
      h := h + g.s0;
      hi := hi + 1;
    }
    PositionsBelow(g.ih - g.kr + 1, g.s0, hi);
  }

  // ---------------------------------------------------------------------------
  // The staging buffer and its transpose

  /** A row-major two-dimensional array (`Array2`). */
  datatype Matrix<T> = Matrix(rows: nat, cols: nat, data: seq<T>)

  predicate Shaped<T>(m: Matrix<T>)
  {
    |m.data| == m.rows * m.cols
  }

  /** Where entry `k` of the transpose comes from. */
  function TransposedIndex(k: nat, rows: nat, cols: nat): (i: nat)
    requires k < rows * cols
    ensures i < rows * cols
  {
    var i, j := k % rows, k / rows;
    assert j * rows <= k;
    MulStrict(j, cols, rows);
    MulMono(i + 1, rows, cols);
    i * cols + j
  }

  /** `.t()` copied into a fresh array: the `cols x rows` matrix whose entry
      `(j, i)` is entry `(i, j)` of `m`. */
  function Transposed<T>(m: Matrix<T>): (t: Matrix<T>)
    requires Shaped(m)
    ensures t.rows == m.cols && t.cols == m.rows && |t.data| == |m.data|
  {
    Matrix(m.cols, m.rows,
      seq(m.rows * m.cols, (k: int) requires 0 <= k < m.rows * m.cols => m.data[TransposedIndex(k, m.rows, m.cols)]))
  }

  /** Entry `(j, i)` of the transpose is entry `(i, j)` of `m`. */
  lemma TransposedAt<T>(m: Matrix<T>, i: nat, j: nat)
    requires Shaped(m) && i < m.rows && j < m.cols
    ensures Shaped(Transposed(m))
    ensures j * m.rows + i < |m.data| && i * m.cols + j < |m.data|
    ensures Transposed(m).data[j * m.rows + i] == m.data[i * m.cols + j]
  {
    ShapedBounds(m.rows, m.cols, i, j);
    ShapedBounds(m.cols, m.rows, j, i);
    DivModUnique(j * m.rows + i, m.rows, i, j);
  }

  lemma ShapedBounds(rows: nat, cols: nat, i: nat, j: nat)
    requires i < rows && j < cols
    ensures i * cols + j < rows * cols && rows * cols == cols * rows
  {
    MulMono(i + 1, rows, cols);
  }

  /** Transposing twice gives the matrix back. */
  lemma TransposedTwice<T>(m: Matrix<T>)
    requires Shaped(m)
    ensures Transposed(Transposed(m)) == m
  {
    var t := Transposed(m);
    MulComm(m.rows, m.cols);
    var tt := Transposed(t);
    forall k | 0 <= k < |m.data|
      ensures tt.data[k] == m.data[k]
    {
      SplitIndex(k, m.rows, m.cols);
      var i, j := k / m.cols, k % m.cols;
      TransposedAt(t, j, i);
      TransposedAt(m, i, j);
    }
  }

  /** Everything the six loops copy, then the zeros the buffer started with. */
  function Staging<T>(input: seq<T>, g: Geometry, rowStride: nat, size: nat, zero: T): (s: seq<T>)
    requires g.n > 0 ==> Steppable(g) && Trips(BatchAxes(g, rowStride)) <= size
    ensures |s| == size
  {
    if g.n == 0 then seq(size, _ => zero)
    else
      var copied := Gather(input, 0, BatchAxes(g, rowStride), zero);
      GatherLength(input, 0, BatchAxes(g, rowStride), zero);
      copied + seq(size - |copied|, _ => zero)
  }

  lemma WrittenOverZeros<T>(now: seq<T>, size: nat, block: seq<T>, zero: T)
    requires Written(now, seq(size, _ => zero), 0, block)
    ensures now == block + seq(size - |block|, _ => zero)
  {
    assert forall j :: 0 <= j < |block| ==> now[0 + j] == block[j];
  }

  // ---------------------------------------------------------------------------
  // The kernel

  /** The geometry `im2col` reads from the input shape, the kernel shape and the strides. */
  function GeometryOf(inputShape: seq<nat>, kernelShape: seq<nat>, s0: nat, s1: nat): Geometry
    requires |inputShape| >= 4 && |kernelShape| >= 4
  {
    Geometry(inputShape[0], inputShape[1], inputShape[2], inputShape[3], kernelShape[2], kernelShape[3], s0, s1)
  }

  /** The panic `im2col` raises before writing anything: a shape with fewer than
      four entries; then, once there is a batch entry, a kernel taller or wider
      than the input (the `ih - kr + 1` subtraction) or a zero stride
      (`step_by(0)`), the row loop's before the column loop's. */
  function Im2ColFault(inputShape: seq<nat>, kernelShape: seq<nat>, s0: nat, s1: nat): Option<string>
  {
    if |kernelShape| < 4 || |inputShape| < 4 then Some(OUT_OF_BOUNDS)
    else if inputShape[0] == 0 then None
    else if inputShape[2] < kernelShape[2] then Some(SUB_OVERFLOW)
    else if s0 == 0 then Some(STEP_ZERO)
    else if inputShape[3] < kernelShape[3] then Some(SUB_OVERFLOW)
    else if s1 == 0 then Some(STEP_ZERO)
    else None
  }

  /** `im2col` runs to the end exactly when both shapes have four entries and
      either the batch is empty or the loops can step. */
  lemma Im2ColFaultIsShapeCheck(inputShape: seq<nat>, kernelShape: seq<nat>, s0: nat, s1: nat)
    ensures Im2ColFault(inputShape, kernelShape, s0, s1).None? <==>
      |inputShape| >= 4 && |kernelShape| >= 4
      && (inputShape[0] == 0 || Steppable(GeometryOf(inputShape, kernelShape, s0, s1)))
  {
  }

  /** The staging buffer has `n * h_out * w_out` rows ... */
  function StagingRows(g: Geometry, hOut: nat, wOut: nat): nat { g.n * hOut * wOut }

  /** ... and `c * kr * kc` columns. */
  function StagingCols(g: Geometry): nat { g.c * g.kr * g.kc }

  /** The six loops make as many copies as the loop bounds say, whatever the
      strides. */
  lemma CopiesIgnoreStrides(g: Geometry, a: nat, b: nat)
    requires Steppable(g)
    ensures Trips(BatchAxes(g, a)) == Trips(BatchAxes(g, b))
  {
    assert BatchAxes(g, a)[1..][1..] == BatchAxes(g, b)[1..][1..];
  }

  lemma FitsWhateverStride(g: Geometry, hOut: nat, wOut: nat, rowStride: nat)
    requires StagingFits(g, hOut, wOut)
    ensures g.n > 0 ==> Trips(BatchAxes(g, rowStride)) <= StagingRows(g, hOut, wOut) * StagingCols(g)
  {
    if g.n > 0 {
      CopiesIgnoreStrides(g, g.ih, rowStride);
    }
  }

  /** When there is a batch entry, the loops can step and their copies fit in
      the staging buffer. */
  predicate StagingFits(g: Geometry, hOut: nat, wOut: nat)
  {
    g.n > 0 ==> Steppable(g) && Trips(BatchAxes(g, g.ih)) <= StagingRows(g, hOut, wOut) * StagingCols(g)
  }

  /** The staging buffer once the loops, with row positions `rowStride`
      elements apart, are done. */
  function StagingMatrix<T>(input: seq<T>, g: Geometry, rowStride: nat, hOut: nat, wOut: nat, zero: T): (m: Matrix<T>)
    requires StagingFits(g, hOut, wOut)
    ensures Shaped(m) && m.rows == StagingRows(g, hOut, wOut) && m.cols == StagingCols(g)
  {
    FitsWhateverStride(g, hOut, wOut, rowStride);
    var size := StagingRows(g, hOut, wOut) * StagingCols(g);
    Matrix(StagingRows(g, hOut, wOut), StagingCols(g), Staging(input, g, rowStride, size, zero))
  }

  /** What the unchecked pointer accesses demand of the caller: when the loops
      run, every read lies inside the input and every write inside the staging
      buffer. */
  predicate AccessesInBounds(len: nat, inputShape: seq<nat>, kernelShape: seq<nat>, s0: nat, s1: nat, hOut: nat, wOut: nat)
  {
    |inputShape| >= 4 && |kernelShape| >= 4 ==>
      var g := GeometryOf(inputShape, kernelShape, s0, s1);
      g.n > 0 && Steppable(g) ==> Reads(len, 0, Reach(BatchAxes(g, g.ih))) && StagingFits(g, hOut, wOut)
  }

  /** The loop over `b`: every batch entry, from the start of the buffer. */
  method CopyAll<T>(buf: array<T>, input: seq<T>, g: Geometry, ghost zero: T)
    requires Steppable(g)
    requires |Gather(input, 0, BatchAxes(g, g.ih), zero)| <= buf.Length
    requires Reads(|input|, 0, Reach(BatchAxes(g, g.ih)))
    modifies buf
    ensures Written(buf[..], old(buf[..]), 0, Gather(input, 0, BatchAxes(g, g.ih), zero))
  {
    ghost var axes := BatchAxes(g, g.ih);
    assert axes[1..] == RowAxes(g, g.ih) && axes[0] == Axis(g.n, g.c * g.ih * g.iw);
    ghost var before := buf[..];
    var oidx := 0;
    WrittenNothing(buf[..], oidx);
    for b := 0 to g.n
      invariant Written(buf[..], before, 0, Blocks(b, Steps(input, 0, axes, zero)))
      invariant oidx == |Blocks(b, Steps(input, 0, axes, zero))|
    {
      GatherRoom(input, 0, axes, zero, b);
      ghost var mid := buf[..];
      var batchOffset := b * g.c * g.ih * g.iw;
      MulAssoc(b, g.c, g.ih);
      MulAssoc(b, g.c * g.ih, g.iw);
      oidx := CopyBatch(buf, oidx, input, batchOffset, g, zero);
      GatherStep(before, mid, buf[..], 0, input, 0, axes, zero, b);
    }
  }

  /** `im2col(input, kernel_shape, strides, output_dims)` on the elements of a
      padded NCHW input: the transpose of the staging buffer the loops fill. */
  method Im2Col<T>(input: seq<T>, inputShape: seq<nat>, kernelShape: seq<nat>, s0: nat, s1: nat,
                   hOut: nat, wOut: nat, zero: T)
    returns (r: Result<Matrix<T>>)
    requires AccessesInBounds(|input|, inputShape, kernelShape, s0, s1, hOut, wOut)
    ensures r.Ok? <==> Im2ColFault(inputShape, kernelShape, s0, s1).None?
    ensures r.Err? ==> r.fault == Panic(Im2ColFault(inputShape, kernelShape, s0, s1).value)
    ensures r.Ok? ==> StagingFits(GeometryOf(inputShape, kernelShape, s0, s1), hOut, wOut)
    ensures r.Ok? ==>
      var g := GeometryOf(inputShape, kernelShape, s0, s1);
      r.value == Transposed(StagingMatrix(input, g, g.ih, hOut, wOut, zero))
  {
    if |kernelShape| < 4 || |inputShape| < 4 {
      return Err(Panic(OUT_OF_BOUNDS));
    }
    var kr, kc := kernelShape[2], kernelShape[3];
    var n, c, ih, iw := inputShape[0], inputShape[1], inputShape[2], inputShape[3];
    var g := Geometry(n, c, ih, iw, kr, kc, s0, s1);
    var rows, cols := n * hOut * wOut, c * kr * kc;
    var buf := new T[rows * cols](_ => zero);
    ghost var before := buf[..];
    if n > 0 {
      if ih < kr {
        return Err(Panic(SUB_OVERFLOW));
      } else if s0 == 0 {
        return Err(Panic(STEP_ZERO));
      } else if iw < kc {
        return Err(Panic(SUB_OVERFLOW));
      } else if s1 == 0 {
        return Err(Panic(STEP_ZERO));
      }
      GatherLength(input, 0, BatchAxes(g, g.ih), zero);
      CopyAll(buf, input, g, zero);
    }
    StagingFilled(buf[..], before, input, g, hOut, wOut, zero);
    r := Ok(Transposed(Matrix(rows, cols, buf[..])));
  }

  /** The buffer the loops leave behind is the staging matrix: the gathered
      elements over the zeros it was created with. */
  lemma StagingFilled<T>(now: seq<T>, before: seq<T>, input: seq<T>, g: Geometry, hOut: nat, wOut: nat, zero: T)
    requires StagingFits(g, hOut, wOut)
    requires |before| == StagingRows(g, hOut, wOut) * StagingCols(g)
    requires forall k :: 0 <= k < |before| ==> before[k] == zero
    requires g.n == 0 ==> now == before
    requires g.n > 0 ==> Written(now, before, 0, Gather(input, 0, BatchAxes(g, g.ih), zero))
    ensures Matrix(StagingRows(g, hOut, wOut), StagingCols(g), now) == StagingMatrix(input, g, g.ih, hOut, wOut, zero)
  {
    var size := |before|;
    assert before == seq(size, _ => zero);
    if g.n > 0 {
      WrittenOverZeros(now, size, Gather(input, 0, BatchAxes(g, g.ih), zero), zero);
    }
  }

  // ---------------------------------------------------------------------------
  // What the staging buffer holds

  /** `s` holds `v` at index `k`. */
  predicate HoldsAt<T(==)>(s: seq<T>, k: nat, v: T)
  {
    k < |s| && s[k] == v
  }

  /** The index of element `(b, ch, y, x)` of an NCHW tensor. */
  function NchwIndex(g: Geometry, b: nat, ch: nat, y: nat, x: nat): nat
  {
    ((b * g.c + ch) * g.ih + y) * g.iw + x
  }

  /** The staging row of the patch at row position `hi` and column position
      `wi` of batch entry `b`, and the staging column of kernel tap
      `(ch, kri, kci)`. */
  function PatchRowIndex(g: Geometry, b: nat, hi: nat, wi: nat): nat
    requires Steppable(g)
  {
    (b * RowsOut(g) + hi) * ColsOut(g) + wi
  }

  function TapIndex(g: Geometry, ch: nat, kri: nat, kci: nat): nat
  {
    (ch * g.kr + kri) * g.kc + kci
  }

  /** The loop indices, outermost first, are within their trip counts. */
  predicate Tap(g: Geometry, b: nat, hi: nat, wi: nat, ch: nat, kri: nat, kci: nat)
  {
    Steppable(g) && b < g.n && hi < RowsOut(g) && wi < ColsOut(g) && ch < g.c && kri < g.kr && kci < g.kc
  }

  /** One level of the position and of the input offset. */
  lemma FlatAndOffsetStep(idx: seq<nat>, axes: seq<Axis>, k: nat)
    requires |idx| == |axes| && k < |axes|
    ensures Flat(idx[k..], axes[k..]) == idx[k] * Trips(axes[k + 1..]) + Flat(idx[k + 1..], axes[k + 1..])
    ensures Offset(idx[k..], axes[k..]) == idx[k] * axes[k].stride + Offset(idx[k + 1..], axes[k + 1..])
  {
    assert idx[k..][1..] == idx[k + 1..] && axes[k..][1..] == axes[k + 1..];
  }

  /** The position and the input offset of six loop indices, written out. */
  lemma FlatAndOffsetOfSix(idx: seq<nat>, axes: seq<Axis>)
    requires |idx| == |axes| == 6
    ensures Flat(idx, axes) == idx[0] * Trips(axes[1..]) + idx[1] * Trips(axes[2..]) + idx[2] * Trips(axes[3..])
      + idx[3] * Trips(axes[4..]) + idx[4] * Trips(axes[5..]) + idx[5] * Trips(axes[6..])
    ensures Offset(idx, axes) == idx[0] * axes[0].stride + idx[1] * axes[1].stride + idx[2] * axes[2].stride
      + idx[3] * axes[3].stride + idx[4] * axes[4].stride + idx[5] * axes[5].stride
  {
    FlatAndOffsetStep(idx, axes, 0);
    FlatAndOffsetStep(idx, axes, 1);
    FlatAndOffsetStep(idx, axes, 2);
    FlatAndOffsetStep(idx, axes, 3);
    FlatAndOffsetStep(idx, axes, 4);
    FlatAndOffsetStep(idx, axes, 5);
    assert idx[0..] == idx && axes[0..] == axes;
    assert Flat(idx[6..], axes[6..]) == 0 && Offset(idx[6..], axes[6..]) == 0;
  }

  /** When every loop runs, the last element read is the one at the last
      index of every loop. */
  lemma {:induction false} ReachOfRunningLoops(axes: seq<Axis>)
    requires forall i :: 0 <= i < |axes| ==> axes[i].count > 0
    ensures Reach(axes) == Offset(Lasts(axes), axes) + 1
  {
    if axes != [] {
      ReachOfRunningLoops(axes[1..]);
      assert Lasts(axes)[1..] == Lasts(axes[1..]);
    }
  }

  /** The last index of every loop. */
  function Lasts(axes: seq<Axis>): (idx: seq<nat>)
    ensures |idx| == |axes|
  {
    if axes == [] then [] else [if axes[0].count == 0 then 0 else axes[0].count - 1] + Lasts(axes[1..])
  }

  /** The trip counts of the loops inside each of the six. */
  lemma TripsOfBatchAxes(g: Geometry, rowStride: nat)
    requires Steppable(g)
    ensures var axes := BatchAxes(g, rowStride);
      Trips(axes[6..]) == 1 && Trips(axes[5..]) == g.kc && Trips(axes[4..]) == g.kr * g.kc
      && Trips(axes[3..]) == g.c * (g.kr * g.kc) && Trips(axes[2..]) == ColsOut(g) * (g.c * (g.kr * g.kc))
      && Trips(axes[1..]) == RowsOut(g) * (ColsOut(g) * (g.c * (g.kr * g.kc)))
  {
    var axes := BatchAxes(g, rowStride);
    assert axes[5..] == KciAxes(g) && axes[4..] == KriAxes(g) && axes[3..] == ChannelAxes(g);
    assert axes[2..] == ColumnAxes(g) && axes[1..] == RowAxes(g, rowStride);
  }

  lemma RowMajorArith(b: nat, hi: nat, wi: nat, ch: nat, kri: nat, kci: nat,
                      ro: nat, co: nat, c: nat, kr: nat, kc: nat)
    ensures b * (ro * (co * (c * (kr * kc)))) + hi * (co * (c * (kr * kc))) + wi * (c * (kr * kc))
      + ch * (kr * kc) + kri * kc + kci * 1
      == ((b * ro + hi) * co + wi) * (c * kr * kc) + ((ch * kr + kri) * kc + kci)
  {
    var ck := c * (kr * kc);
    MulAssoc(c, kr, kc);
    MulAssoc(ch, kr, kc);
    var row := (b * ro + hi) * co + wi;
    assert row * ck == (b * ro + hi) * co * ck + wi * ck;
    MulAssoc(b * ro + hi, co, ck);
    assert (b * ro + hi) * (co * ck) == b * ro * (co * ck) + hi * (co * ck);
    MulAssoc(b, ro, co * ck);
  }

  /** The gather's position of a tap is its staging row and column. */
  lemma FlatIsRowAndColumn(g: Geometry, rowStride: nat, b: nat, hi: nat, wi: nat, ch: nat, kri: nat, kci: nat)
    requires Tap(g, b, hi, wi, ch, kri, kci)
    ensures InRange([b, hi, wi, ch, kri, kci], BatchAxes(g, rowStride))
    ensures Flat([b, hi, wi, ch, kri, kci], BatchAxes(g, rowStride))
      == PatchRowIndex(g, b, hi, wi) * StagingCols(g) + TapIndex(g, ch, kri, kci)
  {
    var axes := BatchAxes(g, rowStride);
    var idx := [b, hi, wi, ch, kri, kci];
    assert axes[0].count == g.n && axes[1].count == RowsOut(g) && axes[2].count == ColsOut(g);
    assert axes[3].count == g.c && axes[4].count == g.kr && axes[5].count == g.kc;
    FlatAndOffsetOfSix(idx, axes);
    TripsOfBatchAxes(g, rowStride);
    RowMajorArith(b, hi, wi, ch, kri, kci, RowsOut(g), ColsOut(g), g.c, g.kr, g.kc);
  }

  /** The input offset of a tap, for row positions `rowStride` elements apart. */
  lemma OffsetOfTap(g: Geometry, rowStride: nat, b: nat, hi: nat, wi: nat, ch: nat, kri: nat, kci: nat)
    requires Tap(g, b, hi, wi, ch, kri, kci)
    ensures Offset([b, hi, wi, ch, kri, kci], BatchAxes(g, rowStride))
      == b * (g.c * g.ih * g.iw) + hi * (g.s0 * rowStride) + wi * g.s1 + ch * (g.ih * g.iw) + kri * g.iw + kci * 1
  {
    var axes := BatchAxes(g, rowStride);
    assert axes[0].stride == g.c * g.ih * g.iw && axes[1].stride == g.s0 * rowStride && axes[2].stride == g.s1;
    assert axes[3].stride == g.ih * g.iw && axes[4].stride == g.iw && axes[5].stride == 1;
    FlatAndOffsetOfSix([b, hi, wi, ch, kri, kci], axes);
  }

  /** Six loops that all run read up to the element at the last index of each. */
  lemma ReachOfSix(axes: seq<Axis>)
    requires |axes| == 6 && forall i :: 0 <= i < 6 ==> axes[i].count > 0
    ensures Reach(axes) == (axes[0].count - 1) * axes[0].stride + (axes[1].count - 1) * axes[1].stride
      + (axes[2].count - 1) * axes[2].stride + (axes[3].count - 1) * axes[3].stride
      + (axes[4].count - 1) * axes[4].stride + (axes[5].count - 1) * axes[5].stride + 1
  {
    ReachOfRunningLoops(axes);
    var last := Lasts(axes);
    assert last == [axes[0].count - 1, axes[1].count - 1, axes[2].count - 1,
                    axes[3].count - 1, axes[4].count - 1, axes[5].count - 1] by {
      assert forall i :: 0 <= i < 6 ==> last[i] == axes[i].count - 1 by {
        LastsAt(axes);
      }
    }
    FlatAndOffsetOfSix(last, axes);
  }

  lemma {:induction false} LastsAt(axes: seq<Axis>)
    ensures forall i :: 0 <= i < |axes| ==> Lasts(axes)[i] == if axes[i].count == 0 then 0 else axes[i].count - 1
  {
    if axes != [] {
      LastsAt(axes[1..]);
      forall i | 1 <= i < |axes|
        ensures Lasts(axes)[i] == Lasts(axes[1..])[i - 1]
      {
      }
    }
  }

  /** When every loop runs, the loops read up to the tap at the last index of
      each. */
  lemma ReachOfBatchAxes(g: Geometry, rowStride: nat)
    requires Steppable(g) && g.n > 0 && g.c > 0 && g.kr > 0 && g.kc > 0
    ensures Reach(BatchAxes(g, rowStride))
      == (g.n - 1) * (g.c * g.ih * g.iw) + (RowsOut(g) - 1) * (g.s0 * rowStride) + (ColsOut(g) - 1) * g.s1
         + (g.c - 1) * (g.ih * g.iw) + (g.kr - 1) * g.iw + (g.kc - 1) * 1 + 1
  {
    var axes := BatchAxes(g, rowStride);
    PositionsBelow(g.ih - g.kr + 1, g.s0, 0);
    PositionsBelow(g.iw - g.kc + 1, g.s1, 0);
    assert axes == [Axis(g.n, g.c * g.ih * g.iw), Axis(RowsOut(g), g.s0 * rowStride), Axis(ColsOut(g), g.s1),
                    Axis(g.c, g.ih * g.iw), Axis(g.kr, g.iw), Axis(g.kc, 1)];
    ReachOfSix(axes);
  }

  lemma NchwArith(b: nat, hi: nat, wi: nat, ch: nat, kri: nat, kci: nat, c: nat, ih: nat, iw: nat, s0: nat, s1: nat)
    ensures ((b * c + ch) * ih + (hi * s0 + kri)) * iw + (wi * s1 + kci)
      == b * (c * ih * iw) + hi * (s0 * iw) + wi * s1 + ch * (ih * iw) + kri * iw + kci * 1
  {
    assert ((b * c + ch) * ih + (hi * s0 + kri)) * iw == (b * c + ch) * ih * iw + (hi * s0 + kri) * iw;
    assert (b * c + ch) * ih * iw == (b * c) * ih * iw + ch * ih * iw;
    MulAssoc(ch, ih, iw);
    MulAssoc(b * c, ih, iw);
    MulAssoc(b, c, ih * iw);
    MulAssoc(c, ih, iw);
    MulAssoc(hi, s0, iw);
  }

  /** With row positions an input row (`iw` elements) apart, the copy of a
      tap is the input element under that tap: channel `ch`, row
      `hi * s0 + kri`, column `wi * s1 + kci` of batch entry `b`, and it lands
      in the staging row of its patch and the staging column of its tap. This
      is what im2col is for; it is the corrected form of the anchor
      `h * ih + w`. */
  lemma IntendedStagingEntry<T>(input: seq<T>, g: Geometry, zero: T,
                                b: nat, hi: nat, wi: nat, ch: nat, kri: nat, kci: nat)
    requires Tap(g, b, hi, wi, ch, kri, kci)
    ensures HoldsAt(Gather(input, 0, BatchAxes(g, g.iw), zero),
                    PatchRowIndex(g, b, hi, wi) * StagingCols(g) + TapIndex(g, ch, kri, kci),
                    Read(input, NchwIndex(g, b, ch, hi * g.s0 + kri, wi * g.s1 + kci), zero))
  {
    var axes := BatchAxes(g, g.iw);
    var idx := [b, hi, wi, ch, kri, kci];
    FlatIsRowAndColumn(g, g.iw, b, hi, wi, ch, kri, kci);
    OffsetOfTap(g, g.iw, b, hi, wi, ch, kri, kci);
    GatherAt(input, 0, axes, zero, idx);
    NchwArith(b, hi, wi, ch, kri, kci, g.c, g.ih, g.iw, g.s0, g.s1);
  }

  /** With the anchor as written, row position `hi` starts `hi * s0 * ih`
      elements after the patch at row 0: the copy of a tap is the input
      element `hi * s0 * ih` past the tap's element in the first patch row,
      which is row `hi * s0 + kri` only when `ih == iw`. */
  /** The input element the as-written anchor reads for a tap. */
  function AnchoredByHeight(g: Geometry, b: nat, hi: nat, wi: nat, ch: nat, kri: nat, kci: nat): nat
  {
    NchwIndex(g, b, ch, kri, wi * g.s1 + kci) + hi * (g.s0 * g.ih)
  }

  lemma AsWrittenStagingEntry<T>(input: seq<T>, g: Geometry, zero: T,
                                 b: nat, hi: nat, wi: nat, ch: nat, kri: nat, kci: nat)
    requires Tap(g, b, hi, wi, ch, kri, kci)
    ensures HoldsAt(Gather(input, 0, BatchAxes(g, g.ih), zero),
                    PatchRowIndex(g, b, hi, wi) * StagingCols(g) + TapIndex(g, ch, kri, kci),
                    Read(input, AnchoredByHeight(g, b, hi, wi, ch, kri, kci), zero))
  {
    var axes := BatchAxes(g, g.ih);
    var idx := [b, hi, wi, ch, kri, kci];
    FlatIsRowAndColumn(g, g.ih, b, hi, wi, ch, kri, kci);
    OffsetOfTap(g, g.ih, b, hi, wi, ch, kri, kci);
    GatherAt(input, 0, axes, zero, idx);
    NchwArith(b, 0, wi, ch, kri, kci, g.c, g.ih, g.iw, g.s0, g.s1);
  }

  /** The staging buffer starts with the gathered copies. */
  lemma StagingHoldsGather<T>(input: seq<T>, g: Geometry, rowStride: nat, size: nat, zero: T, k: nat, v: T)
    requires g.n > 0 && Steppable(g) && Trips(BatchAxes(g, rowStride)) <= size
    requires HoldsAt(Gather(input, 0, BatchAxes(g, rowStride), zero), k, v)
    ensures HoldsAt(Staging(input, g, rowStride, size, zero), k, v)
  {
    GatherLength(input, 0, BatchAxes(g, rowStride), zero);
  }

  /** On a one-channel 2 x 3 input holding 0..5 with a 1 x 1 kernel and unit
      strides, the patch at row position 1, column 0 should copy element 3
      (row 1, column 0); the loops as written copy element 2 (row 0, column 2),
      because they anchor row 1 at `1 * ih == 2` instead of `1 * iw == 3`. */
  lemma RowAnchorUsesHeight()
    ensures var g := Geometry(1, 1, 2, 3, 1, 1, 1, 1);
      var input := [0, 1, 2, 3, 4, 5];
      input[NchwIndex(g, 0, 0, 1, 0)] == 3
      && HoldsAt(Gather(input, 0, BatchAxes(g, g.ih), 0), 3, 2)
      && HoldsAt(Gather(input, 0, BatchAxes(g, g.iw), 0), 3, 3)
  {
    var g := Geometry(1, 1, 2, 3, 1, 1, 1, 1);
    var input := [0, 1, 2, 3, 4, 5];
    assert RowsOut(g) == 2 && ColsOut(g) == 3;
    assert Tap(g, 0, 1, 0, 0, 0, 0);
    assert PatchRowIndex(g, 0, 1, 0) * StagingCols(g) + TapIndex(g, 0, 0, 0) == 3;
    AsWrittenStagingEntry(input, g, 0, 0, 1, 0, 0, 0, 0);
    IntendedStagingEntry(input, g, 0, 0, 1, 0, 0, 0, 0);
  }

  /** The test of a 3-channel 224 x 224 image padded by one on every side, with
      a 3 x 3 kernel and unit strides: the loops run, every read stays inside
      the 3 x 226 x 226 input, and the result has 27 rows and 50176 columns. */
  lemma PaddedImageShape<T>(input: seq<T>, zero: T)
    requires |input| == 3 * 226 * 226
    ensures Im2ColFault([1, 3, 226, 226], [1, 1, 3, 3], 1, 1).None?
    ensures AccessesInBounds(|input|, [1, 3, 226, 226], [1, 1, 3, 3], 1, 1, 224, 224)
    ensures var g := GeometryOf([1, 3, 226, 226], [1, 1, 3, 3], 1, 1);
      StagingFits(g, 224, 224)
      && Transposed(StagingMatrix(input, g, g.ih, 224, 224, zero)).rows == 27
      && Transposed(StagingMatrix(input, g, g.ih, 224, 224, zero)).cols == 50176
  {
    var g := GeometryOf([1, 3, 226, 226], [1, 1, 3, 3], 1, 1);
    assert RowsOut(g) == 224 && ColsOut(g) == 224;
    TripsOfBatchAxes(g, g.ih);
    ReachOfBatchAxes(g, g.ih);
  }
}
