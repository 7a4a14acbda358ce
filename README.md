# steelix: a verified model of the IR core

steelix reads an ONNX model into an intermediate representation and analyses it without running it. The IR is a graph of operator nodes. Each node holds an op and the ids of its providers and its consumers. The tool:

- orders the graph so that every node comes after its providers, by a depth-first search from each output;
- "realizes" the nodes in that order, feeding each op the first output of each provider;
- from each op, infers the output tensors and their shapes and counts the cost (flops and parameters);
- sums the costs into a model summary, together with a count per operator name and, in one tree, the shape each node produced.

The repository holds two versions of this IR side by side, `crates/ir` and `steelix/src/ir` (plus a few files under `src/`). They differ in small ways, such as the factor 8 on flops, the fallback for a provider that has no output yet, and output dtypes. Both are modelled, each op in a module named after its tree (`CratesAdd`, `SteelixAdd`, ...). Lemmas relate the two versions wherever they meet.

The project is in Dafny. It has four parts:

- **Tensors and shapes.** `tensors.dfy`, `shapes.dfy`, `tensor_shapes.dfy`, `stacking.dfy` and `layout.dfy` cover the tensor container. A tensor is a dtype, a shape, an element count and a byte buffer whose length is the element count times the element width. Integer elements are read and written little-endian, in two's complement. They also cover the `"x"`-joined shape display, and `stack_tensors` (the concat rule with its buffer copy).
- **Kernel shape and cost rules.** There is one module per operator source file. `ops.dfy` gathers them into one `Op` datatype, with `Realize`, `Name` and `Group`.
  - The code's own error paths are results. A panic is `Panic`, `bail!`/`ensure!` is `Bail`, a wrong number of providers is `ProviderCount`, and the model's validation error is `Validation`.
  - `i64` division truncates toward zero, and the `as f32` / `.floor()` / `as usize` chain saturates at 0. Both are written out in `numerics.dfy` and `windows.dfy`. A `usize` subtraction that would go below zero is a panic, as in a debug build.
- **im2col.** `im2col.dfy` keeps the source's nested loops over an array, proved against a function that states which input element each staging cell holds. The result is stated as the transpose of that staging matrix.
- **The graph.**
  - `graph.dfy` holds the arena invariants and the explicit-stack depth-first search.
  - `execution.dfy` holds the run loop of each tree, proved against functions that state the summary.
  - `model.dfy` holds the `Model` class, whose methods update the node list and the stored traversal order in place.

The run loops take the realize function as a parameter. The class passes `Ops.Realize` to them.

The kernels follow the code as written, including the four defects listed under "## Findings". For each defect, the corrected definition and its intended property are proved beside the as-written one.

## Model

| member | source | states |
|---|---|---|
| Tensors.SizeOf | crates/ir/src/tensor.rs:278-283 | every dtype's element width is 1, 2, 4 or 8 bytes, the width of the type `as_std!` dispatches it to |
| Tensors.SizeOfStd | crates/ir/src/tensor.rs:10-27 | F16, dispatched to `i16`, has the width of the type it is dispatched to, as every other dtype does |
| Tensors.DecodeValue | crates/ir/src/tensor.rs:129-131 | one element read from its bytes as the `as_std!` type always lies in that type's range |
| Tensors.ValueRoundTrip | crates/ir/src/tensor.rs:129-131 | reading back the bytes of an in-range integer element gives the element |
| Tensors.BytesRoundTrip | crates/ir/src/tensor.rs:129-131 | every group of element-width bytes is the encoding of the value read from it, so the byte view loses nothing |
| Tensors.EncodeValues | crates/ir/src/tensor.rs:95-101 | the byte image of a `Vec<T>` has the element width times the number of elements |
| Tensors.EncodedElement | crates/ir/src/tensor.rs:95-101 | element `i` of the byte image of a list is the encoding of the list's element `i` |
| Tensors.ValuesRoundTrip | crates/ir/src/tensor.rs:95-101 | writing a list of integers as bytes and reading as many elements back gives the list |
| Tensors.DefaultTensorIsEmpty | crates/ir/src/tensor.rs:39-45 | the derived default tensor (F32, empty shape, no bytes) has one element by `numel` but `len` 0: readable, not consistent |
| Tensors.New | crates/ir/src/tensor.rs:74-93 | `new`, `zeros` and `uninitialized` keep the dtype and shape, set `len` to the shape's element count and give a consistent all-zero buffer |
| Tensors.FromVec | crates/ir/src/tensor.rs:95-108 | `from_vec` gives a consistent tensor whose bytes are the first `product(shape) * size_of` bytes of the vector's image |
| Tensors.FromVecRoundTrip | crates/ir/src/tensor.rs:95-108 | a tensor built from integers reads back, through its typed view, as the first `product(shape)` of them |
| Tensors.FromVecElement | crates/ir/src/tensor.rs:95-108 | each element of such a tensor is the corresponding element of the vector |
| Tensors.IntElements | crates/ir/src/tensor.rs:129-131 | the typed view of an integer tensor has exactly `len` elements |
| Tensors.TypedSlice | crates/ir/src/tensor.rs:129-131 | `as_slice_unchecked` yields exactly `len` elements, each of the dtype's width |
| Tensors.NumelOfValid | crates/ir/src/tensor.rs:118-120 | on a consistent tensor `numel` equals `len` and the buffer holds `numel` elements |
| Tensors.UpdateShape | crates/ir/src/tensor.rs:122-125 | `update_shape` replaces the shape and leaves dtype, `len` and data unchanged |
| Tensors.UpdateShapeValidity | crates/ir/src/tensor.rs:122-125 | with no error check, the tensor stays consistent exactly when the new shape has as many elements as the old |
| Tensors.ToScalar | crates/ir/src/tensor.rs:177-187 | an empty tensor is an error (and only then); otherwise the result is the bytes of the first element |
| Tensors.TensorEqIsEquality | crates/ir/src/tensor.rs:60-71 | on consistent tensors, equality of dtype, shape, `len` and typed slices holds exactly when the values are equal |
| Shapes.ProductAppend | crates/ir/src/tensor.rs:75 | the element count of a concatenated shape is the product of the two counts |
| Shapes.ProductAround | crates/ir/src/tensor.rs:75 | the element count splits into the prefix count, one dimension and the suffix count |
| Shapes.ProductOfOnes | crates/ir/src/tensor.rs:75 | a shape of ones holds exactly one element |
| Shapes.Decimal | crates/ir/src/shape.rs:31 | a dimension is written as a non-empty string of digits with no leading zero |
| Shapes.ParseDecimalOfDecimal | crates/ir/src/shape.rs:31 | reading the written digits back gives the dimension |
| Shapes.Display | crates/ir/src/shape.rs:25-35 | the loop writes the dimensions in order with one "x" between neighbours |
| Shapes.JoinXSeparators | crates/ir/src/shape.rs:25-35 | an empty shape prints as nothing; a non-empty one has exactly rank - 1 separators, neither first nor last |
| Shapes.SplitJoinX | crates/ir/src/shape.rs:25-35 | cutting the text at each "x" gives the decimal text of each dimension |
| Shapes.DisplayRoundTrip | crates/ir/src/shape.rs:25-35 | parsing the displayed text gives the shape back, so the display is injective |
| Shapes.DisplayExample | crates/ir/src/shape.rs:25-35 | [1, 3, 224, 224] prints as "1x3x224x224" |
| TensorShapes.Display | crates/ir/src/tensor_shape.rs:6-13 | an empty dimension list panics on `len() - 1`; otherwise each dimension but the last is followed by "x" |
| TensorShapes.SingleDimension | crates/ir/src/tensor_shape.rs:6-13 | one dimension prints as its decimal value, with a '-' in front when it is negative |
| TensorShapes.AgreesWithShapeDisplay | crates/ir/src/tensor_shape.rs:6-13 | on non-negative dimensions `TensorShape` prints exactly what `Shape` prints |
| IrCore.UnaryOpFlops | steelix/src/ir/mod.rs:35-40 | an elementwise cost has no parameters and `flops_per_elem` operations for each element of the input |
| IrCore.UnaryOpFlopsAdds | steelix/src/ir/mod.rs:35-40 | the cost is additive in the per-element count, and zero operations per element cost nothing |
| IrCore.RealizedZeroCost | steelix/src/ir/mod.rs:51-57 | the outputs are kept and the cost is the zero cost |
| IrCore.RealizedEqIsEquality | steelix/src/ir/mod.rs:60-64 | on consistent outputs, equal costs and element-wise equal outputs hold exactly when the realized ops are equal |
| IrCore.ValidateProviders | steelix/src/ir/mod.rs:86-103 | succeeds exactly when the count lies in `lower..=upper`; otherwise the error names the bounds, the count and the op |
| IrCore.EmptyBoundsRejectAll | steelix/src/ir/mod.rs:86-103 | bounds with `lower > upper` reject every provider count |
| IrCore.ShapesOf | steelix/src/ir/mod.rs:46-49 | one shape per provider, in provider order |
| IrCore.RealizeElementwise | steelix/src/ir/mod.rs:105-129 | exactly one provider is accepted; it is passed through as the only output at `numel * flop` flops; other counts give the provider-count error naming the op |
| IrCore.ElementwiseGroups | steelix/src/ir/mod.rs:169-176 | Abs, Erf, Sigmoid and Not are Logic, the others are Activation, and every flop factor lies in 1..=4 |
| IrCore.ElementwiseNamesDistinct | steelix/src/ir/mod.rs:105-129 | two elementwise ops have the same name exactly when they are the same op |
| Numerics.TruncDiv | steelix/src/ir/ops/pool/max_pool.rs:25-26 | `i64` division: the remainder is smaller than the divisor in magnitude and has the sign of the dividend |
| Numerics.TruncDivAgreesOnNonNegatives | steelix/src/ir/ops/pool/max_pool.rs:25-26 | on a non-negative dividend and a positive divisor the `i64` quotient is the floor quotient |
| Numerics.TruncDivRoundsTowardZero | steelix/src/ir/ops/pool/max_pool.rs:25-26 | on a negative dividend it is not: -1 / 2 is 0 in Rust and -1 as a floor |
| Numerics.AsUsize | steelix/src/ir/ops/pool/max_pool.rs:44 | `as usize` keeps a non-negative `i64` and turns a negative one into a value above `i64::MAX` |
| Numerics.AsI64 | steelix/src/ir/ops/shape/shape.rs:32 | `as i64` on a `usize` lands in the `i64` range and agrees with the original modulo 2^64 |
| Numerics.SaturatingCast | steelix/src/ir/ops/pool/max_pool.rs:25-26 | `as f32 .floor() as usize` keeps a non-negative integer and sends a negative one to 0 |
| Windows.PlainIsUndilated | crates/ir/src/ops/nn/im2col.rs:23-33 | the formula without dilation is the dilated formula with dilation 1 |
| Windows.DocCommentNumerator | crates/ir/src/ops/nn/depthwise.rs:15-34 | the numerator the doc comment draws, `i + 2p - k - (k - 1)(d - 1)`, is the one the code computes |
| Windows.DilatedDimCountsWindows | crates/ir/src/ops/nn/conv.rs:22-39 | when the kernel fits and the stride is positive, the output size counts the window positions: the last one fits in the padded input and the next would not |
| Windows.FloorDim | crates/ir/src/ops/nn/depthwise.rs:15-17 | the floor formula the doc comment draws counts exactly the window positions that fit, including none when the kernel does not fit |
| Windows.TruncatedVersusFloor | crates/ir/src/ops/nn/depthwise.rs:15-34 | the code's truncating formula and the floor formula differ exactly when the numerator lies strictly between `-s` and 0, and then the code reports one window where none fits |
| Windows.TruncationCountsMissingWindow | crates/ir/src/ops/nn/depthwise.rs:18-34 | a two-wide input, a three-tap kernel and stride 2 get one output position although the kernel never fits |
| CratesDepthwise.OutputDims | crates/ir/src/ops/nn/depthwise.rs:18-34 | a missing kernel shape panics on `unwrap`, short attribute lists panic on indexing, and otherwise height and width follow the dilated formula |
| CratesDepthwise.OutputDimsCountWindows | crates/ir/src/ops/nn/depthwise.rs:18-34 | with a kernel that fits and a positive stride, the output height counts the window positions down the padded input |
| CratesDepthwise.TestDims | crates/ir/tests/ops/nn/depthwise.rs:6-113 | the output sizes of the depthwise layers the crate's tests use: 112 x 112, 28 x 28 and 3 x 3 |
| CratesConv.OutputDims | crates/ir/src/ops/nn/conv.rs:22-39 | short attribute lists panic; otherwise height and width follow the dilated formula |
| CratesConv.SameDimsAsDepthwise | crates/ir/src/ops/nn/conv.rs:22-39 | convolution and depthwise convolution compute the same output size from the same attributes |
| CratesConv.Placeholder | crates/ir/src/ops/nn/conv.rs:73 | the placeholder output is a consistent f32 zero tensor `[n, f, h_out, w_out]` |
| CratesConv.MacPerPosition | crates/ir/src/ops/nn/conv.rs:70-71 | without groups, the multiply-accumulate count is the parameter count times the number of output positions |
| CratesConv.Cost | crates/ir/src/ops/nn/conv.rs:51-79 | two or three providers, else the provider-count error; inputs of rank below 4, short attributes or group 0 panic; otherwise four copies of the placeholder, `(cin / group) * kh * kw * h_out * w_out * f` multiply-accumulates and `f * cin * kh * (kw / group)` parameters |
| CratesConv.UngroupedCostPerPosition | crates/ir/src/ops/nn/conv.rs:51-79 | for an ungrouped convolution the cost is one multiply-accumulate per weight per output position |
| CratesConv.NeverBails | crates/ir/src/ops/nn/conv.rs:52-55 | the second provider-count check is unreachable: a wrong count is always the `validate_providers` error |
| CratesConv.Build | crates/ir/src/ops/nn/conv.rs:82-106 | missing kernel shape, strides or dilations is an error; group defaults to 1 and pads to zeros; a group other than 1 builds a depthwise layer and group 1 a convolution |
| CratesConv.BuiltConvIsUngrouped | crates/ir/src/ops/nn/conv.rs:82-106 | a built convolution (rather than depthwise) is exactly the case of no group or group 1, and its group is 1 |
| CratesConv.CostExample | crates/ir/tests/ops/nn/conv.rs:6-32 | a 1x3x224x224 input with 32 3x3 filters, stride 2 and pads [0, 0, 1, 1] gives 1x32x112x112 outputs, 3*3*3*112*112*32 multiply-accumulates and 864 parameters |
| CratesIm2Col.OutputDims | crates/ir/src/ops/nn/im2col.rs:22-34 | a missing kernel shape panics on `unwrap`, short lists panic, and otherwise the size follows the formula without dilation |
| CratesIm2Col.UndilatedAgreesWithDepthwise | crates/ir/src/ops/nn/im2col.rs:22-34 | with dilation 1 the im2col output size is the depthwise output size |
| CratesIm2Col.TestDims | crates/ir/tests/ops/nn/conv.rs:34-172 | the output sizes of the 5 x 5 convolution tests: 5 x 5 with padding 1, 2 x 2 with stride 2, 3 x 3 with both |
| CratesIm2Col.TestDimsWide | crates/ir/tests/ops/nn/im2col.rs:8-47 | the 224 x 224 stem of the im2col comparison gives 112 x 112, and a 5 x 5 input padded by 2 with stride 2 gives 4 x 4 |
| CratesIm2Col.Build | crates/ir/src/ops/nn/im2col.rs:46-72 | missing strides or dilations panic on `unwrap`; the kernel shape stays optional; group other than 1 builds a depthwise layer |
| SteelixMaxPool.OutputDims | steelix/src/ir/ops/pool/max_pool.rs:16-28 | short kernel, stride or pad lists panic; otherwise height and width follow the formula without dilation, using `pads[2]` and `pads[3]` |
| SteelixMaxPool.OutputDimsCountWindows | steelix/src/ir/ops/pool/max_pool.rs:16-28 | with a kernel that fits and a positive stride, the output height counts the window positions |
| SteelixMaxPool.Realize | steelix/src/ir/ops/pool/max_pool.rs:40-54 | no provider or a rank below 4 panics; otherwise one zero `[N, C, h_out, w_out]` output of the input's dtype, at kernel area times output elements flops |
| SteelixMaxPool.FlopsPerOutputElement | steelix/src/ir/ops/pool/max_pool.rs:40-54 | the flop count is one per (output element, kernel tap) pair, the output having `N * C * h_out * w_out` elements |
| SteelixMaxPool.Build | steelix/src/ir/ops/pool/max_pool.rs:57-71 | the kernel shape is required; `ceil_mode` and `count_include_pad` default to 0, pads to zeros and strides to [1, 1], and given values are kept |
| SteelixMaxPool.StemExample | steelix/src/ir/ops/pool/max_pool.rs:40-54 | a 3 x 3, stride 2, pad 1 pool takes 1x64x112x112 to 1x64x56x56 at 9 flops per output element |
| CratesAvgPool.OutputDims | crates/ir/src/ops/pool/avg_pool.rs:18-32 | the output size is the max-pooling output size for the same pads, strides and kernel |
| CratesAvgPool.Realize | crates/ir/src/ops/pool/avg_pool.rs:43-55 | no provider or a rank below 4 panics; otherwise four f32 zero `[N, C, h_out, w_out]` outputs at one multiply-accumulate per input element |
| CratesAvgPool.SameShapeAsMaxPool | crates/ir/src/ops/pool/avg_pool.rs:43-55 | average and max pooling with the same attributes succeed together and give outputs of the same shape; average pooling's is always f32 |
| CratesAvgPool.Build | crates/ir/src/ops/pool/avg_pool.rs:58-75 | a missing kernel shape panics on `unwrap`; pads default to zeros and strides to [1, 1]; the two mode flags stay optional |
| SteelixGlobalAvgPool.Realize | steelix/src/ir/ops/pool/globalavgpool.rs:18-31 | no provider or rank below 2 panics; otherwise one zero `[N, C, 1, 1]` output of the input's dtype at one flop per input element |
| SteelixGlobalAvgPool.WholeImageWindow | steelix/src/ir/ops/pool/globalavgpool.rs:18-31 | global pooling gives the output of max pooling with an `H x W` window, no padding and unit strides: one element per batch entry and channel |
| Im2ColKernel.Im2Col | crates/ir/src/ops/shape/im2col.rs:6-54 | shapes of rank below 4 panic on indexing; with a batch entry, a kernel taller or wider than the input underflows and a zero stride panics in `step_by`; otherwise the result is the transpose of the staging matrix: the strided gather of the six loops over the zeros the buffer started with |
| Im2ColKernel.CopyAll | crates/ir/src/ops/shape/im2col.rs:29-48 | the batch loop writes, from the start of the buffer, exactly the gather of all six loops and nothing else |
| Im2ColKernel.CopyBatch | crates/ir/src/ops/shape/im2col.rs:30-47 | the row loop writes the patches of one batch entry, row positions `s0 * ih` elements apart, from the running write index, and returns the index past them |
| Im2ColKernel.CopyPatchRow | crates/ir/src/ops/shape/im2col.rs:32-46 | the column loop writes the patches of one row position, anchored `s1` elements apart |
| Im2ColKernel.CopyPatch | crates/ir/src/ops/shape/im2col.rs:33-45 | the channel loop writes one `c x kr x kc` patch, channels `ih * iw` elements apart |
| Im2ColKernel.CopyChannel | crates/ir/src/ops/shape/im2col.rs:36-44 | the kernel-row loop writes one channel of a patch, rows `iw` elements apart |
| Im2ColKernel.CopyKernelRow | crates/ir/src/ops/shape/im2col.rs:37-43 | the kernel-column loop writes `kc` consecutive input elements at the write index |
| Im2ColKernel.GatherLength | crates/ir/src/ops/shape/im2col.rs:29-48 | the loops write as many elements as the product of their trip counts |
| Im2ColKernel.GatherAt | crates/ir/src/ops/shape/im2col.rs:38-42 | for every combination of loop indices, the element written at their row-major position is the input element at the anchor plus each index times its stride |
| Im2ColKernel.PositionsBelow | crates/ir/src/ops/shape/im2col.rs:31-32 | `(0..bound).step_by(s)` visits position `k` exactly when `k * s < bound` |
| Im2ColKernel.CopiesIgnoreStrides | crates/ir/src/ops/shape/im2col.rs:29-48 | the number of copies depends on the trip counts only, not on how far apart the reads are |
| Im2ColKernel.Im2ColFaultIsShapeCheck | crates/ir/src/ops/shape/im2col.rs:12-32 | the function runs to the end exactly when both shapes have four entries and either the batch is empty or the kernel fits and the strides are positive |
| Im2ColKernel.StagingFilled | crates/ir/src/ops/shape/im2col.rs:25-48 | the buffer the loops leave behind is the gathered elements followed by the zeros it was created with |
| Im2ColKernel.StagingMatrix | crates/ir/src/ops/shape/im2col.rs:25 | the staging buffer is an `n * h_out * w_out` by `c * kr * kc` row-major matrix |
| Im2ColKernel.Transposed | crates/ir/src/ops/shape/im2col.rs:49-53 | `.t()` copied into a fresh array swaps the row and column counts and keeps the element count |
| Im2ColKernel.TransposedAt | crates/ir/src/ops/shape/im2col.rs:49-53 | entry `(j, i)` of the transpose is entry `(i, j)` of the staging matrix |
| Im2ColKernel.TransposedTwice | crates/ir/src/ops/shape/im2col.rs:49-53 | transposing twice gives the matrix back |
| Im2ColKernel.ReachOfBatchAxes | crates/ir/src/ops/shape/im2col.rs:29-48 | when every loop runs, the last element read is the tap at the last index of every loop |
| Im2ColKernel.FlatIsRowAndColumn | crates/ir/src/ops/shape/im2col.rs:28-42 | the running write index of a tap is its staging row (patch) times the row width plus its column (channel, kernel row, kernel column) |
| Im2ColKernel.IntendedStagingEntry | crates/ir/src/ops/shape/im2col.rs:33 | with row positions anchored at `h * iw`, every staging entry is the NCHW input element at row `h * s0 + kri` and column `w * s1 + kci` of its channel |
| Im2ColKernel.AsWrittenStagingEntry | crates/ir/src/ops/shape/im2col.rs:33 | with the anchor as written, `h * ih`, the entry is the element `h * s0 * ih` past the tap in the first patch row, which is the intended one only when `ih == iw` |
| Im2ColKernel.RowAnchorUsesHeight | crates/ir/src/ops/shape/im2col.rs:33 | on a one-channel 2 x 3 input holding 0..5 with a 1 x 1 kernel, the patch at row 1, column 0 copies element 2 where element 3 is meant |
| Im2ColKernel.PaddedImageShape | crates/ir/tests/ops/shape/im2col.rs:10-20 | the test's 3 x 226 x 226 padded image with a 3 x 3 kernel and unit strides runs without a panic, reads inside the input and gives a 27 x 50176 result |
| CratesPad.ConvertPads | crates/ir/src/ops/shape/pad.rs:19-26 | one (before, after) pair per axis: half as many pairs as widths, a trailing odd width dropped |
| CratesPad.ConvertPadsRoundTrip | crates/ir/src/ops/shape/pad.rs:19-26 | pairing non-negative widths and writing the pairs back as an attribute gives the widths back (without an odd last one), and pairing the attribute of any pair list gives the list back |
| CratesPad.WithBatchAndChannel | crates/ir/src/ops/shape/pad.rs:33-36 | the loop puts two (0, 0) pairs in front of the converted pairs and keeps them in order |
| CratesPad.PaddedShapeAt | crates/ir/src/ops/shape/pad.rs:38-43 | each padded dimension is the input dimension plus its two widths |
| CratesPad.PaddedShape | crates/ir/src/ops/shape/pad.rs:38-43 | `zip` gives as many dimensions as the shorter of the shape and the pair list |
| CratesPad.PadFault | crates/ir/src/ops/shape/pad.rs:38-56 | `pad` runs to the end exactly when no padded dimension overflows `usize`, the padded element count fits `isize` and there is one pair per input axis |
| CratesPad.Padded | crates/ir/src/ops/shape/pad.rs:45-56 | the output is a well-formed array of the padded shape |
| CratesPad.PadCopiesInterior | crates/ir/src/ops/shape/pad.rs:47-56 | every input element lands at its coordinates moved by the widths before: `output[c + before] == input[c]` |
| CratesPad.PadZerosBorder | crates/ir/src/ops/shape/pad.rs:45 | every output position that no input element is copied to holds zero |
| CratesPad.ShiftInBounds | crates/ir/src/ops/shape/pad.rs:47-54 | input coordinates moved by the widths lie inside the slice `[before, before + d)` of the output, and moving back gives them again |
| CratesPad.UnshiftInBounds | crates/ir/src/ops/shape/pad.rs:47-54 | every output coordinate inside that slice comes from exactly one input coordinate |
| CratesPad.Pad | crates/ir/src/ops/shape/pad.rs:28-58 | the result is the input assigned into the interior of a zero array of the padded shape, batch and channel unpadded, and the panics are exactly the cases `PadFault` names |
| CratesPad.PadsHeightAndWidth | crates/ir/src/ops/shape/pad.rs:28-58 | on an NCHW input and widths [top, left, bottom, right], batch and channel stay and height and width grow by `top + bottom` and `left + right` |
| CratesPad.NegativeWidthPanics | crates/ir/src/ops/shape/pad.rs:23-24 | a negative width, cast to `usize`, always makes `pad` panic |
| Layout.UnravelRavel | crates/ir/src/ops/shape/pad.rs:45-56 | in the row-major layout of an n-dimensional array every in-bounds coordinate has one flat position, and unravelling it gives the coordinate back |
| Layout.RavelUnravel | crates/ir/src/ops/shape/pad.rs:45-56 | every flat position below the element count unravels to coordinates that ravel back to it |
| Broadcast.MaxRank | crates/ir/src/ops/shape/broadcast.rs:4 | the result length bounds the rank of every shape |
| Broadcast.MaxRankAttained | crates/ir/src/ops/shape/broadcast.rs:4 | for a non-empty list some shape has exactly that rank |
| Broadcast.DimFoldSpec | crates/ir/src/ops/shape/broadcast.rs:7-21 | the inner loop at one aligned position succeeds exactly when no two shapes have different dimensions other than 1 there, and then yields 1 or the dimension other than 1 that every shape has or is 1 at |
| Broadcast.MultiBroadcastLoop | crates/ir/src/ops/shape/broadcast.rs:3-26 | the loops, the pushes and the final reverse compute `MultiBroadcast`: no result for no shapes or a disagreeing position, else the broadcast dimensions leftmost first |
| Broadcast.MultiBroadcast | crates/ir/src/ops/shape/broadcast.rs:3-26 | no shapes give no result, and a result has the largest rank of the inputs |
| Broadcast.BroadcastSpec | crates/ir/src/ops/shape/broadcast.rs:3-26 | a result exists exactly when the shapes agree at every aligned position; each input then has 1 or the result's dimension at every position, and each result dimension is 1 or the dimension of some input |
| Broadcast.BroadcastSingle | crates/ir/src/ops/shape/broadcast.rs:3-26 | broadcasting one shape gives it back |
| Broadcast.BroadcastSymmetric | crates/ir/src/ops/shape/broadcast.rs:3-26 | the order of two shapes does not change the result |
| Broadcast.DimFoldPair | crates/ir/src/ops/shape/broadcast.rs:7-21 | for two shapes one position fails exactly when both dimensions differ and neither is 1, and otherwise gives the one other than 1 |
| Broadcast.BroadcastPairFromDims | crates/ir/src/ops/shape/broadcast.rs:3-26 | two shapes broadcast to `e` when `e` has the larger rank and, at every position, the dimension they agree on |
| Broadcast.BroadcastCongruent | crates/ir/src/ops/shape/broadcast.rs:3-26 | only the aligned dimensions and the largest rank matter: lists that agree on them broadcast alike |
| Broadcast.BroadcastPadded | crates/ir/src/ops/shape/broadcast.rs:3-26 | left-padding the shorter of two shapes with 1s up to the other's rank does not change the broadcast |
| Broadcast.BroadcastExamples | crates/ir/src/ops/shape/broadcast.rs:32-54 | the tests `onnx_1` to `onnx_3`: a scalar, a trailing vector and a shorter operand all broadcast to [2, 3, 4, 5] |
| Broadcast.BroadcastStretchExamples | crates/ir/src/ops/shape/broadcast.rs:56-70 | the tests `onnx_4` and `onnx_5`: dimensions of 1 on either side stretch to [2, 3, 4, 5] |
| Broadcast.Example | crates/ir/src/ops/shape/broadcast.rs:32-70 | every pair of shapes of rank at most 4, one of rank 4, whose aligned dimensions are 1 or those of [2, 3, 4, 5] and never both 1, broadcasts to [2, 3, 4, 5] |
| Matmul.Promoted | crates/ir/src/ops/binary/matmul.rs:65-72 | an operand of rank below 2 gains exactly one dimension, others keep their rank |
| Matmul.PadLeft | crates/ir/src/ops/binary/matmul.rs:73-78 | the padded operand has exactly the target rank |
| Matmul.PadFront | crates/ir/src/ops/binary/matmul.rs:73-78 | the `insert(0, 1)` loop pads an operand on the left with 1s up to the other operand's rank, leaving a longer one unchanged |
| Matmul.FromPadded | crates/ir/src/ops/binary/matmul.rs:79-123 | on equal-rank operands a result keeps the padded operands, has a broadcast output of their rank, drops one final dimension per vector operand, and exists only when the contracted dimensions (after the transposes) agree |
| Matmul.Finish | crates/ir/src/ops/binary/matmul.rs:79-123 | the broadcast of the batch prefixes, the swaps, the contraction check and the pushes compute `FromPadded` |
| Matmul.ComputeShapesInPlace | crates/ir/src/ops/binary/matmul.rs:56-124 | `compute_shapes` step by step (inserts, padding loops, swaps, pushes) computes `ComputeShapes` |
| Matmul.ComputeShapesRanks | crates/ir/src/ops/binary/matmul.rs:56-124 | every failure is a panic or a `bail!`; on success both operands have one rank, at least 2 and at least each input rank, the broadcast output has it too, and the final output has one dimension fewer per vector operand |
| Matmul.PromotedShapes | crates/ir/src/ops/binary/matmul.rs:56-124 | once the inserts succeed, the result is the padded-operand computation on the promoted operands |
| Matmul.ComputeShapesIsNumpyMatmul | crates/ir/src/ops/binary/matmul.rs:23-26 | without transposes and for operands of rank at least 1, `compute_shapes` succeeds exactly when numpy's matmul shape rule does, gives the same output shape, and fails only by `bail!` |
| Matmul.PromoteVectors | crates/ir/src/ops/binary/matmul.rs:25-26 | a vector first operand is read as a row and a vector second operand as a column |
| Matmul.FromPaddedBatch | crates/ir/src/ops/binary/matmul.rs:73-83 | the batch prefix of the output is the broadcast of the unpadded operands' prefixes |
| Matmul.OutputTransposeSwaps | crates/ir/src/ops/binary/matmul.rs:103-122 | `c_trans` never changes success and only exchanges the two matrix dimensions of the broadcast output |
| Matmul.TransposedOperand | crates/ir/src/ops/binary/matmul.rs:87-89 | for a matrix operand, `a_trans` is the same as exchanging its last two dimensions beforehand |
| Matmul.Realize | crates/ir/src/ops/binary/matmul.rs:28-49 | two providers, else the provider-count error; success exactly when `compute_shapes` succeeds, both operands have rank at least 2 and `p >= 1`; the output is a zero tensor of the final shape and the cost `m * n * (2p - 1)` flops |
| Matmul.RealizeMatrices | crates/ir/src/ops/binary/matmul.rs:23-49 | an `[m, p]` by `[p, n]` product gives one `[m, n]` output costing `2p - 1` operations per output element |
| Matmul.RealizeExample | crates/ir/src/ops/binary/matmul.rs:27-49 | a 2x4 by 4x3 product costs 42 flops |
| Matmul.RealizeRejectsVectors | crates/ir/src/ops/binary/matmul.rs:36-38 | a vector first operand, which `compute_shapes` promotes, always fails in `realize` |
| Matmul.ComputeShapesMatrices | crates/ir/src/ops/binary/matmul.rs:56-124 | two matrices `[m, p]` and `[p, n]` give the final shape `[m, n]` |
| CratesGemm.Realize | crates/ir/src/ops/math/gemm.rs:26-52 | two or three providers, else the provider-count error; success exactly when all provider shapes broadcast together to a shape of rank at least 2 whose second dimension is positive; the output is a zero tensor of the broadcast shape and the cost is read off that shape alone |
| CratesGemm.RejectsMatrixProduct | crates/ir/src/ops/math/gemm.rs:28-34 | an ordinary `[m, k]` by `[k, n]` product whose `k` and `n` differ and are not 1 panics at the `unwrap` |
| CratesGemm.SquareOperands | crates/ir/src/ops/math/gemm.rs:36-51 | two `[n, n]` operands give an `[n, n]` output costing `n * n * (2n - 1)` flops |
| SteelixGemm.MatchingDimFrom | steelix/src/ir/ops/math/gemm.rs:61-72 | the search from position `i` finds the first position where both shapes agree, succeeds exactly when one exists, and otherwise panics (indexing past `b`) exactly when `a` is longer than `b`, else bails |
| SteelixGemm.MatchingDim | steelix/src/ir/ops/math/gemm.rs:61-72 | `matching_dim` returns a position where both shapes have the same dimension, succeeds exactly when one exists, and fails by panic when the first shape is longer, else by `bail!` |
| SteelixGemm.MatchingDimLoop | steelix/src/ir/ops/math/gemm.rs:61-72 | the `for` loop with its early return computes `MatchingDim` |
| SteelixGemm.MatchingDimSymmetric | steelix/src/ir/ops/math/gemm.rs:78-79 | searching `(a, b)` and `(b, a)` succeed together and stop at the same position |
| SteelixGemm.AbShape | steelix/src/ir/ops/math/gemm.rs:74-85 | `ab_shape` is always a pair, and it fails only by panic or `bail!` |
| SteelixGemm.BuildAbShape | steelix/src/ir/ops/math/gemm.rs:74-85 | the block with its two searches, two removals and two index writes computes `AbShape` |
| SteelixGemm.AbShapeTransposedB | steelix/src/ir/ops/math/gemm.rs:74-85 | for `[m, k]` and `[n, k]` with `m != n`, `ab_shape` is `[m, n]` |
| SteelixGemm.ComputeCost | steelix/src/ir/ops/math/gemm.rs:18-34 | the cost succeeds exactly when all four shapes have rank at least 2 and `b[1]`, `c[1]` are positive; it is `a[0] * a[1] * (2 b[1] - 1) + ab[0] * ab[1] * (2 c[1] - 1)` flops and no parameters |
| SteelixGemm.OperandC | steelix/src/ir/ops/math/gemm.rs:52-56 | `C` is the third provider when there is one, else a `[1]` tensor of A's dtype |
| SteelixGemm.Realize | steelix/src/ir/ops/math/gemm.rs:47-96 | two or three providers, else the provider-count error; `realize` succeeds exactly when `ab_shape` exists, C's shape broadcasts to it, A and B have rank at least 2 with `b[1]` positive, and the broadcast C has rank at least 2 with a positive second dimension; an `ab_shape` failure is returned, a C that does not broadcast panics with the `expect` message; on success the cost is `compute_cost` of A, B, `ab_shape` and the broadcast C, and the one output is a zero tensor of shape `ab_shape` and A's dtype |
| SteelixGemm.TransposedB | steelix/src/ir/ops/math/gemm.rs:47-96 | `A: [m, k]`, `B: [n, k]` with no `C` gives `[m, n]` at `m * k * (2k - 1) + m * n * (2n - 1)` flops |
| SteelixGemm.ClassifierHead | steelix/src/ir/ops/math/gemm.rs:47-96 | a `[1, 2048]` by `[1000, 2048]` product plus a `[1000]` bias gives `[1, 1000]` and the corresponding cost |
| SteelixAdd.Realize | steelix/src/ir/ops/binary/add.rs:18-36 | two providers, else the provider-count error; success exactly when their shapes broadcast, otherwise a panic; the output is a zero tensor of the broadcast shape and the cost is the first operand's element count |
| SteelixAdd.OperandsCommute | steelix/src/ir/ops/binary/add.rs:18-36 | exchanging the operands changes neither success nor the output shape |
| SteelixAdd.CostCountsFirstOperand | steelix/src/ir/ops/binary/add.rs:29-33 | adding a `[1]` tensor to an `[n]` one gives `[n]` yet costs 1 flop |
| CratesAdd.Realize | crates/ir/src/ops/binary/add.rs:21-42 | success exactly when all provider shapes broadcast to a shape of rank at least 2, otherwise a panic; the output keeps only the first two broadcast dimensions and the cost is the first operand's element count |
| CratesAdd.KeepsFirstTwo | crates/ir/src/ops/binary/add.rs:30-34 | two operands of the same shape give that shape cut to its first two dimensions |
| CratesAdd.NoProviders | crates/ir/src/ops/binary/add.rs:21-28 | with no providers the broadcast has nothing to take the maximum of and `realize` panics |
| SteelixSum.Realize | steelix/src/ir/ops/math/sum.rs:17-35 | success exactly when all provider shapes broadcast, otherwise the "Sum: broadcast failed" panic; the output is a zero tensor of the broadcast shape and the cost is the total element count of the providers |
| SteelixSum.TotalNumelBounds | steelix/src/ir/ops/math/sum.rs:30 | the total is at least each provider's element count, and `k` providers of `n` elements make `k * n` |
| SteelixSum.SingleProvider | steelix/src/ir/ops/math/sum.rs:17-35 | one provider gives its own shape and costs its element count |
| CratesSum.Realize | crates/ir/src/ops/math/sum.rs:23-41 | success exactly when all provider shapes broadcast, otherwise a panic; the output is a zero tensor of the broadcast shape, at zero cost |
| CratesSum.AgreesWithSteelix | crates/ir/src/ops/math/sum.rs:23-41 | both trees' `Sum` succeed on the same providers with the same output |
| CratesSoftmax.Build | crates/ir/src/ops/activation/softmax.rs:46-49 | `axis` defaults to -1 and otherwise is the attribute's value |
| CratesSoftmax.SelectedDim | crates/ir/src/ops/activation/softmax.rs:30-34 | axis -1 selects the last dimension and panics on a rank-0 input; any other `i64` axis (cast to `usize`) succeeds exactly when it is a valid position; a success is one of the input's dimensions and every failure is a panic |
| CratesSoftmax.Realize | crates/ir/src/ops/activation/softmax.rs:24-43 | one provider, else the provider-count error; success exactly when the axis selects a dimension `d`; the output is a `[d]` zero tensor of the input's dtype at `5 d` flops |
| CratesSoftmax.MinusOneIsLastAxis | crates/ir/src/ops/activation/softmax.rs:30-34 | axis -1 gives the same result as the explicit last axis |
| CratesSoftmax.ClassifierExample | crates/ir/src/ops/activation/softmax.rs:24-49 | a `[1, 1000]` input with the default axis gives `[1000]` at 5000 flops |
| SrcClip.Build | src/ir/ops/activation/clip.rs:35-39 | the bounds default to `i64::MIN` and `i64::MAX` and otherwise are the attributes' values |
| SrcClip.Realize | src/ir/ops/activation/clip.rs:22-32 | one to three providers, else the provider-count error; the first provider passes through at one flop per element |
| SrcClip.LikeRelu | src/ir/ops/activation/clip.rs:22-32 | on one provider the result is that of the one-flop elementwise activations, and the bounds never change the result |
| SteelixBatchNorm.Realize | steelix/src/ir/ops/nn/batch_norm.rs:20-30 | exactly five providers, else the provider-count error; the input passes through at one flop per element |
| SteelixBatchNorm.ParametersIgnored | steelix/src/ir/ops/nn/batch_norm.rs:20-30 | the four parameter tensors do not change the result |
| CratesLrn.Realize | crates/ir/src/ops/nn/lrn.rs:27-37 | exactly one provider, else the provider-count error; four copies of the input out at `4 * numel` flops |
| SteelixLrn.Realize | steelix/src/ir/ops/nn/lrn.rs:24-33 | exactly one provider, else the provider-count error; the input passes through at one flop per element |
| SteelixLrn.TreesDiffer | crates/ir/src/ops/nn/lrn.rs:29-35 | both trees accept the same providers and fail alike; the crates version costs four times as much and lists the steelix output four times |
| CratesDropout.Realize | crates/ir/src/ops/nn/dropout.rs:20-29 | one or two providers, else the provider-count error; a zero tensor of the input's dtype and shape out at no cost |
| SteelixDropout.Realize | steelix/src/ir/ops/nn/dropout.rs:16-23 | one or two providers, else the provider-count error; the first provider passes through at no cost |
| SteelixDropout.TreesAgreeOnZeroInput | crates/ir/src/ops/nn/dropout.rs:22-23 | both trees accept the same providers at the same cost with outputs of one dtype and shape, which are equal exactly when the input is all zero bytes |
| SteelixConstant.Realize | steelix/src/ir/ops/data/constant.rs:16-24 | never fails; the stored tensor is the only output, at no flops and one parameter per element |
| SteelixConstant.ProvidersIgnored | steelix/src/ir/ops/data/constant.rs:16 | the providers make no difference to the result |
| CratesConstant.Realize | crates/ir/src/ops/misc/constant.rs:16-26 | never fails; the stored tensor is the only output, at zero cost |
| CratesConstant.TreesDiffer | crates/ir/src/ops/misc/constant.rs:19-23 | both trees output the same tensor at zero flops; only the steelix one counts its elements as parameters |
| SteelixInitial.Build | steelix/src/ir/ops/data/initial.rs:24-29 | a graph input holds an F32 zero tensor of its declared dimensions, whatever dtype was declared |
| SteelixInitial.Realize | steelix/src/ir/ops/data/initial.rs:19-21 | never fails; the stored tensor is the only output, at zero cost |
| SteelixInitial.BuiltInputIsZero | steelix/src/ir/ops/data/initial.rs:19-29 | a built input outputs a valid all-zero F32 tensor of the declared shape, four bytes per element |
| SteelixUnimplemented.Realize | steelix/src/ir/ops/data/unimplemented.rs:19-21 | never fails, with no outputs and no cost |
| SteelixUnimplemented.NameIsOpType | steelix/src/ir/ops/data/unimplemented.rs:12-14 | the op's name is the operator type it was built with, and the providers never matter |
| SteelixReshape.KnownProduct | steelix/src/ir/ops/shape/reshape.rs:18-29 | the running `product` skips 0 and -1 entries and is never 0, so the division by it cannot fail |
| SteelixReshape.UnknownAt | steelix/src/ir/ops/shape/reshape.rs:19-25 | `unknown_dim` is the first position holding -1, and is absent exactly when no entry is -1 |
| SteelixReshape.ScanFault | steelix/src/ir/ops/shape/reshape.rs:20-29 | every fault the scan raises is a panic |
| SteelixReshape.Scan | steelix/src/ir/ops/shape/reshape.rs:18-29 | the scan loop computes the first panic, or the product of the known entries and the wildcard position |
| SteelixReshape.CastEntries | steelix/src/ir/ops/shape/reshape.rs:37-40 | the closing cast loop computes the entries as a shape, stopping with a panic at the first negative entry |
| SteelixReshape.FirstNegative | steelix/src/ir/ops/shape/reshape.rs:39 | the cast that panics is the one at the first negative entry |
| SteelixReshape.Reshape | steelix/src/ir/ops/shape/reshape.rs:12-43 | `reshape` step by step (scan, wildcard fill, cast) computes `Reshaped` for every integer shape-tensor dtype |
| SteelixReshape.ReshapedEntries | steelix/src/ir/ops/shape/reshape.rs:12-43 | a successful reshape has one entry per shape-tensor entry, each copied (0 included) except the single -1, which becomes the input's element count divided by the positive product of the known entries |
| SteelixReshape.ScanFaultSticks | steelix/src/ir/ops/shape/reshape.rs:20-29 | once the scan has panicked, scanning more entries reports the same panic |
| SteelixReshape.AtMostOneWildcard | steelix/src/ir/ops/shape/reshape.rs:21-24 | a scan that does not panic saw at most one -1 |
| SteelixReshape.SecondUnknownPanics | steelix/src/ir/ops/shape/reshape.rs:21-24 | two -1 entries always panic, whatever precedes them |
| SteelixReshape.ElementCountWithoutWildcard | steelix/src/ir/ops/shape/reshape.rs:12-43 | with no 0 and no -1 entry the new shape's element count is the product of the entries |
| SteelixReshape.ElementCountKept | steelix/src/ir/ops/shape/reshape.rs:31-35 | with no 0 entry, filling the wildcard keeps the input's element count whenever the known entries divide it |
| SteelixReshape.ZeroIsCopied | steelix/src/ir/ops/shape/reshape.rs:26-33 | a 0 entry is copied rather than taken from the input: `[0, -1]` on a 2 x 3 input gives `[0, 6]` |
| SteelixReshape.Realize | steelix/src/ir/ops/shape/reshape.rs:55-65 | two providers, else the provider-count error; with an integer shape tensor it succeeds exactly when `reshape` does, with the same fault otherwise, and outputs a zero tensor of the first provider's dtype in the new shape at no cost |
| SteelixReshape.ClassifierHead | steelix/src/ir/ops/shape/reshape.rs:12-43 | a 1 x 1280 x 1 x 1 input reshaped by `[1280, 1]` becomes 1280 x 1 |
| SteelixReshape.ClassifierHeadRealized | steelix/src/ir/ops/shape/reshape.rs:55-65 | the same through `realize`, with the entries in an `i64` tensor |
| SteelixTranspose.Build | steelix/src/ir/ops/shape/transpose.rs:50-58 | `perm` is required (a missing one is an error) and each `i64` entry is cast to `usize` |
| SteelixTranspose.PermuteDims | steelix/src/ir/ops/shape/transpose.rs:12-28 | the counting loop, the assertion loop and the index loop compute `Permuted` |
| SteelixTranspose.CountsAddUp | steelix/src/ir/ops/shape/transpose.rs:13-16 | the four usage counts of a list of axes below 4 add up to its length |
| SteelixTranspose.PermutationFacts | steelix/src/ir/ops/shape/transpose.rs:13-19 | the counting loop not panicking and every count being 1 hold together exactly when the list is a permutation of 0..3 |
| SteelixTranspose.OkExactlyOnPermutations | steelix/src/ir/ops/shape/transpose.rs:12-28 | `transpose` succeeds exactly on a permutation of 0..3 and an input of rank at least 4, otherwise it panics; output dimension `i` is input dimension `perm[i]` |
| SteelixTranspose.Inverse | steelix/src/ir/ops/shape/transpose.rs:12-28 | every permutation has an inverse permutation, each undoing the other |
| SteelixTranspose.InverseRoundTrip | steelix/src/ir/ops/shape/transpose.rs:12-28 | transposing a four-dimensional shape by `perm` and then by its inverse gives it back |
| SteelixTranspose.ChannelsLast | steelix/src/ir/ops/shape/transpose.rs:12-28 | `[0, 2, 3, 1]` turns `[1, 3, 224, 224]` into `[1, 224, 224, 3]` |
| SteelixTranspose.Realize | steelix/src/ir/ops/shape/transpose.rs:40-47 | one provider, else the provider-count error; success exactly when `transpose` succeeds, with its fault otherwise; a zero tensor of the input's dtype in the permuted shape at no cost |
| CratesTranspose.Realize | crates/ir/src/ops/shape/transpose.rs:43-52 | one provider, else the provider-count error; success exactly when `transpose` succeeds, with its fault otherwise; an F32 zero tensor in the permuted shape at no cost |
| CratesTranspose.TreesDifferOnlyInDType | crates/ir/src/ops/shape/transpose.rs:46-51 | both trees succeed together with the same cost and output shape, and give the same result exactly on an F32 input |
| SteelixSqueeze.DropOnes | steelix/src/ir/ops/shape/squeeze.rs:23 | without axes the result holds no dimension of size 1 and is no longer than the input |
| SteelixSqueeze.Realize | steelix/src/ir/ops/shape/squeeze.rs:39-46 | with no provider-count check, only an empty provider list fails (an index panic); otherwise a zero tensor of the input's dtype in the squeezed shape, at no cost |
| SteelixSqueeze.Build | steelix/src/ir/ops/shape/squeeze.rs:49-54 | the `axes` attribute is required, each `i64` entry is cast to `usize`, and the built op always has axes |
| SteelixSqueeze.UnlistedAppend | steelix/src/ir/ops/shape/squeeze.rs:17-21 | the listed-axes filter decides position by position, so it distributes over concatenation |
| SteelixSqueeze.UnlistedNoneListed | steelix/src/ir/ops/shape/squeeze.rs:17-21 | when no position is listed every dimension is kept |
| SteelixSqueeze.UnlistedAllListed | steelix/src/ir/ops/shape/squeeze.rs:17-21 | when every position is listed nothing is kept |
| SteelixSqueeze.UnlistedSameListing | steelix/src/ir/ops/shape/squeeze.rs:19 | only which positions inside the shape are listed matters: order, repeats and out-of-range axes do not |
| SteelixSqueeze.UnlistedKeepsProduct | steelix/src/ir/ops/shape/squeeze.rs:17-21 | dropping listed dimensions that are all 1 keeps the element count |
| SteelixSqueeze.ListingTheOnesDropsTheOnes | steelix/src/ir/ops/shape/squeeze.rs:15-24 | listing exactly the positions of the 1s gives the same shape as squeezing without axes |
| SteelixSqueeze.ListedAxisDroppedWhateverItsSize | steelix/src/ir/ops/shape/squeeze.rs:17-21 | a listed axis is dropped even when it is not 1: axis 0 of 3 x 4 leaves `[4]`, losing elements |
| SteelixSqueeze.DropOnesKeepsProduct | steelix/src/ir/ops/shape/squeeze.rs:23 | squeezing without axes keeps the element count |
| SteelixSqueeze.DropOnesIdempotent | steelix/src/ir/ops/shape/squeeze.rs:23 | squeezing twice without axes is squeezing once |
| SteelixSqueeze.DropOnesOfNoOnes | steelix/src/ir/ops/shape/squeeze.rs:23 | a shape without 1s is left unchanged |
| SteelixSqueeze.DropOnesKeepsOthers | steelix/src/ir/ops/shape/squeeze.rs:23 | every dimension other than 1 survives |
| SteelixSqueeze.SqueezeWithoutAxes | src/ir/tests/ops/shape/squeeze.rs:4-15 | `[1, 1, 2, 5, 5]` without axes squeezes to `[2, 5, 5]` |
| SteelixSqueeze.SqueezeWithAxes | src/ir/tests/ops/shape/squeeze.rs:18-30 | `[1, 1, 5, 5]` with axes `[0, 1]` squeezes to `[5, 5]` |
| CratesUnsqueeze.InsertSorted | crates/ir/src/ops/shape/unsqueeze.rs:20 | inserting into an ascending list keeps it ascending and adds exactly the one entry |
| CratesUnsqueeze.SortAxes | crates/ir/src/ops/shape/unsqueeze.rs:20 | the sorted axes are ascending and a permutation of the given ones |
| CratesUnsqueeze.InsertedInTurn | crates/ir/src/ops/shape/unsqueeze.rs:23-25 | inserting a 1 at each axis in turn lengthens the shape by the number of axes |
| CratesUnsqueeze.Unsqueezed | crates/ir/src/ops/shape/unsqueeze.rs:15-28 | every failure is a panic, and a success has one more dimension per axis |
| CratesUnsqueeze.InsertOnes | crates/ir/src/ops/shape/unsqueeze.rs:15-28 | sorting and then inserting a 1 at each axis in turn computes `Unsqueezed` |
| CratesUnsqueeze.Realize | crates/ir/src/ops/shape/unsqueeze.rs:40-59 | one or two providers, else the provider-count error; one provider without the attribute bails; the attribute wins over the second provider, whose bytes are read as `i64`; success exactly when the unsqueeze does, with a zero tensor of the input's dtype at no cost |
| CratesUnsqueeze.Build | crates/ir/src/ops/shape/unsqueeze.rs:62-65 | the `axes` attribute is optional and kept as given |
| CratesUnsqueeze.SortAxesOfAscending | crates/ir/src/ops/shape/unsqueeze.rs:20 | sorting ascending axes changes nothing |
| CratesUnsqueeze.AscendingUnique | crates/ir/src/ops/shape/unsqueeze.rs:20 | two ascending lists with the same entries are equal, so the sorted form depends only on the entries |
| CratesUnsqueeze.AxisOrderIrrelevant | crates/ir/src/ops/shape/unsqueeze.rs:20-25 | the order in which the axes are listed does not change the result |
| CratesUnsqueeze.NegativeAxisPanics | crates/ir/src/ops/shape/unsqueeze.rs:24 | a negative axis anywhere makes the cast to `usize` panic |
| CratesUnsqueeze.DistinctAxesFit | crates/ir/src/ops/shape/unsqueeze.rs:23-25 | distinct ascending axes that are valid output positions never insert past the end |
| CratesUnsqueeze.InsertedThenSqueezed | crates/ir/src/ops/shape/unsqueeze.rs:23-25 | inserting at distinct ascending positions puts a 1 at each, and squeezing those positions gives the shape back |
| CratesUnsqueeze.SqueezeUndoesUnsqueeze | crates/ir/src/ops/shape/unsqueeze.rs:15-28 | for distinct axes that are valid output positions, unsqueezing succeeds with a 1 at each listed position, and `Squeeze` with the same axes gives the input shape back |
| CratesUnsqueeze.UnsqueezeTest | crates/ir/tests/ops/shape/unsqueeze.rs:21-34 | `[3, 4, 5]` with axes `[0, 4]` becomes `[1, 3, 4, 5, 1]` |
| CratesUnsqueeze.UnsqueezeTestUnordered | crates/ir/src/ops/shape/unsqueeze.rs:20 | axes `[4, 0]` give the same `[1, 3, 4, 5, 1]` |
| CratesUnsqueeze.UnsqueezeRealized | crates/ir/tests/ops/shape/unsqueeze.rs:5-34 | both tests through `realize`: the axes as an attribute or as an `i64` tensor give a `[1, 3, 4, 5, 1]` zero tensor at no cost |
| CratesGather.Spliced | crates/ir/src/ops/shape/gather.rs:16-32 | the dimension at `axis` is replaced by the whole indices shape, so the rank changes by the indices rank minus one; an axis matching no position leaves the input shape |
| CratesGather.ComputeOutputShape | crates/ir/src/ops/shape/gather.rs:16-32 | the enumerate loop with its inner push loop computes `Spliced` |
| CratesGather.SplicedCount | crates/ir/src/ops/shape/gather.rs:16-32 | the output holds one input slab per index: its element count is the input's with the axis dimension replaced by the number of indices |
| CratesGather.OneDimensionalIndices | crates/ir/src/ops/shape/gather.rs:16-32 | one-dimensional indices `[n]` keep the rank and set the axis dimension to `n` |
| CratesGather.Realize | crates/ir/src/ops/shape/gather.rs:44-53 | exactly two providers, else the provider-count error; a zero tensor of the data's dtype in the spliced shape at no cost |
| CratesGather.Build | crates/ir/src/ops/shape/gather.rs:56-59 | `axis` defaults to 0 and otherwise is the attribute's value |
| SteelixGather.Slab | steelix/src/ir/ops/shape/gather.rs:41-44 | one slab along an axis holds one block's worth of bytes from each of the `outer` blocks |
| SteelixGather.SlabEntry | steelix/src/ir/ops/shape/gather.rs:41-44 | byte `k` of block `o` of the slab is byte `k` of slab `index` of block `o` of the data |
| SteelixGather.IndexAxis | steelix/src/ir/ops/shape/gather.rs:41-44 | `index_axis` fails exactly when the axis is past the rank or the index past the axis, always by panic; otherwise a valid tensor of the standard dtype with that axis removed |
| SteelixGather.ScalarIndexIntended | steelix/src/ir/ops/shape/gather.rs:36-40 | a negative scalar index counts back from the end of the gather axis, so any index in `-d..d` lands inside the axis |
| SteelixGather.Row | steelix/src/ir/ops/shape/gather.rs:61 | row `i` is the `i`-th run of `rowBytes` bytes |
| SteelixGather.Rows | steelix/src/ir/ops/shape/gather.rs:51-62 | the selected rows, one after another, make `rowBytes` bytes per index |
| SteelixGather.GatherRows | steelix/src/ir/ops/shape/gather.rs:51-62 | the indices loop along axis 0 (moving a negative index up by the axis size) computes `GatheredRows` |
| SteelixGather.RowsEntry | steelix/src/ir/ops/shape/gather.rs:56-61 | output row `k` is the data row the `k`-th index selects |
| SteelixGather.Picked | steelix/src/ir/ops/shape/gather.rs:51-62 | the gather by one-dimensional indices along an axis makes `outer * n * b` bytes: `n` slabs of `b` bytes in each of the `outer` blocks before the axis |
| SteelixGather.PickedEntry | steelix/src/ir/ops/shape/gather.rs:52-61 | byte `m` of output slab `j` of block `o` is byte `m` of the data's slab at the `j`-th index, moved up by the axis size when negative, in block `o` |
| SteelixGather.PickedOnAxisZero | steelix/src/ir/ops/shape/gather.rs:51-62 | along axis 0 (a single block) the gather along an axis is the row gather |
| SteelixGather.EvalAlong | steelix/src/ir/ops/shape/gather.rs:47-63 | one-dimensional indices along an axis inside the data's rank succeed exactly when every index, moved up by the axis size when negative, lies inside the axis; the only failure is the `index < dim` assertion; a success is a valid tensor of the standard dtype whose axis dimension becomes the number of indices |
| SteelixGather.AlongData | steelix/src/ir/ops/shape/gather.rs:51-62 | the bytes of a successful gather along an axis are the `Picked` slabs of the data by the decoded indices, all of which lie inside the axis |
| SteelixGather.EvalAlongInner | steelix/src/ir/ops/shape/gather.rs:47-63 | with non-empty one-dimensional indices along an axis other than 0 inside the rank, `eval` is the gather along that axis |
| SteelixGather.EvalRows | steelix/src/ir/ops/shape/gather.rs:47-63 | along axis 0 the only failure is the `index < dim` assertion; a success is a valid tensor of shape `indices.shape ++ data.shape[1..]` |
| SteelixGather.EvalScalar | steelix/src/ir/ops/shape/gather.rs:36-45 | a scalar index gives a valid tensor of the data's standard dtype |
| SteelixGather.Eval | steelix/src/ir/ops/shape/gather.rs:30-64 | a success is a valid tensor of the data's standard dtype, and with non-scalar indices its shape is the output shape rule's; with an empty non-scalar index tensor the loop never runs and the result is the zeroed output of `Tensor::uninitialized`; with a non-empty one and an axis outside the data's rank the first `index_axis_mut` panics |
| SteelixGather.Realize | steelix/src/ir/ops/shape/gather.rs:76-85 | with no provider-count check, fewer than two providers panic; otherwise success exactly when `eval` succeeds, with its fault or its tensor as the only output at no cost |
| SteelixGather.Build | steelix/src/ir/ops/shape/gather.rs:88-91 | `axis` defaults to 0 and otherwise is the attribute's value |
| SteelixGather.RowGathered | steelix/src/ir/ops/shape/gather.rs:51-62 | output row `k`, in row-major order of the indices, is the data row at the `k`-th index, moved up by the axis size when negative |
| SteelixGather.ScalarSlabEntry | steelix/src/ir/ops/shape/gather.rs:41-44 | a scalar index in range selects that slab: byte `k` of block `o` of the output is byte `k` of slab `index` of block `o` of the data |
| SteelixGather.ScalarIndexOnAxisZero | steelix/src/ir/ops/shape/gather.rs:36-40 | on axis 0 the code's scalar index and the intended one agree |
| SteelixGather.NegativeScalarUsesAxisZero | steelix/src/ir/ops/shape/gather.rs:38-40 | on a 2 x 3 input along axis 1 the scalar index -1 selects column 1 rather than the last column |
| SteelixGather.NegativeScalarPanics | steelix/src/ir/ops/shape/gather.rs:38-42 | on a 1 x 3 input along axis 1 the valid index -2 becomes -1 and panics, where column 1 is meant |
| SteelixGather.GatherRowsTest | steelix/tests/ir/ops/shape/gather.rs:5-19 | a 3 x 2 input gathered along axis 0 by `[[0, 1], [1, 2]]` gives the 2 x 2 x 2 tensor of rows 0, 1, 1, 2 at no cost |
| SteelixShapeOp.Sliced | steelix/src/ir/ops/shape/shape.rs:24-33 | with `end` -1 meaning the rank, the slice succeeds exactly when `start <= end <= rank` (after the `usize` casts), panics with the matching message otherwise, and entry `k` is dimension `start + k` |
| SteelixShapeOp.AsI64s | steelix/src/ir/ops/shape/shape.rs:32 | every dimension becomes an `i64`, unchanged when it fits |
| SteelixShapeOp.ShapeTensor | steelix/src/ir/ops/shape/shape.rs:35 | `from_vec` of `n` values gives a valid one-dimensional `i64` tensor of `n` elements |
| SteelixShapeOp.Realize | steelix/src/ir/ops/shape/shape.rs:21-37 | one provider, else the provider-count error; success exactly when the slice does, with its panic otherwise; one `i64` tensor of as many entries as the slice, at no cost |
| SteelixShapeOp.Build | steelix/src/ir/ops/shape/shape.rs:40-44 | `start` defaults to 0 and `end` to -1 |
| SteelixShapeOp.ReadsBackTheDimensions | steelix/src/ir/ops/shape/shape.rs:21-37 | the output reads back as the sliced dimensions: entry `k` is dimension `start + k` of the input |
| SteelixShapeOp.DefaultsGiveWholeShape | steelix/src/ir/ops/shape/shape.rs:24-29 | with the default attributes the slice is the whole shape |
| SteelixShapeOp.NegativeStartPanics | steelix/src/ir/ops/shape/shape.rs:29 | a negative `start` becomes a huge `usize` and the slice panics |
| SteelixShapeOp.ShapeTest | steelix/tests/ir/ops/shape/shape.rs:4-19 | a 2 x 3 x 4 input with the default attributes gives the `i64` tensor `[2, 3, 4]` of shape `[3]` |
| Stacking.CheckAxisOk | crates/ir/src/tensor.rs:203 | the `all` check on one axis passes exactly when every tensor has that axis with the first tensor's size; it fails by `ensure!` or, on a tensor of too small a rank, by panic |
| Stacking.CheckDimsOk | crates/ir/src/tensor.rs:201-205 | the checks over the first tensor's axes pass exactly when every tensor agrees with it on each of them but `axis`; a mismatch is an error, not a panic, when no tensor has a smaller rank |
| Stacking.ConformsWhenChecked | crates/ir/src/tensor.rs:201-206 | the checks passing with the stacked axis present is the same as every tensor conforming to the first off the axis |
| Stacking.StackShape | crates/ir/src/tensor.rs:194-206 | an empty list panics; otherwise the shape exists exactly when the axis is inside the first tensor's rank, every tensor conforms off the axis and has the axis; it is the first shape with the axis dimension replaced by the sum; failures are errors or panics |
| Stacking.MismatchIsAnError | crates/ir/src/tensor.rs:201-205 | when all tensors have the first one's rank and the axis is in range, any failure is the `ensure!` error |
| Stacking.AsWrittenBytes | crates/ir/src/tensor.rs:209-221 | the copy as written writes `len` bytes per input |
| Stacking.SumLensPrefix | crates/ir/src/tensor.rs:209-221 | the bytes written by the first inputs never exceed those written by all |
| Stacking.LensAddUp | crates/ir/src/tensor.rs:206-209 | when the dimensions before the axis are 1, the inputs' element counts add up to the axis sum times the trailing dimensions |
| Stacking.StackedLen | crates/ir/src/tensor.rs:206-209 | when no input has a higher rank than the first and the copy runs, the inputs' element counts add up to the stacked shape's element count |
| Stacking.Overlay | crates/ir/src/tensor.rs:208-221 | the buffer holds the copied bytes at the front and zeros after them |
| Stacking.StackedBytesAsWritten | crates/ir/src/tensor.rs:207-223 | for a copy that stays in the buffer, the result buffer has exactly the stacked shape's byte size; it starts with the as-written bytes when the dimensions before the axis are all 1, and is all zeros otherwise |
| Stacking.SameRankCopyFits | crates/ir/src/tensor.rs:201-218 | when no input has a higher rank than the first, the copy as written always stays inside the result buffer |
| Stacking.CheckShapes | crates/ir/src/tensor.rs:201-205 | the `ensure!` loop over the first tensor's axes computes `CheckDims` |
| Stacking.SumAxis | crates/ir/src/tensor.rs:206 | the sum succeeds exactly when every tensor has the axis, and is the axis sum; otherwise an index panic |
| Stacking.CopyAsWritten | crates/ir/src/tensor.rs:209-221 | the copy loop stays inside the buffer exactly when the inputs' `len`s add up to at most its size, and then leaves the zeroed buffer holding the as-written bytes at the front and zeros after |
| Stacking.StackTensors | crates/ir/src/tensor.rs:194-224 | on any valid inputs, `stack_tensors` fails with the shape rule's fault when the stacked shape does not exist, is `NotModelled` when the copy would run past the buffer, and otherwise succeeds with the first tensor's dtype, the stacked shape and the as-written buffer |
| Stacking.StackTensorsDropsBytes | crates/ir/src/tensor.rs:214-218 | two 4-byte F32 scalars stacked give eight bytes of which only one byte of each input is copied |
| Stacking.HigherRankLaterInput | crates/ir/src/tensor.rs:194-224 | U8 tensors of shapes [2, 1] and [2, 1, 3] stacked on axis 1 pass the shape rule with shape [2, 2], the copy does not run, and the result is four zero bytes |
| Stacking.OverrunningCopy | crates/ir/src/tensor.rs:201-218 | U8 tensors of shapes [1, 2] and [3, 2, 5] stacked on axis 0 pass the shape rule with shape [4, 2], but the copy of their 32 bytes does not fit the 8-byte buffer |
| Stacking.IntendedLength | crates/ir/src/tensor.rs:209-221 | the inputs' whole buffers add up to `len * size_of` bytes in total |
| Stacking.Stacked | crates/ir/src/tensor.rs:194-224 | on any valid inputs of one dtype, the corrected stack fails with the shape rule's fault when the stacked shape does not exist, is `NotModelled` when the copy would run past the buffer, and otherwise is a valid tensor of the first dtype and the stacked shape whose bytes, when the copy runs, start with the inputs' bytes one after another |
| Stacking.SameRankStacked | crates/ir/src/tensor.rs:194-224 | when no input has a higher rank than the first, the corrected stack fails only as the shape rule does, and when the copy runs its bytes are exactly the inputs' bytes one after another |
| Stacking.StackedLayout | crates/ir/src/tensor.rs:209-221 | in the corrected stack each input sits at the byte offset of the inputs before it |
| SteelixConcat.Concatenated | steelix/src/ir/ops/shape/concat.rs:12-14 | no providers panics; a success has the first provider's rank, the summed dimension at `axis as usize` and the first provider's dimensions elsewhere |
| SteelixConcat.Realize | steelix/src/ir/ops/shape/concat.rs:26-35 | one or two providers, else the provider-count error; success exactly when the stacked shape exists, with its fault otherwise; a zero tensor of the first dtype in that shape at no cost |
| SteelixConcat.Build | steelix/src/ir/ops/shape/concat.rs:38-41 | the `axis` attribute is required and kept as given |
| SteelixConcat.ConcatKeepsElements | steelix/src/ir/ops/shape/concat.rs:12-14 | concatenating two tensors of one rank gives as many elements as the two hold |
| SteelixConcat.ProductSplitsOnAxis | steelix/src/ir/ops/shape/concat.rs:12-14 | a shape whose axis dimension is the sum of two conforming shapes' has the sum of their element counts |
| SteelixConcat.NegativeAxisFails | steelix/src/ir/ops/shape/concat.rs:13 | a negative axis becomes a huge `usize` and the op always fails |
| SteelixConcat.MismatchIsReported | steelix/src/ir/ops/shape/concat.rs:13 | inputs of one rank that disagree off the axis give the stacking error |
| CratesConcat.Concatenated | crates/ir/src/ops/shape/concat.rs:15-22 | succeeds exactly when the stacked shape exists and is that shape; every failure is a panic |
| CratesConcat.Realize | crates/ir/src/ops/shape/concat.rs:34-43 | one or two providers, else the provider-count error; success exactly when the stacked shape exists, otherwise a panic; a zero tensor of the first dtype in that shape at no cost |
| CratesConcat.AgreesWithSteelix | crates/ir/src/ops/shape/concat.rs:19-20 | both trees succeed together with the same result; where steelix returns the stacking error this one panics |
| Ops.ShapeOpsCostNothing | steelix/src/ir/op_group.rs:6-19 | every op of the Shape group only computes a shape: a successful realize costs no flops and no parameters |
| Ops.DataOpsNeverFail | steelix/src/ir/op_group.rs:6-19 | the Constant, Data and Unimplemented ops never fail, whatever the providers, and count no flops |
| Graph.AppendKeeps | crates/ir/src/model.rs:79-89 | a node with no edges appended at the index equal to its id keeps every node at its id, every edge naming a node, and every edge recorded at both ends |
| Graph.LinkKeeps | crates/ir/src/model.rs:91-97 | adding an edge between two existing nodes, recorded once as a consumer of the producer and once as a provider of the consumer, keeps the arena well formed |
| Graph.EmitKeeps | crates/ir/src/model.rs:109-113 | emitting a finished frame (an input, or every provider seen) keeps the search invariant, and the node was not emitted before |
| Graph.AdvanceKeeps | crates/ir/src/model.rs:115-120 | moving past a provider already emitted keeps the search invariant |
| Graph.PushKeeps | crates/ir/src/model.rs:121-126 | pushing a frame for a provider not yet emitted keeps the search invariant, and the provider ranks below its consumer, so the search cannot cycle on an acyclic graph |
| Graph.StartKeeps | crates/ir/src/model.rs:107 | a stack holding only the target's frame starts the search with the invariant |
| Graph.EmitStep | crates/ir/src/model.rs:109-113 | the emit branch appends the node to the order and the visited set, keeps the invariant and makes progress |
| Graph.AdvanceStep | crates/ir/src/model.rs:115-120 | the advance branch puts the frame back looking at its next provider, keeps the invariant and makes progress |
| Graph.PushStep | crates/ir/src/model.rs:121-126 | the push branch puts the frame back and pushes the provider's frame, keeps the invariant and makes progress |
| Graph.Explore | crates/ir/src/model.rs:104-128 | the depth-first search from one output emits that output and keeps the order emitted so far as a prefix, every node still coming after its providers and reached for a reason |
| Graph.JustifiedInClosed | crates/ir/src/model.rs:100-132 | every node the search emits lies in every set that contains the outputs and is closed under the providers of non-input nodes |
| Graph.TraversalOrder | crates/ir/src/model.rs:100-132 | on a well-formed acyclic graph the traversal order holds each node at most once, every output, each non-input node after all its providers, and only nodes the outputs need |
| Graph.ProvidersFirstCloses | crates/ir/src/model.rs:100-132 | the nodes of an order in which providers come first are closed under the providers of non-input nodes |
| Execution.LastWriteReadsLast | steelix/src/ir/model.rs:165 | after a run, the recorded value under a node id is the one its last realization wrote |
| Execution.ProviderInput | crates/ir/src/model.rs:174 | a provider's first cached output is read; a provider with no cache entry panics in crates and reads the default tensor in steelix; an empty output list panics |
| Execution.ProviderInputs | steelix/src/ir/model.rs:150-161 | the provider tensors are read in the order of the provider list and succeed exactly when every provider can be read |
| Execution.FirstUnreadableDecides | crates/ir/src/model.rs:171-175 | the first provider that cannot be read decides the error of the whole gathering |
| Execution.Step | crates/ir/src/model.rs:166-176 | a node id outside the arena panics; a successful turn has read all its providers; in steelix a successful turn has a first output, whose shape is recorded |
| Execution.Realizations | crates/ir/src/model.rs:165-183 | a successful run realizes every id of the order, each an arena index, and in steelix each with at least one output |
| Execution.RealizationsPrefix | crates/ir/src/model.rs:165-183 | a successful run is a successful run of each of its prefixes, and node k got what realizing it from the cache of the nodes before it gives |
| Execution.FirstFailureAborts | crates/ir/src/model.rs:176 | the `?` on realize ends the run: once a prefix fails, the whole run fails with that error |
| Execution.TotalsAdd | crates/ir/src/model.rs:177-178 | the flop and parameter totals over two runs one after the other are the sums of their totals |
| Execution.OpCountsCountNames | crates/ir/src/model.rs:168-170 | the op counts map holds exactly the names of nodes outside the Constant group, each with the number of such nodes bearing it |
| Execution.Popped | crates/ir/src/model.rs:153-154 | the order without its final node, which is never realized; an empty order stays empty |
| Execution.BindInputs | crates/ir/src/model.rs:134-147 | binding succeeds exactly when every input id indexes a node whose name has an initial tensor; otherwise an out-of-range id panics and a missing name gives the validation error |
| Execution.SummaryOfFailure | crates/ir/src/model.rs:176 | a failed realization is the error the crates run returns |
| Execution.SummaryOfSuccess | crates/ir/src/model.rs:177-189 | a successful crates run reports eight times the summed flops, the summed parameters and the op counts |
| Execution.CacheHoldsOutputs | steelix/src/ir/model.rs:165-169 | every cache entry filled by a steelix run holds an output tensor |
| Execution.SameInputs | steelix/src/ir/model.rs:150-161 | when every provider has a filled cache entry, the crates and steelix trees read the same provider tensors |
| Execution.TreesAgree | steelix/src/ir/model.rs:143-170 | on an order in which every provider is realized before its consumer, a successful steelix run and the crates run realize the same results |
| Execution.OrderedSummariesAgree | crates/ir/src/model.rs:177-189 | on such an order the crates summary has eight times the steelix flops, the same parameters and the same op counts |
| Execution.PoppedReadsEarlier | crates/ir/src/model.rs:153-154 | an order in which providers come first, with provider-less inputs, reads only earlier nodes once its final node is popped |
| Execution.BuiltOrderRunsAgree | crates/ir/src/model.rs:149-190 | on a traversal order with providers first and bound inputs, the crates run and a successful steelix run report the same model up to the factor 8 on flops |
| Execution.ShapesRecorded | steelix/src/ir/model.rs:165 | with distinct ids, `output_shapes` holds exactly the realized nodes, each mapped to the shape of its first output |
| Execution.UnboundInputStopsRun | crates/ir/src/model.rs:159 | an input name without an initial tensor stops the crates run with the validation error before any node is realized |
| Execution.LastEntryIgnored | steelix/src/ir/model.rs:132-133 | the final entry of the order is never realized: the run does not depend on which node it names |
| Execution.CacheExtends | crates/ir/src/model.rs:180-182 | realizing one more node adds its outputs to the cache under its id, and steelix its first output's shape |
| Execution.TotalsExtend | crates/ir/src/model.rs:177-178 | realizing one more node adds its flops and parameters to the totals |
| Execution.OpCountsExtend | crates/ir/src/model.rs:168-170 | realizing one more node increments its name's count when it is not a Constant op |
| Execution.RealizeNode | steelix/src/ir/model.rs:144-162 | one turn of the loop gives the result of a step on the current cache |
| Execution.RunAdvance | crates/ir/src/model.rs:165-183 | a node realized successfully keeps the loop invariant relating the accumulators to the run so far |
| Execution.RunStops | crates/ir/src/model.rs:176 | a failing node makes the run fail with its error |
| Execution.CratesLoop | crates/ir/src/model.rs:161-189 | the crates loop returns the summary of realizing the order in turn, or the first failure |
| Execution.SteelixLoop | steelix/src/ir/model.rs:138-176 | the steelix loop returns the summary of realizing the order in turn, output shapes included, or the first failure |
| GraphModel.Model.constructor | steelix/src/ir/model.rs:67-70 | a new model is the empty graph with no inputs, no outputs and no traversal order, and is well formed |
| GraphModel.Model.UpdateTraversalOrder | steelix/src/ir/model.rs:72-74 | the given order is stored and nothing else changes |
| GraphModel.Model.AddNode | crates/ir/src/model.rs:79-89 | the new node gets the next index as its id, no providers and no consumers; everything else is kept and the arena stays well formed |
| GraphModel.Model.AddEdge | crates/ir/src/model.rs:91-97 | adding an edge succeeds exactly when both ids index nodes, then records it at both ends and keeps the arena well formed; an out-of-range producer panics with the graph unchanged |
| GraphModel.Model.BuildTraversalOrder | steelix/src/ir/model.rs:96-129 | the stored order holds each node once, every output, every node after its providers, and only nodes the outputs need; the graph itself is unchanged |
| GraphModel.Model.InsertUserInputs | crates/ir/src/model.rs:134-147 | checking the inputs gives the binding result: every declared input must index a node whose name has an initial tensor |
| GraphModel.Model.RunCrates | crates/ir/src/model.rs:149-190 | the crates run unwraps the order, drops its final node, checks the inputs and returns the summary of realizing the rest in turn, or the first failure |
| GraphModel.Model.RunSteelix | steelix/src/ir/model.rs:131-177 | the steelix run unwraps the order, drops its final node and returns the summary of realizing the rest in turn, or the first failure |
| CratesConstant.Build | crates/ir/src/ops/misc/constant.rs:29-31 | building a constant keeps the given tensor as it is and never fails |
| SteelixConstant.Build | steelix/src/ir/ops/data/constant.rs:27-29 | building a constant keeps the given tensor as it is and never fails |
| SteelixUnimplemented.Build | steelix/src/ir/ops/data/unimplemented.rs:26-35 | building never fails and records the node's operator type, which becomes the op's name |
| CratesPad.Attribute | crates/ir/src/ops/shape/pad.rs:19-26 | the ONNX pads attribute that a list of pairs stands for holds two widths per pair; with ConvertPads it makes a round trip |

## Left out

- The ONNX protobuf reader, file I/O, the command-line interface, plotting, summary tables, the webcam and inference demos, and the operator registry are not part of this model. The graph is taken as already built and each op as already constructed from its attributes, except where a builder's defaults matter (the `Build` functions).
- Attribute type errors of `get_attribute` are not modelled. Builders receive attributes as `Option` values of the right type.
- Floating-point values are not modelled: the float kernels (convolution, softmax, clip, batch normalisation), the attributes `epsilon`, `alpha` and `beta`, and f32 rounding of the output-size formulas above 2^24. Elements are bytes, and the integer dtypes are decoded where a kernel reads them.
- Reshape with a floating-point shape tensor gives `NotModelled`. The code computes the wildcard dimension in that float type and casts the results to `usize`, and floating-point arithmetic is not modelled.
- SteelixGather.Eval gives `NotModelled` for non-empty indices of rank 2 or more along an axis other than 0. After the first index coordinate the code indexes axis 0 of the remaining output view rather than the axes the indices occupy, and the `assign` that follows broadcasts or panics depending on the dimensions; that behaviour is not modelled.
- SteelixGather.EvalAlong states the indices loop along a non-zero axis as a function of the output bytes (SteelixGather.Picked), not as the loop; the loop itself is modelled for axis 0 (SteelixGather.GatherRows), and SteelixGather.PickedOnAxisZero shows the two agree there.
- Ops.Realize gives `NotModelled` when the axes tensor of Unsqueeze or the indices tensor of Gather holds fewer than 8 bytes per element, as a valid I32 or narrower tensor does. `as_slice` and `to_array_view` (crates/ir/src/tensor.rs:129-166) take the element type `i64` from the caller without checking the tensor's dtype, so the code reads past the end of the buffer; that out-of-bounds read is not modelled.
- Ops.Realize also gives `NotModelled` to a Reshape shape tensor or Gather data tensor whose byte buffer does not hold its elements, since reading them runs past the buffer, and to a shape dimension outside the `usize` range, which a Rust `Shape` cannot hold.
- Depthwise and Im2Col: their `impl Op` blocks in crates/ir/src/ops/nn define no `realize`, so they have no `Op` variant. Their output sizes and builders are modelled.
- The stubs that only return a default result are not modelled: crates `Squeeze`, `BatchNormalization`, `Clip`, misc `Concat` and `DepthwiseIm2col`. Nor are the duplicate files: crates `Reshape`, `Shape`, `GlobalAveragePool`, `Initial`, `Unimplemented`, and the `src/` copies of `Sum` and `Initial`. Each duplicate is covered by the steelix version of the same logic.
- The debugging `println!` calls (crates matmul.rs, concat.rs, reshape.rs, shape.rs, and steelix `build_unimplemented`) are left out, as are panic messages, which are paraphrased.
- Machine-width overflow is not modelled. `usize` and `i64` are unbounded integers, except for the explicit wrap-around of a negative `i64` cast to `usize`, the saturation at 0 of the float cast, and the debug-build panic of `usize` subtraction below zero.
- Allocation failure, `Arc` sharing and raw pointers (`as_ptr`, `from_raw_parts`) are not modelled. Tensors are immutable values.
- Stacking.StackTensors and Stacking.Stacked give `NotModelled` when the copy would write past the end of the result buffer, where the code's `copy_nonoverlapping` writes past the allocation. This happens only when a later input has a higher rank than the first (Stacking.SameRankCopyFits, Stacking.OverrunningCopy).
- The `update` hook of `insert_user_inputs` is the trait's default, which does nothing, so GraphModel.Model.InsertUserInputs only checks the bindings.
- Op dispatch through `Box<dyn Op>` and `OpNode::realize` is a plain call of Ops.Realize. The run loops in execution.dfy take the realize function as a parameter, so their lemmas hold for any op semantics.
- Graph.TraversalOrder and GraphModel.Model.BuildTraversalOrder require node ids in range and an acyclic graph. On other graphs the code panics on an index, or searches forever around a cycle; that behaviour is not modelled.
- GraphModel.Model.AddEdge does not state the node list after the panic for an out-of-range consumer. At that point the producer has already recorded the consumer.
- The `transA` and `transB` attributes of the crates `Gemm` are read by its builder but never used by `realize`, so they are not modelled.
- The `src/` tree is not part of this model apart from `src/ir/ops/activation/clip.rs`. The steelix `tensor.rs` is not part of this model either; the crates `Tensor` stands for both trees.

## Findings

| source | as written | input that shows it | evidently intended | confidence | as-written member | corrected member |
|---|---|---|---|---|---|---|
| crates/ir/src/tensor.rs:214-218 | `stack_tensors` copies `v.len` bytes of each input and advances the offset by `v.len`, although the buffer holds `len * size_of` bytes per tensor | two F32 tensors of shape [1, 1], with bytes 1..4 and 5..8, stacked on axis 1: the result holds bytes 1, 5 and then six zeros | each input's whole byte image is copied one after the other (bytes 1..8) | not executed | Stacking.StackTensorsDropsBytes | Stacking.StackedLayout |
| crates/ir/src/ops/shape/im2col.rs:33 | the patch anchor is `batch_offset + h * ih + w`, a row stride of the input height | a 1x1x2x3 input holding 0..5 with a 1x1 kernel: staging cell 3 (row 1, column 0) holds 2 | a row stride of the input width, `h * iw`, so cell 3 holds 3 | not executed | Im2ColKernel.RowAnchorUsesHeight | Im2ColKernel.IntendedStagingEntry |
| crates/ir/src/ops/nn/depthwise.rs:15-34 | the numerator is divided with truncation toward zero before adding 1 | input 2, padding 0, kernel 3, dilation 1, stride 2: the kernel never fits, yet the output size is 1 | the floor that the doc comment draws around the quotient, which gives 0 | not executed | Windows.TruncationCountsMissingWindow | Windows.FloorDim |
| steelix/src/ir/ops/shape/gather.rs:38-40 | a negative scalar index is moved up by `shape()[0]` whatever the gather axis | a 2x3 input gathered along axis 1 with index -1 selects column 1; a 1x3 input with index -2 along axis 1 panics | moved up by the size of the gather axis (column 2; column 1) | not executed | SteelixGather.NegativeScalarUsesAxisZero | SteelixGather.ScalarIndexIntended |
