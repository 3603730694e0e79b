# Batchified corpus datasets

A model of `bachify.py`, the three dataset adapters that turn a flat sequence
of token ids into language-model training samples:

- **Stream batchifier** (`CorpusBatchifyDataset`): keeps the first
  `(N // B) * B` of the `N` tokens, cuts them into `B` contiguous streams of
  `n = N // B` tokens and transposes, so that row `i` holds token `i` of every
  stream. Indexing returns a row; the length is the number of rows.
- **Window sampler** (`CorpusBatchifyWindowDataset`): sample `idx` is the
  `windowSize - 1` rows starting at `idx` together with the row after them; the
  length is `rows - windowSize + 1`.
- **BPTT chunker** (`CorpusBatchifyBPTTDataset`): chunk `idx` is the
  `min(bptt, rows - 1 - idx * bptt)` rows starting at `idx * bptt`, its target
  the same span one row further down, flattened row-major; the length is
  `(rows - 1) // bptt + 1`.

Tensors are plain values: a 1-D tensor is `seq<int>`, a 2-D tensor a sequence
of rows (`Matrix.Grid`). The dataset objects are assigned once in their
constructors and never change, so each is a datatype with its
`__getitem__`/`__len__` as member functions.

Python's own semantics are written out in `PyOps`: negative indices count from
the end, slices clamp their bounds and never raise, an index out of range
raises IndexError (modelled as `None`), and `//` rounds toward negative
infinity. So `GetItem` and `Len` take any integer and carry no precondition
beyond what the source itself needs: `B >= 1` for the constructor
(`N // 0` raises) and `bptt != 0` for the BPTT length. The lemmas state the
behaviour over the valid index range, assuming `B >= 1`, `windowSize >= 1` and
`bptt >= 1`.

Files: `pyops.dfy` (Python indexing, slicing, floor division), `matrix.dfy`
(`view(rows, -1)`, `.t()`, `view(-1)` and their laws), `batchify.dfy`,
`window.dfy`, `bptt.dfy` (one module per class).

Two edge cases behave differently from what a reader might expect, and the
model follows the code:

- A reader might expect construction to fail when `B > N`. In the code
  nothing is kept, and `view(B, -1)` of an empty tensor infers the `-1` as 0
  because `B` is non-zero. The dataset is then empty: `Len() == N // B == 0`
  (`Batchify.NewBatchifyDataset`).
- A chunk count of `ceil((rows - 1) / bptt)` would be expected. The code
  computes `(rows - 1) // bptt + 1`, which is one more when `rows - 1` is a
  multiple of `bptt`, and that extra chunk is empty. `BpttDataset.Len` is the
  code's formula; see "## Findings".

## Model

| member | source | states |
|---|---|---|
| `Batchify.KeptCount` | models/nlp/bytask/selfsupervised/predictnext/bachify.py:12-13 | the kept count `(N // B) * B` is a multiple of `B`, at most `N`, and short of `N` by less than `B` |
| `Batchify.NewBatchifyDataset` | models/nlp/bytask/selfsupervised/predictnext/bachify.py:6-14 | the constructed data is rectangular with `B` entries per row, has exactly `N // B` rows, and has at least one row exactly when `B <= N` |
| `Batchify.StreamSplitting` | models/nlp/bytask/selfsupervised/predictnext/bachify.py:12-14 | cell `(i, j)` of the data is input token `j * (N // B) + i`, for every row `i` and stream `j` |
| `Batchify.StreamsAreContiguous` | models/nlp/bytask/selfsupervised/predictnext/bachify.py:13-14 | column `j` of the data is exactly the input block `[j * n, (j + 1) * n)`, in order |
| `Batchify.KeptPrefixRoundTrip` | models/nlp/bytask/selfsupervised/predictnext/bachify.py:12-14 | reading the data back stream by stream (transpose, then `view(-1)`) gives the kept prefix; the input is that prefix followed by a dropped tail of fewer than `B` tokens |
| `Batchify.EachKeptTokenInOneCell` | models/nlp/bytask/selfsupervised/predictnext/bachify.py:12-14 | every kept position `p` is held by cell `(p % n, p / n)`, and no other cell maps to `p` |
| `Batchify.BatchifyDataset.GetItem` | models/nlp/bytask/selfsupervised/predictnext/bachify.py:16-17 | indexing succeeds exactly for `-rows <= idx < rows`, returns row `idx` for a non-negative index and row `rows + idx` for a negative one, and every returned row has `B` entries |
| `Batchify.BatchifyDataset.Len` | models/nlp/bytask/selfsupervised/predictnext/bachify.py:19-20 | the length is zero exactly when there are no rows, and on valid data the rows hold `Len() * B` tokens in all |
| `Batchify.GetItemIsTimeStep` | models/nlp/bytask/selfsupervised/predictnext/bachify.py:16-20 | for `idx >= 0`, indexing succeeds exactly below `N // B`, and the row holds input tokens `idx`, `idx + n`, ..., one per stream |
| `PyOps.Index` | models/nlp/bytask/selfsupervised/predictnext/bachify.py:16-17 | `s[i]` succeeds exactly for `-len(s) <= i < len(s)`, gives entry `i` for a non-negative index and entry `len(s) + i` for a negative one |
| `PyOps.Slice` | models/nlp/bytask/selfsupervised/predictnext/bachify.py:45-46 | `s[lo:hi]` never raises, is never longer than `s` nor than `hi - lo`, is the plain slice when `0 <= lo <= hi <= len(s)`, and is empty when `0 <= hi <= lo` |
| `PyOps.FloorDiv` | models/nlp/bytask/selfsupervised/predictnext/bachify.py:12 | `a // b` is the floor of `a / b`: `q * b <= a < q * b + b` for `b > 0` (the mirror image for `b < 0`), and non-negative when `a >= 0 < b` |
| `PyOps.Min` | models/nlp/bytask/selfsupervised/predictnext/bachify.py:43 | `min(a, b)` is one of `a` and `b` and at most both |
| `Matrix.View` | models/nlp/bytask/selfsupervised/predictnext/bachify.py:14 | `view(rows, -1)` of `rows * cols` entries has exactly `rows` rows (their cells are stated by `Matrix.ViewAt`) |
| `Matrix.ViewAt` | models/nlp/bytask/selfsupervised/predictnext/bachify.py:14 | `view(rows, cols)` has rows of `cols` entries and cell `(j, i)` is flat entry `j * cols + i` |
| `Matrix.Transpose` | models/nlp/bytask/selfsupervised/predictnext/bachify.py:14 | `.t()` swaps the shape and moves cell `(i, j)` to `(j, i)` |
| `Matrix.TransposeTwice` | models/nlp/bytask/selfsupervised/predictnext/bachify.py:14 | transposing twice gives back the original grid |
| `Matrix.FlattenView` | models/nlp/bytask/selfsupervised/predictnext/bachify.py:14 | `view(-1)` undoes `view(rows, cols)` |
| `Matrix.FlattenAt` | models/nlp/bytask/selfsupervised/predictnext/bachify.py:46 | `view(-1)` of a grid with rows of width `w` has `rows * w` entries, cell `(k, j)` at `k * w + j` |
| `Matrix.Flatten` | models/nlp/bytask/selfsupervised/predictnext/bachify.py:46 | `view(-1)` of a single row is that row (its length and cells are stated by `Matrix.FlattenAt`) |
| `Matrix.FlattenConcat` | models/nlp/bytask/selfsupervised/predictnext/bachify.py:46 | flattening two row sequences one after the other is flattening their concatenation |
| `WindowSampler.NewWindowDataset` | models/nlp/bytask/selfsupervised/predictnext/bachify.py:24-26 | the window dataset is built on valid batchified data and its length is `N // B - windowSize + 1` |
| `WindowSampler.WindowDataset.GetItem` | models/nlp/bytask/selfsupervised/predictnext/bachify.py:28-30 | a sample exists exactly when `idx + windowSize - 1` is a valid row index; for `idx >= 0` it has `windowSize - 1` history rows and the next step is row `idx + windowSize - 1` |
| `WindowSampler.WindowDataset.Len` | models/nlp/bytask/selfsupervised/predictnext/bachify.py:32-33 | the length is non-negative exactly when `windowSize <= rows + 1`, and never exceeds the row count for `windowSize >= 1` |
| `WindowSampler.WindowSampleAt` | models/nlp/bytask/selfsupervised/predictnext/bachify.py:28-30 | at every index below the length the history is rows `idx .. idx + windowSize - 2`, the next step is row `idx + windowSize - 1` (in bounds), and every row has `B` entries |
| `WindowSampler.WindowIndexRange` | models/nlp/bytask/selfsupervised/predictnext/bachify.py:28-33 | for `idx >= 0`, a sample exists exactly when `idx` is below the length |
| `WindowSampler.WindowsSlide` | models/nlp/bytask/selfsupervised/predictnext/bachify.py:28-30 | sample `idx + 1`'s history is sample `idx`'s history without its first row, followed by sample `idx`'s next step |
| `WindowSampler.NextStepsCoverTail` | models/nlp/bytask/selfsupervised/predictnext/bachify.py:28-33 | the next steps of samples `0 .. Len() - 1`, in order, are exactly rows `windowSize - 1 ..` to the end |
| `BpttChunker.NewBpttDataset` | models/nlp/bytask/selfsupervised/predictnext/bachify.py:37-39 | the BPTT dataset is built on valid batchified data with `N // B` rows |
| `BpttChunker.BpttDataset.Start` | models/nlp/bytask/selfsupervised/predictnext/bachify.py:42 | for `bptt >= 1`, `sid = idx * bptt` is non-negative exactly when `idx` is |
| `BpttChunker.BpttDataset.SeqLen` | models/nlp/bytask/selfsupervised/predictnext/bachify.py:43 | the chunk length is at most `bptt` and at most `rows - 1 - sid`, and equals one of them |
| `BpttChunker.BpttDataset.GetItem` | models/nlp/bytask/selfsupervised/predictnext/bachify.py:41-47 | for a non-negative start and `bptt >= 0` the input chunk has at most `bptt` rows |
| `BpttChunker.BpttDataset.Len` | models/nlp/bytask/selfsupervised/predictnext/bachify.py:49-50 | for `bptt >= 1` the count is non-negative, zero exactly when there are no rows, and otherwise the last chunk starts at or before row `rows - 1` while one more chunk would start after it |
| `BpttChunker.ChunkBounds` | models/nlp/bytask/selfsupervised/predictnext/bachify.py:41-50 | at every index below the length, `sid >= 0`, `0 <= seq_len_ <= bptt`, `eid + 1 <= rows`, and the input and target are the plain slices `data[sid..eid]` and `data[sid+1..eid+1]` flattened |
| `BpttChunker.ChunkLengths` | models/nlp/bytask/selfsupervised/predictnext/bachify.py:42-50 | every chunk but the last has exactly `bptt` rows; the last has `(rows - 1) - bptt * (Len() - 1) == (rows - 1) % bptt` rows |
| `BpttChunker.TargetIsShiftedInput` | models/nlp/bytask/selfsupervised/predictnext/bachify.py:44-46 | the target has `seq_len_ * B` entries and entry `k * B + j` is row `sid + 1 + k`, column `j` |
| `BpttChunker.CoveredRowsAt` | models/nlp/bytask/selfsupervised/predictnext/bachify.py:42-44 | below the length, chunk `i` starts at `min(i * bptt, rows - 1)` and ends (`eid`) at `min((i + 1) * bptt, rows - 1)` |
| `BpttChunker.ChunkStep` | models/nlp/bytask/selfsupervised/predictnext/bachify.py:42-46 | below the length, chunk `i`'s input is exactly the rows from `min(i * bptt, rows - 1)` up to `min((i + 1) * bptt, rows - 1)`, and its target the same span one row down, flattened |
| `BpttChunker.InputsAppend` | models/nlp/bytask/selfsupervised/predictnext/bachify.py:41-47 | the concatenation of the first `k + 1` chunks (inputs, targets) is that of the first `k` followed by chunk `k` |
| `BpttChunker.InputsPrefix` | models/nlp/bytask/selfsupervised/predictnext/bachify.py:42-45 | the first `k` input chunks, concatenated, are rows `0 .. min(k * bptt, rows - 1) - 1` |
| `BpttChunker.TargetsPrefix` | models/nlp/bytask/selfsupervised/predictnext/bachify.py:42-46 | the first `k` targets, concatenated, are rows `1 .. min(k * bptt, rows - 1)` flattened |
| `BpttChunker.ChunksRoundTrip` | models/nlp/bytask/selfsupervised/predictnext/bachify.py:41-50 | concatenating the input chunks `0 .. Len() - 1` gives exactly rows `0 .. rows - 2`, and their targets rows `1 .. rows - 1` flattened |
| `BpttChunker.LastChunkEmptyWhenDivisible` | models/nlp/bytask/selfsupervised/predictnext/bachify.py:43-50 | when `(rows - 1) % bptt == 0` the last chunk's input and target are empty |
| `BpttChunker.EmptyChunkExample` | models/nlp/bytask/selfsupervised/predictnext/bachify.py:50 | 36 rows with `bptt = 35` give two chunks, the second empty |
| `BpttChunker.CeilLen` | models/nlp/bytask/selfsupervised/predictnext/bachify.py:50 | the corrected count is the least `r >= 0` with `rows - 1 <= r * bptt` |
| `BpttChunker.CeilLenDropsEmptyChunk` | models/nlp/bytask/selfsupervised/predictnext/bachify.py:50 | the corrected count is `Len() - 1` when `(rows - 1) % bptt == 0` and `Len()` otherwise |
| `BpttChunker.CeilLenChunksNonEmpty` | models/nlp/bytask/selfsupervised/predictnext/bachify.py:43-50 | below the corrected count every chunk has at least one row |
| `BpttChunker.CeilLenRoundTrip` | models/nlp/bytask/selfsupervised/predictnext/bachify.py:42-50 | the corrected chunks still reconstruct rows `0 .. rows - 2`, and their targets rows `1 .. rows - 1` |

## Left out

- The `__main__` block (lines 53-71): it calls methods on `corpus = None`, and the `DataLoader`s it builds (shuffling, iteration) belong to an external library.
- The `torch.utils.data.Dataset` base class and the `super().__init__()` call, which carry no state used here.
- Tensor memory layout, `.contiguous()`, whether `narrow`, `view` and slices share storage or copy, and dtype and device: tensors are modelled as values.
- Indexing with anything but a Python `int` (tensors, slices or lists as `idx`).
- `Batchify.NewBatchifyDataset`: requires `batchSize >= 1`; with `0` the source raises ZeroDivisionError and with a negative size `narrow` or `view` raises, and those errors are not modelled.
- `BpttChunker.BpttDataset.Len`: requires `bptt != 0`, where the source raises ZeroDivisionError. A negative `bptt` is computed as the source does (floor division), but no lemma describes it.
- `WindowSampler.WindowDataset.Len`: returns the raw value of `__len__`; Python's `len()` raising ValueError when that value is negative is the caller's concern and is not modelled.
- Window sizes below 1 are computed as the source does, but no lemma describes them.

## Findings

| source | as written | input that shows it | evidently intended | confidence | as-written member | corrected member |
|---|---|---|---|---|---|---|
| models/nlp/bytask/selfsupervised/predictnext/bachify.py:50 | the chunk count is `(rows - 1) // bptt + 1` | 36 rows with `bptt = 35` (as with 128 streams, the example's `bptt = 35` and 4608 tokens): two chunks, and chunk 1 has `seq_len_ = 0`, so an empty input and target | `ceil((rows - 1) / bptt)` chunks, each non-empty, still covering rows `0 .. rows - 2` | medium; not executed | `BpttChunker.LastChunkEmptyWhenDivisible` | `BpttChunker.CeilLenChunksNonEmpty` |

`BpttChunker.BpttDataset.Len` keeps the code's formula, because it is what the
source does; `BpttChunker.CeilLen` is the corrected count, and
`BpttChunker.CeilLenRoundTrip` shows it reconstructs the same rows without the
empty chunk.
