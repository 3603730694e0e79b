/**
  The stream batchifier (`CorpusBatchifyDataset`): a flat sequence of token ids
  is cut into `batchSize` contiguous streams, which are laid side by side so
  that the time step is the leading index. Row `i` holds the `i`-th token of
  every stream.
 */
module Batchify {
  import opened PyOps
  import opened Matrix

  /** A constructed dataset: `data` has one row per time step and one column
      per stream. */
  datatype BatchifyDataset = BatchifyDataset(batchSize: int, data: Grid) {

    /** What construction establishes: a positive stream count, and rows of
        exactly that many entries. */
    predicate Valid() {
      batchSize >= 1 && Rectangular(data, batchSize)
    }

    /** `__getitem__`: row `idx`; a negative index counts from the end, and an
        index outside `[-Len(), Len())` raises IndexError (`None`). */
    function GetItem(idx: int): (r: Option<Row>)
      ensures r.Some? <==> -(Len() as int) <= idx < Len()
      ensures 0 <= idx < Len() ==> r == Some(data[idx])
      ensures -(Len() as int) <= idx < 0 ==> r == Some(data[Len() + idx])
      ensures r.Some? && Valid() ==> |r.value| == batchSize
    {
      Index(data, idx)
    }

    /** `__len__`: the number of time steps. On valid data every time step
        holds one token of each stream, so the rows hold `Len() * batchSize`
        tokens in all. */
    function Len(): (r: nat)
      ensures r == 0 <==> data == []
      ensures Valid() ==> |Flatten(data)| == r * batchSize
    {
      if Valid() then FlattenLength(data, batchSize); |data| else |data|
    }
  }

  /** How many tokens the constructor keeps: `(N // B) * B`, a multiple of `B`
      that falls short of `N` by less than `B`. */
  function KeptCount(n: nat, batchSize: int): (k: nat)
    requires batchSize >= 1
    ensures k <= n < k + batchSize
    ensures k % batchSize == 0 && k / batchSize == n / batchSize
  {
    var q := FloorDiv(n, batchSize);
    var k := q * batchSize;
    DivModUnique(n, batchSize, q, n - k);
    DivModUnique(k, batchSize, q, 0);
    MulLeRight(0, q, batchSize);
    k
  }

  /** The constructor: keep the first `(N // B) * B` tokens, view them as `B`
      streams of `N // B` tokens, and transpose. */
  function NewBatchifyDataset(textIds: seq<int>, batchSize: int): (ds: BatchifyDataset)
    requires batchSize >= 1
    ensures ds.Valid() && ds.batchSize == batchSize
    ensures ds.Len() == |textIds| / batchSize
    ensures ds.Len() >= 1 <==> batchSize <= |textIds|
  {
    var nBatches := FloorDiv(|textIds|, batchSize);
    var kept := textIds[..KeptCount(|textIds|, batchSize)];
    ViewAt(kept, batchSize, nBatches);
    BatchifyDataset(batchSize, Transpose(View(kept, batchSize, nBatches), nBatches))
  }

  /** Stream splitting, cell by cell: with `n = N // B` rows, cell `(i, j)` holds
      input token `j * n + i`. */
  lemma StreamSplitting(textIds: seq<int>, batchSize: int)
    requires batchSize >= 1
    ensures var ds := NewBatchifyDataset(textIds, batchSize);
            var n := ds.Len();
            forall i, j :: 0 <= i < n && 0 <= j < batchSize ==>
              CellIndex(n, j, i) < |textIds| && ds.data[i][j] == textIds[CellIndex(n, j, i)]
  {
    var ds := NewBatchifyDataset(textIds, batchSize);
    var n := ds.Len();
    var kept := textIds[..KeptCount(|textIds|, batchSize)];
    var streams := View(kept, batchSize, n);
    ViewAt(kept, batchSize, n);
    forall i, j | 0 <= i < n && 0 <= j < batchSize
      ensures CellIndex(n, j, i) < |textIds| && ds.data[i][j] == textIds[CellIndex(n, j, i)]
    {
      assert ds.data[i][j] == streams[j][i];
    }
  }

  /** Stream splitting: column `j` of the batchified data is the `j`-th block of
      `N // B` consecutive tokens of the input, in order. */
  lemma StreamsAreContiguous(textIds: seq<int>, batchSize: int, j: nat)
    requires batchSize >= 1 && j < batchSize
    ensures var ds := NewBatchifyDataset(textIds, batchSize);
            var n := ds.Len();
            j * n + n <= |textIds| &&
            Transpose(ds.data, batchSize)[j] == textIds[j * n .. j * n + n]
  {
    var ds := NewBatchifyDataset(textIds, batchSize);
    var n := ds.Len();
    BlockInBounds(j, batchSize, n);
    StreamSplitting(textIds, batchSize);
    var column := Transpose(ds.data, batchSize)[j];
    var block := textIds[j * n .. j * n + n];
    assert |column| == n == |block|;
    forall i | 0 <= i < n
      ensures column[i] == block[i]
    {
      assert column[i] == ds.data[i][j] == textIds[CellIndex(n, j, i)];
    }
    assert column == block;
  }

  /** Only the tail is dropped: reading the batchified data back stream by
      stream (transpose, then `view(-1)`) gives the kept prefix, and what was
      dropped is the last `N % B` tokens, fewer than one per stream. */
  lemma KeptPrefixRoundTrip(textIds: seq<int>, batchSize: int)
    requires batchSize >= 1
    ensures var ds := NewBatchifyDataset(textIds, batchSize);
            var k := KeptCount(|textIds|, batchSize);
            Flatten(Transpose(ds.data, batchSize)) == textIds[..k] &&
            textIds == Flatten(Transpose(ds.data, batchSize)) + textIds[k..] &&
            |textIds[k..]| < batchSize
  {
    var ds := NewBatchifyDataset(textIds, batchSize);
    var n := |textIds| / batchSize;
    var kept := textIds[..n * batchSize];
    var streams := View(kept, batchSize, n);
    ViewAt(kept, batchSize, n);
    assert ds.data == Transpose(streams, n);
    TransposeTwice(streams, n);
    FlattenView(kept, batchSize, n);
    assert textIds == kept + textIds[n * batchSize..];
  }

  /** Every kept token is in exactly one cell: position `p` below `(N // B) * B`
      is held by the cell at row `p % n`, column `p / n`, and by no other cell. */
  lemma EachKeptTokenInOneCell(textIds: seq<int>, batchSize: int, p: int)
    requires batchSize >= 1 && 0 <= p < KeptCount(|textIds|, batchSize)
    ensures var ds := NewBatchifyDataset(textIds, batchSize);
            var n := ds.Len();
            n > 0 && p % n < n && p / n < batchSize &&
            CellIndex(n, p / n, p % n) == p &&
            ds.data[p % n][p / n] == textIds[p] &&
            forall i, j :: 0 <= i < n && 0 <= j < batchSize && CellIndex(n, j, i) == p ==>
              i == p % n && j == p / n
  {
    var ds := NewBatchifyDataset(textIds, batchSize);
    var n := ds.Len();
    assert p < batchSize * n;
    CellOf(p, batchSize, n);
    StreamSplitting(textIds, batchSize);
    assert ds.data[p % n][p / n] == textIds[CellIndex(n, p / n, p % n)];
    forall i, j | 0 <= i < n && 0 <= j < batchSize && CellIndex(n, j, i) == p
      ensures i == p % n && j == p / n
    {
      DivModUnique(p, n, j, i);
    }
  }

  /** `__getitem__` at a time step: row `idx` collects the `idx`-th token of
      every stream, i.e. input tokens `idx`, `idx + n`, `idx + 2n`, ...; any
      index at or beyond `N // B` raises IndexError. */
  lemma GetItemIsTimeStep(textIds: seq<int>, batchSize: int, idx: int)
    requires batchSize >= 1 && 0 <= idx
    ensures var ds := NewBatchifyDataset(textIds, batchSize);
            var n := ds.Len();
            (ds.GetItem(idx).Some? <==> idx < |textIds| / batchSize) &&
            (ds.GetItem(idx).Some? ==>
               |ds.GetItem(idx).value| == batchSize &&
               forall j :: 0 <= j < batchSize ==>
                 CellIndex(n, j, idx) < |textIds| &&
                 ds.GetItem(idx).value[j] == textIds[CellIndex(n, j, idx)])
  {
    StreamSplitting(textIds, batchSize);
  }
}
