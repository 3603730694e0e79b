/**
  The BPTT chunker (`CorpusBatchifyBPTTDataset`): the rows of the batchified
  data are cut into consecutive chunks of at most `bptt` rows. Each chunk's
  target is the same span moved one row down, flattened row-major.
 */
module BpttChunker {
  import opened PyOps
  import opened Matrix
  import opened Batchify

  /** One training sample: a chunk of rows and its flattened next-step targets. */
  datatype BpttSample = BpttSample(input: Grid, target: Row)

  datatype BpttDataset = BpttDataset(base: BatchifyDataset, bptt: int) {

    /** First row of chunk `idx`: `sid = idx * bptt`. With a positive `bptt`
        it is negative, and so counts from the end of the data when sliced,
        exactly for negative indices. */
    function Start(idx: int): (sid: int)
      ensures bptt >= 1 ==> (0 <= sid <==> 0 <= idx)
    {
      idx * bptt
    }

    /** `seq_len_ = min(bptt, rows - 1 - sid)`: the chunk stops one row short of
        the end so that every input row has a next row to predict. */
    function SeqLen(idx: int): (n: int)
      ensures n <= bptt && n <= base.Len() - 1 - Start(idx)
      ensures n == bptt || n == base.Len() - 1 - Start(idx)
    {
      Min(bptt, base.Len() - 1 - Start(idx))
    }

    /** `__getitem__`: input `data[sid:eid]`, target `data[sid+1:eid+1].view(-1)`
        with `eid = sid + seq_len_`. Slicing never raises, so neither does this. */
    function GetItem(idx: int): (r: BpttSample)
      ensures 0 <= Start(idx) && 0 <= bptt ==> |r.input| <= bptt
    {
      var sid := Start(idx);
      var eid := sid + SeqLen(idx);
      BpttSample(Slice(base.data, sid, eid), Flatten(Slice(base.data, sid + 1, eid + 1)))
    }

    /** `__len__`: `(rows - 1) // bptt + 1`. A zero `bptt` raises ZeroDivisionError. */
    function Len(): (r: int)
      requires bptt != 0
      ensures bptt >= 1 ==> r >= 0 && (r == 0 <==> base.Len() == 0)
      ensures bptt >= 1 && base.Len() >= 1 ==> (r - 1) * bptt <= base.Len() - 1 < r * bptt
    {
      FloorDiv(base.Len() - 1, bptt) + 1
    }
  }

  /** The constructor: batchify, then remember the chunk length. */
  function NewBpttDataset(textIds: seq<int>, batchSize: int, bptt: int): (ds: BpttDataset)
    requires batchSize >= 1
    ensures ds.base.Valid() && ds.base.batchSize == batchSize && ds.bptt == bptt
    ensures ds.base.Len() == |textIds| / batchSize
  {
    BpttDataset(NewBatchifyDataset(textIds, batchSize), bptt)
  }

  /** Chunk bounds at a valid index: the chunk length is non-negative and at
      most `bptt`, the shifted span ends within the data (`eid + 1 <= rows`), so
      both slices are plain in-bounds slices. */
  lemma ChunkBounds(ds: BpttDataset, idx: int)
    requires ds.bptt >= 1 && 0 <= idx < ds.Len()
    ensures var sid, len := ds.Start(idx), ds.SeqLen(idx);
            0 <= sid && 0 <= len <= ds.bptt && sid + len + 1 <= ds.base.Len() &&
            ds.GetItem(idx).input == ds.base.data[sid..sid + len] &&
            ds.GetItem(idx).target == Flatten(ds.base.data[sid + 1..sid + len + 1])
  {
    StartInRange(ds, idx);
  }

  /** At a valid index the chunk starts inside the data, before its last row. */
  lemma StartInRange(ds: BpttDataset, idx: int)
    requires ds.bptt >= 1 && 0 <= idx < ds.Len()
    ensures 0 <= ds.Start(idx) < ds.base.Len()
  {
    MulLeRight(idx, ds.Len() - 1, ds.bptt);
  }

  /** Chunk lengths: every chunk but the last has exactly `bptt` rows; the last
      has `(rows - 1) - bptt * (Len() - 1)` rows, which is `(rows - 1) % bptt`. */
  lemma ChunkLengths(ds: BpttDataset, idx: int)
    requires ds.bptt >= 1 && 0 <= idx < ds.Len()
    ensures idx < ds.Len() - 1 ==> ds.SeqLen(idx) == ds.bptt
    ensures idx == ds.Len() - 1 ==>
              ds.SeqLen(idx) == (ds.base.Len() - 1) - ds.bptt * (ds.Len() - 1) == (ds.base.Len() - 1) % ds.bptt
  {
    if idx < ds.Len() - 1 {
      MulLeRight(idx + 1, ds.Len() - 1, ds.bptt);
    }
  }

  /** The target is the input moved one row down, flattened row-major: it has
      `seq_len_ * B` entries and entry `k * B + j` is row `sid + 1 + k`, column `j`. */
  lemma TargetIsShiftedInput(ds: BpttDataset, idx: int)
    requires ds.base.Valid() && ds.bptt >= 1 && 0 <= idx < ds.Len()
    ensures var sid, len, b := ds.Start(idx), ds.SeqLen(idx), ds.base.batchSize;
            var target := ds.GetItem(idx).target;
            0 <= len && sid + len + 1 <= ds.base.Len() &&
            |target| == len * b &&
            forall k, j :: 0 <= k < len && 0 <= j < b ==>
              CellIndex(b, k, j) < |target| && target[CellIndex(b, k, j)] == ds.base.data[sid + 1 + k][j]
  {
    ChunkBounds(ds, idx);
    var data, sid, len, b := ds.base.data, ds.Start(idx), ds.SeqLen(idx), ds.base.batchSize;
    var shifted := data[sid + 1..sid + len + 1];
    var target := ds.GetItem(idx).target;
    assert target == Flatten(shifted);
    assert Rectangular(shifted, b);
    FlattenLength(shifted, b);
    forall k, j | 0 <= k < len && 0 <= j < b
      ensures CellIndex(b, k, j) < |target| && target[CellIndex(b, k, j)] == data[sid + 1 + k][j]
    {
      FlattenCell(shifted, b, k, j);
      assert shifted[k] == data[sid + 1 + k];
    }
  }

  // ---------------------------------------------------------------------------
  // Round trips

  /** `part` is the slice of `s` from `lo` to `hi`. */
  ghost predicate IsSlice<T>(part: seq<T>, s: seq<T>, lo: int, hi: int) {
    0 <= lo <= hi <= |s| && part == s[lo..hi]
  }

  /** `part` is rows `lo + 1 .. hi` of `m`, flattened: the span `lo .. hi - 1`
      moved one row down. */
  ghost predicate IsShiftedFlat(part: Row, m: Grid, lo: int, hi: int) {
    0 <= lo <= hi < |m| && part == Flatten(m[lo + 1..hi + 1])
  }

  /** If part `i` is the slice of `s` from `ends[i]` to `ends[i + 1]` and
      `ends[0]` is 0, the parts concatenate to the prefix of `s` up to the last end. */
  lemma {:induction false} FlattenOfSlices<T>(parts: seq<seq<T>>, ends: seq<int>, s: seq<T>)
    requires |ends| == |parts| + 1 && ends[0] == 0
    requires forall i :: 0 <= i < |parts| ==> IsSlice(parts[i], s, ends[i], ends[i + 1])
    ensures 0 <= ends[|parts|] <= |s| && Flatten(parts) == s[..ends[|parts|]]
  {
    var n := |parts|;
    if n > 0 {
      FlattenOfSlices(parts[..n - 1], ends[..n], s);
      FlattenLast(parts);
      assert IsSlice(parts[n - 1], s, ends[n - 1], ends[n]);
      SlicesJoin(s, 0, ends[n - 1], ends[n]);
    }
  }

  /** The same one row down, with every part flattened: if part `i` is rows
      `ends[i] + 1 .. ends[i + 1]` of `m` flattened, the parts concatenate to
      rows `1 .. ends[|parts|]` flattened. */
  lemma {:induction false} FlattenOfShiftedFlats(parts: seq<Row>, ends: seq<int>, m: Grid)
    requires 1 <= |m| && |ends| == |parts| + 1 && ends[0] == 0
    requires forall i :: 0 <= i < |parts| ==> IsShiftedFlat(parts[i], m, ends[i], ends[i + 1])
    ensures 0 <= ends[|parts|] < |m| && Flatten(parts) == Flatten(m[1..ends[|parts|] + 1])
  {
    var n := |parts|;
    if n == 0 {
      assert m[1..1] == [];
    } else {
      FlattenOfShiftedFlats(parts[..n - 1], ends[..n], m);
      FlattenLast(parts);
      assert IsShiftedFlat(parts[n - 1], m, ends[n - 1], ends[n]);
      var lo, hi := ends[n - 1], ends[n];
      SlicesJoin(m, 1, lo + 1, hi + 1);
      FlattenConcat(m[1..lo + 1], m[lo + 1..hi + 1]);
    }
  }

  /** The inputs of chunks `0 .. k - 1`, in order. */
  function InputList(ds: BpttDataset, k: nat): (l: seq<Grid>)
    ensures |l| == k
  {
    seq(k, i => ds.GetItem(i).input)
  }

  /** The targets of chunks `0 .. k - 1`, in order. */
  function TargetList(ds: BpttDataset, k: nat): (l: seq<Row>)
    ensures |l| == k
  {
    seq(k, i => ds.GetItem(i).target)
  }

  /** The input chunks `0 .. k - 1`, concatenated in order. */
  function Inputs(ds: BpttDataset, k: nat): Grid {
    Flatten(InputList(ds, k))
  }

  /** The target chunks `0 .. k - 1`, concatenated in order. */
  function Targets(ds: BpttDataset, k: nat): Row {
    Flatten(TargetList(ds, k))
  }

  /** Where the first `k` chunks stop: `min(k * bptt, rows - 1)`. */
  function CoveredRows(ds: BpttDataset, k: nat): (e: int)
    ensures 0 <= ds.bptt && 1 <= ds.base.Len() ==> 0 <= e <= ds.base.Len() - 1
  {
    Min(k * ds.bptt, ds.base.Len() - 1)
  }

  /** Where the first `0, 1, .., k` chunks stop. */
  function CoveredList(ds: BpttDataset, k: nat): (l: seq<int>)
    ensures |l| == k + 1
  {
    seq(k + 1, (i: nat) => CoveredRows(ds, i))
  }

  /** Chunk `i` is exactly the rows between where the first `i` chunks stop and
      where the first `i + 1` chunks stop; its target is the same span one row
      down. */
  lemma ChunkStep(ds: BpttDataset, i: nat)
    requires ds.bptt >= 1 && 1 <= ds.base.Len() && i < ds.Len()
    ensures 0 <= CoveredRows(ds, i) <= CoveredRows(ds, i + 1) < ds.base.Len()
    ensures ds.GetItem(i).input == ds.base.data[CoveredRows(ds, i)..CoveredRows(ds, i + 1)]
    ensures ds.GetItem(i).target == Flatten(ds.base.data[CoveredRows(ds, i) + 1..CoveredRows(ds, i + 1) + 1])
  {
    ChunkBounds(ds, i);
    CoveredRowsAt(ds, i);
  }

  /** The first `i` chunks stop where chunk `i` starts, and the first `i + 1`
      where it ends. */
  lemma CoveredRowsAt(ds: BpttDataset, i: nat)
    requires ds.bptt >= 1 && i < ds.Len()
    ensures CoveredRows(ds, i) == ds.Start(i)
    ensures CoveredRows(ds, i + 1) == ds.Start(i) + ds.SeqLen(i)
  {
    StartInRange(ds, i);
    assert (i + 1) * ds.bptt == ds.Start(i) + ds.bptt;
  }

  /** Chunk `i`'s input, read off the lists. */
  lemma InputAt(ds: BpttDataset, k: nat, i: nat)
    requires ds.bptt >= 1 && 1 <= ds.base.Len() && i < k <= ds.Len()
    ensures IsSlice(InputList(ds, k)[i], ds.base.data, CoveredList(ds, k)[i], CoveredList(ds, k)[i + 1])
  {
    ChunkStep(ds, i);
  }

  /** Chunk `i`'s target, read off the lists. */
  lemma TargetAt(ds: BpttDataset, k: nat, i: nat)
    requires ds.bptt >= 1 && 1 <= ds.base.Len() && i < k <= ds.Len()
    ensures IsShiftedFlat(TargetList(ds, k)[i], ds.base.data, CoveredList(ds, k)[i], CoveredList(ds, k)[i + 1])
  {
    ChunkStep(ds, i);
  }

  /** The first `k` chunks cover rows `0 .. min(k * bptt, rows - 1)` in order. */
  lemma InputsPrefix(ds: BpttDataset, k: nat)
    requires ds.bptt >= 1 && 1 <= ds.base.Len() && k <= ds.Len()
    ensures Inputs(ds, k) == ds.base.data[..CoveredRows(ds, k)]
  {
    var parts, ends := InputList(ds, k), CoveredList(ds, k);
    forall i | 0 <= i < k
      ensures IsSlice(parts[i], ds.base.data, ends[i], ends[i + 1])
    {
      InputAt(ds, k, i);
    }
    FlattenOfSlices(parts, ends, ds.base.data);
  }

  /** The targets of the first `k` chunks are rows `1 .. min(k * bptt, rows - 1)`
      (inclusive), flattened. */
  lemma TargetsPrefix(ds: BpttDataset, k: nat)
    requires ds.bptt >= 1 && 1 <= ds.base.Len() && k <= ds.Len()
    ensures Targets(ds, k) == Flatten(ds.base.data[1..CoveredRows(ds, k) + 1])
  {
    var parts, ends := TargetList(ds, k), CoveredList(ds, k);
    forall i | 0 <= i < k
      ensures IsShiftedFlat(parts[i], ds.base.data, ends[i], ends[i + 1])
    {
      TargetAt(ds, k, i);
    }
    FlattenOfShiftedFlats(parts, ends, ds.base.data);
  }

  /** Appending one more chunk: the first `k + 1` chunks are the first `k`
      followed by chunk `k`. */
  lemma InputsAppend(ds: BpttDataset, k: nat)
    ensures Inputs(ds, k + 1) == Inputs(ds, k) + ds.GetItem(k).input
    ensures Targets(ds, k + 1) == Targets(ds, k) + ds.GetItem(k).target
  {
    assert InputList(ds, k + 1)[..k] == InputList(ds, k);
    FlattenLast(InputList(ds, k + 1));
    assert TargetList(ds, k + 1)[..k] == TargetList(ds, k);
    FlattenLast(TargetList(ds, k + 1));
  }

  /** Round trip: the input chunks for `idx = 0 .. Len() - 1`, in order, are
      exactly rows `0 .. rows - 2`; their targets are rows `1 .. rows - 1`,
      flattened. */
  lemma ChunksRoundTrip(ds: BpttDataset)
    requires ds.bptt >= 1 && 1 <= ds.base.Len()
    ensures Inputs(ds, ds.Len()) == ds.base.data[..ds.base.Len() - 1]
    ensures Targets(ds, ds.Len()) == Flatten(ds.base.data[1..])
  {
    InputsPrefix(ds, ds.Len());
    TargetsPrefix(ds, ds.Len());
    assert CoveredRows(ds, ds.Len()) == ds.base.Len() - 1;
    assert ds.base.data[1..ds.base.Len()] == ds.base.data[1..];
  }

  // ---------------------------------------------------------------------------
  // The chunk count as written, and the ceiling it was evidently meant to be

  /** As written, when `rows - 1` is a multiple of `bptt` the last chunk is
      empty: its input has no rows and its target no entries. */
  lemma LastChunkEmptyWhenDivisible(ds: BpttDataset)
    requires ds.bptt >= 1 && 1 <= ds.base.Len() && (ds.base.Len() - 1) % ds.bptt == 0
    ensures ds.Len() >= 1
    ensures ds.GetItem(ds.Len() - 1).input == [] && ds.GetItem(ds.Len() - 1).target == []
  {
    ChunkLengths(ds, ds.Len() - 1);
    ChunkBounds(ds, ds.Len() - 1);
  }

  /** A concrete case: 36 rows with `bptt = 35` give two chunks, the second of
      them empty. (One stream here; with 128 streams, as in the module's example
      settings, 36 rows come from 4608 to 4735 tokens.) */
  lemma EmptyChunkExample()
    ensures var ds := BpttDataset(BatchifyDataset(1, seq(36, i => [i])), 35);
            ds.Len() == 2 && ds.GetItem(1).input == [] && ds.GetItem(1).target == []
  {
    var ds := BpttDataset(BatchifyDataset(1, seq(36, i => [i])), 35);
    LastChunkEmptyWhenDivisible(ds);
  }

  /** The chunk count `ceil((rows - 1) / bptt)`: one chunk per started block of
      `bptt` input rows, with no empty chunk at the end. */
  function CeilLen(ds: BpttDataset): (r: int)
    requires ds.bptt >= 1
    ensures ds.base.Len() >= 1 ==>
              0 <= r && ds.base.Len() - 1 <= r * ds.bptt &&
              (r == 0 || (r - 1) * ds.bptt < ds.base.Len() - 1)
  {
    FloorDiv(ds.base.Len() - 1 + ds.bptt - 1, ds.bptt)
  }

  /** The ceiling count differs from `Len()` by exactly the empty last chunk:
      one less when `rows - 1` is a multiple of `bptt`, the same otherwise. */
  lemma CeilLenDropsEmptyChunk(ds: BpttDataset)
    requires ds.bptt >= 1 && 1 <= ds.base.Len()
    ensures CeilLen(ds) == if (ds.base.Len() - 1) % ds.bptt == 0 then ds.Len() - 1 else ds.Len()
  {
    var rows, bptt := ds.base.Len(), ds.bptt;
    var q, m := (rows - 1) / bptt, (rows - 1) % bptt;
    if m == 0 {
      DivModUnique(rows - 1 + bptt - 1, bptt, q, bptt - 1);
    } else {
      DivModUnique(rows - 1 + bptt - 1, bptt, q + 1, m - 1);
    }
  }

  /** With the ceiling count every chunk is non-empty. */
  lemma CeilLenChunksNonEmpty(ds: BpttDataset, idx: int)
    requires ds.bptt >= 1 && 1 <= ds.base.Len() && 0 <= idx < CeilLen(ds)
    ensures ds.SeqLen(idx) >= 1 && |ds.GetItem(idx).input| == ds.SeqLen(idx)
  {
    CeilLenDropsEmptyChunk(ds);
    ChunkBounds(ds, idx);
    ChunkLengths(ds, idx);
  }

  /** With the ceiling count the chunks still cover rows `0 .. rows - 2` in
      order, and their targets rows `1 .. rows - 1`. */
  lemma CeilLenRoundTrip(ds: BpttDataset)
    requires ds.bptt >= 1 && 1 <= ds.base.Len()
    ensures Inputs(ds, CeilLen(ds)) == ds.base.data[..ds.base.Len() - 1]
    ensures Targets(ds, CeilLen(ds)) == Flatten(ds.base.data[1..])
  {
    CeilLenDropsEmptyChunk(ds);
    ChunksRoundTrip(ds);
    if (ds.base.Len() - 1) % ds.bptt == 0 {
      var last := ds.Len() - 1;
      assert CeilLen(ds) == last;
      LastChunkEmptyWhenDivisible(ds);
      InputsAppend(ds, last);
    }
  }
}
