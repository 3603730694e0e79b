/**
  The window sampler (`CorpusBatchifyWindowDataset`): a sliding window over the
  rows of the batchified data. Sample `idx` pairs the `windowSize - 1` rows
  starting at `idx` (the history) with the row right after them (the step to
  predict).
 */
module WindowSampler {
  import opened PyOps
  import opened Matrix
  import opened Batchify

  /** One training sample: consecutive rows of history and the next row. */
  datatype WindowSample = WindowSample(history: Grid, next: Row)

  datatype WindowDataset = WindowDataset(base: BatchifyDataset, windowSize: int) {

    /** `__getitem__`: `data[idx:eid]` and `data[eid]` with `eid = idx + windowSize - 1`.
        The slice never raises; the index raises IndexError (`None`) exactly
        when `eid` is outside `[-rows, rows)`. */
    function GetItem(idx: int): (r: Option<WindowSample>)
      ensures r.Some? <==> -(base.Len() as int) <= idx + windowSize - 1 < base.Len()
      ensures r.Some? && 0 <= idx && 1 <= windowSize ==>
                |r.value.history| == windowSize - 1 && r.value.next == base.data[idx + windowSize - 1]
    {
      var eid := idx + windowSize - 1;
      var history := Slice(base.data, idx, eid);
      match Index(base.data, eid)
      case None => None
      case Some(next) => Some(WindowSample(history, next))
    }

    /** `__len__`: one sample per window position. The value is negative (and
        Python's `len` would reject it) exactly when the window is longer than
        one more than the number of rows. */
    function Len(): (r: int)
      ensures r >= 0 <==> windowSize <= base.Len() + 1
      ensures windowSize >= 1 ==> r <= base.Len()
    {
      base.Len() - windowSize + 1
    }
  }

  /** The constructor: batchify, then remember the window size. */
  function NewWindowDataset(textIds: seq<int>, batchSize: int, windowSize: int): (ds: WindowDataset)
    requires batchSize >= 1
    ensures ds.base.Valid() && ds.base.batchSize == batchSize && ds.windowSize == windowSize
    ensures ds.Len() == |textIds| / batchSize - windowSize + 1
  {
    WindowDataset(NewBatchifyDataset(textIds, batchSize), windowSize)
  }

  /** A sample at a valid index: the history is exactly rows `idx .. idx + windowSize - 2`,
      the next step is row `idx + windowSize - 1`, which is in bounds, and every
      row of the sample has one entry per stream. */
  lemma WindowSampleAt(ds: WindowDataset, idx: int)
    requires ds.base.Valid() && ds.windowSize >= 1 && 0 <= idx < ds.Len()
    ensures var eid := idx + ds.windowSize - 1;
            eid < ds.base.Len() &&
            ds.GetItem(idx) == Some(WindowSample(ds.base.data[idx..eid], ds.base.data[eid])) &&
            |ds.GetItem(idx).value.history| == ds.windowSize - 1 &&
            Rectangular(ds.GetItem(idx).value.history, ds.base.batchSize) &&
            |ds.GetItem(idx).value.next| == ds.base.batchSize
  {
  }

  /** For non-negative indices, a sample exists exactly below `Len()`. */
  lemma WindowIndexRange(ds: WindowDataset, idx: int)
    requires ds.windowSize >= 1 && 0 <= idx
    ensures ds.GetItem(idx).Some? <==> idx < ds.Len()
  {
  }

  /** Consecutive samples slide by one row: the next history drops the oldest
      row and appends the previous sample's next step. */
  lemma WindowsSlide(ds: WindowDataset, idx: int)
    requires ds.windowSize >= 2 && 0 <= idx && idx + 1 < ds.Len()
    ensures ds.GetItem(idx).Some? && ds.GetItem(idx + 1).Some?
    ensures ds.GetItem(idx + 1).value.history ==
              ds.GetItem(idx).value.history[1..] + [ds.GetItem(idx).value.next]
  {
    var eid := idx + ds.windowSize - 1;
    var data := ds.base.data;
    assert data[idx + 1 .. eid + 1] == data[idx..eid][1..] + [data[eid]];
  }

  /** Taken in index order, the next steps of all samples are exactly the rows
      from `windowSize - 1` to the end: every such row is predicted once. */
  lemma NextStepsCoverTail(ds: WindowDataset)
    requires ds.windowSize >= 1 && ds.Len() >= 0
    ensures forall idx :: 0 <= idx < ds.Len() ==> ds.GetItem(idx).Some?
    ensures seq(ds.Len(), idx requires 0 <= idx < ds.Len() => ds.GetItem(idx).value.next) ==
              ds.base.data[ds.windowSize - 1..]
  {
  }
}
