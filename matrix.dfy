/**
  Two-dimensional integer tensors as sequences of rows, with the three tensor
  operations the batchifier uses: `view(rows, -1)` on a flat tensor, `.t()`,
  and `view(-1)` (row-major flattening).
 */
module Matrix {

  type Row = seq<int>
  type Grid = seq<Row>

  /** Every row has `width` entries. */
  predicate Rectangular(m: Grid, width: nat) {
    forall i :: 0 <= i < |m| ==> |m[i]| == width
  }

  // ---------------------------------------------------------------------------
  // Arithmetic helpers (the index maps below are products of two variables)

  lemma MulLeRight(a: int, b: int, c: nat)
    requires a <= b
    ensures a * c <= b * c
  {
  }

  /** Euclidean division is unique: `q * n + r` with `0 <= r < n` determines `q` and `r`. */
  lemma DivModUnique(p: int, n: int, q: int, r: int)
    requires n > 0 && 0 <= r < n && p == q * n + r
    ensures q == p / n && r == p % n
  {
    var q', r' := p / n, p % n;
    assert (q - q') * n == r' - r;
    if q > q' {
      MulLeRight(1, q - q', n);
    } else if q < q' {
      MulLeRight(1, q' - q, n);
    }
  }

  /** Where cell `(k, j)` of a grid with rows of `width` entries lands in row-major order. */
  function CellIndex(width: nat, k: nat, j: nat): nat {
    k * width + j
  }

  /** A cell index `k * width + j` of a `rows` by `width` grid stays below `rows * width`. */
  lemma CellBelowSize(k: nat, j: nat, rows: nat, width: nat)
    requires k < rows && j < width
    ensures k * width + j < rows * width
  {
    MulLeRight(k + 1, rows, width);
  }

  /** Block `j` of `cols` entries of a `rows * cols` sequence lies within it. */
  lemma BlockInBounds(j: nat, rows: nat, cols: nat)
    requires j < rows
    ensures 0 <= j * cols && j * cols + cols <= rows * cols
  {
    MulLeRight(j + 1, rows, cols);
  }

  /** Every position below `rows * cols` is the cell index of row `p / cols`, column `p % cols`. */
  lemma CellOf(p: int, rows: nat, cols: nat)
    requires 0 <= p < rows * cols
    ensures cols > 0 && 0 <= p / cols < rows && 0 <= p % cols < cols
    ensures (p / cols) * cols + p % cols == p
  {
    if p / cols >= rows {
      MulLeRight(rows, p / cols, cols);
    }
  }

  // ---------------------------------------------------------------------------
  // view(rows, -1)

  /** `view(rows, cols)` of a contiguous flat tensor of `rows * cols` entries:
      row `j` is the `j`-th block of `cols` consecutive entries. */
  function View(flat: Row, rows: nat, cols: nat): (m: Grid)
    requires |flat| == rows * cols
    ensures |m| == rows
  {
    seq(rows, j requires 0 <= j < rows =>
      BlockInBounds(j, rows, cols);
      flat[j * cols .. j * cols + cols])
  }

  /** One cell of `view(rows, cols)`: cell `(j, i)` is flat entry `j * cols + i`. */
  lemma ViewCell(flat: Row, rows: nat, cols: nat, j: nat, i: nat)
    requires |flat| == rows * cols && j < rows && i < cols
    ensures |View(flat, rows, cols)[j]| == cols
    ensures CellIndex(cols, j, i) < |flat| && View(flat, rows, cols)[j][i] == flat[CellIndex(cols, j, i)]
  {
    BlockInBounds(j, rows, cols);
    CellBelowSize(j, i, rows, cols);
  }

  /** `view(rows, cols)` has rows of `cols` entries, and its cell `(j, i)` is
      flat entry `j * cols + i`. */
  lemma ViewAt(flat: Row, rows: nat, cols: nat)
    requires |flat| == rows * cols
    ensures Rectangular(View(flat, rows, cols), cols)
    ensures forall j, i :: 0 <= j < rows && 0 <= i < cols ==>
              CellIndex(cols, j, i) < |flat| && View(flat, rows, cols)[j][i] == flat[CellIndex(cols, j, i)]
  {
    var m := View(flat, rows, cols);
    forall j | 0 <= j < rows
      ensures |m[j]| == cols
    {
      BlockInBounds(j, rows, cols);
    }
    forall j, i | 0 <= j < rows && 0 <= i < cols
      ensures CellIndex(cols, j, i) < |flat| && m[j][i] == flat[CellIndex(cols, j, i)]
    {
      ViewCell(flat, rows, cols, j, i);
    }
  }

  // ---------------------------------------------------------------------------
  // .t()

  /** `.t()` of a grid whose rows have `width` entries. The width is passed
      explicitly because a grid with no rows still has a column count. */
  function Transpose(m: Grid, width: nat): (t: Grid)
    requires Rectangular(m, width)
    ensures |t| == width && Rectangular(t, |m|)
    ensures forall j, i :: 0 <= j < width && 0 <= i < |m| ==> t[j][i] == m[i][j]
  {
    seq(width, j requires 0 <= j < width => seq(|m|, i requires 0 <= i < |m| => m[i][j]))
  }

  /** Transposing twice gives back the original grid. */
  lemma TransposeTwice(m: Grid, width: nat)
    requires Rectangular(m, width)
    ensures Transpose(Transpose(m, width), |m|) == m
  {
    var back := Transpose(Transpose(m, width), |m|);
    forall i | 0 <= i < |m|
      ensures back[i] == m[i]
    {
      assert |back[i]| == width == |m[i]|;
    }
  }

  // ---------------------------------------------------------------------------
  // view(-1)

  /** Two adjacent slices join into one. */
  lemma SlicesJoin<T>(s: seq<T>, a: nat, b: nat, c: nat)
    requires a <= b <= c <= |s|
    ensures s[a..b] + s[b..c] == s[a..c]
  {
  }


  /** `view(-1)` of a contiguous grid: its rows concatenated in order. Also
      used for any list of sequences joined end to end. */
  function Flatten<T>(m: seq<seq<T>>): (flat: seq<T>)
    ensures |m| == 1 ==> flat == m[0]
  {
    if m == [] then [] else m[0] + Flatten(m[1..])
  }

  /** Flattening distributes over concatenation of row sequences. */
  lemma {:induction false} FlattenConcat<T>(a: seq<seq<T>>, b: seq<seq<T>>)
    ensures Flatten(a + b) == Flatten(a) + Flatten(b)
  {
    if a == [] {
      assert a + b == b;
    } else {
      assert (a + b)[1..] == a[1..] + b;
      FlattenConcat(a[1..], b);
    }
  }

  /** Flattening a non-empty list: everything but the last row, then the last row. */
  lemma FlattenLast<T>(m: seq<seq<T>>)
    requires m != []
    ensures Flatten(m) == Flatten(m[..|m| - 1]) + m[|m| - 1]
  {
    var init, last := m[..|m| - 1], m[|m| - 1];
    assert m == init + [last];
    FlattenConcat(init, [last]);
    assert Flatten([last]) == last;
  }

  /** Row-major layout, one cell: cell `(k, j)` of a rectangular grid lands at `k * width + j`. */
  lemma {:induction false} FlattenCell(m: Grid, width: nat, k: nat, j: nat)
    requires Rectangular(m, width) && k < |m| && j < width
    ensures CellIndex(width, k, j) < |Flatten(m)| && Flatten(m)[CellIndex(width, k, j)] == m[k][j]
  {
    var rest := m[1..];
    assert Rectangular(rest, width);
    if k == 0 {
      assert Flatten(m) == m[0] + Flatten(rest);
    } else {
      FlattenCell(rest, width, k - 1, j);
      assert rest[k - 1] == m[k];
      assert k * width + j == width + ((k - 1) * width + j);
    }
  }

  /** Row-major layout: cell `(k, j)` of a rectangular grid lands at `k * width + j`,
      and the flattened grid has exactly one entry per cell. */
  lemma FlattenAt(m: Grid, width: nat)
    requires Rectangular(m, width)
    ensures |Flatten(m)| == |m| * width
    ensures forall k, j :: 0 <= k < |m| && 0 <= j < width ==>
              CellIndex(width, k, j) < |Flatten(m)| && Flatten(m)[CellIndex(width, k, j)] == m[k][j]
  {
    FlattenLength(m, width);
    forall k, j | 0 <= k < |m| && 0 <= j < width
      ensures CellIndex(width, k, j) < |Flatten(m)| && Flatten(m)[CellIndex(width, k, j)] == m[k][j]
    {
      FlattenCell(m, width, k, j);
    }
  }

  /** A rectangular grid flattens to `rows * width` entries. */
  lemma {:induction false} FlattenLength(m: Grid, width: nat)
    requires Rectangular(m, width)
    ensures |Flatten(m)| == |m| * width
  {
    if m != [] {
      FlattenLength(m[1..], width);
      assert |m| * width == width + (|m| - 1) * width;
    }
  }

  /** `view(-1)` undoes `view(rows, cols)`. */
  lemma FlattenView(flat: Row, rows: nat, cols: nat)
    requires |flat| == rows * cols
    ensures Flatten(View(flat, rows, cols)) == flat
  {
    var m := View(flat, rows, cols);
    ViewAt(flat, rows, cols);
    FlattenLength(m, cols);
    forall p | 0 <= p < |flat|
      ensures Flatten(m)[p] == flat[p]
    {
      CellOf(p, rows, cols);
      FlattenCell(m, cols, p / cols, p % cols);
    }
  }
}
