/** Raster bands as grids of integer samples, and the array operations the
    pipelines perform on one tile of them: a windowed read flattened in
    row-major order (`ReadAsArray(j, i, cols, lines).reshape(cols*lines)`), a
    windowed write (`WriteArray(block.reshape(lines, cols), j, i)`), and the
    indices of the nonzero entries of a flat tile (`nonzero` / `where(x != 0)`). */
module Grids {
  import opened Arith

  /** One band: `height` rows of `width` samples, indexed [row][column]. */
  type Grid = seq<seq<int>>

  predicate Shaped(g: Grid, height: nat, width: nat)
  {
    |g| == height && forall r :: 0 <= r < height ==> |g[r]| == width
  }

  /** The window with column offset j, row offset i, cols columns and lines rows lies inside g. */
  predicate Window(g: Grid, j: nat, i: nat, cols: nat, lines: nat)
  {
    i + lines <= |g| && forall r :: i <= r < i + lines ==> j + cols <= |g[r]|
  }

  /** Row of the k-th cell of a row-major lines x cols block. */
  function LocalRow(k: nat, lines: nat, cols: nat): (r: nat)
    requires k < lines * cols
    ensures r < lines
  {
    UnflatBound(k, lines, cols);
    k / cols
  }

  /** Column of the k-th cell of a row-major lines x cols block. */
  function LocalCol(k: nat, lines: nat, cols: nat): (c: nat)
    requires k < lines * cols
    ensures c < cols
  {
    UnflatBound(k, lines, cols);
    k % cols
  }

  /** Row-major index of cell (r, c) of a lines x cols block; LocalRow and LocalCol invert it. */
  function FlatIndex(r: nat, c: nat, lines: nat, cols: nat): (k: nat)
    requires r < lines && c < cols
    ensures k < lines * cols
    ensures LocalRow(k, lines, cols) == r && LocalCol(k, lines, cols) == c
  {
    FlatBound(r, c, lines, cols);
    DivModUnique(r * cols + c, cols, r, c);
    r * cols + c
  }

  lemma FlatOfLocal(k: nat, lines: nat, cols: nat)
    requires k < lines * cols
    ensures FlatIndex(LocalRow(k, lines, cols), LocalCol(k, lines, cols), lines, cols) == k
  {
    UnflatBound(k, lines, cols);
  }

  /** Two grids of the same shape that agree on every cell are equal. */
  lemma SameGrids(g: Grid, g': Grid, height: nat, width: nat)
    requires Shaped(g, height, width) && Shaped(g', height, width)
    requires forall r, c :: 0 <= r < height && 0 <= c < width ==> g[r][c] == g'[r][c]
    ensures g == g'
  {
    forall r | 0 <= r < height
      ensures g[r] == g'[r]
    {
    }
  }

  /** Cells of a row-major block come in row-major order: an earlier index is in an
      earlier row, or in the same row and an earlier column. */
  lemma LocalOrder(k: nat, k': nat, lines: nat, cols: nat)
    requires k < k' < lines * cols
    ensures LocalRow(k, lines, cols) < LocalRow(k', lines, cols) ||
            (LocalRow(k, lines, cols) == LocalRow(k', lines, cols) &&
             LocalCol(k, lines, cols) < LocalCol(k', lines, cols))
  {
    var r, r' := LocalRow(k, lines, cols), LocalRow(k', lines, cols);
    FlatOfLocal(k, lines, cols);
    FlatOfLocal(k', lines, cols);
    if r' < r {
      MulMonotone(r' + 1, r, cols);
    }
  }

  /** `ReadAsArray(j, i, cols, lines).reshape(cols*lines)`: the window, row by row. */
  function ReadBlock(g: Grid, j: nat, i: nat, cols: nat, lines: nat): (s: seq<int>)
    requires Window(g, j, i, cols, lines)
    ensures |s| == lines * cols
  {
    seq(lines * cols, k requires 0 <= k < lines * cols =>
      g[i + LocalRow(k, lines, cols)][j + LocalCol(k, lines, cols)])
  }

  /** Entry k of the flattened read is the sample at the window's cell (LocalRow, LocalCol). */
  lemma ReadBlockAt(g: Grid, j: nat, i: nat, cols: nat, lines: nat, k: nat, r: nat, c: nat)
    requires Window(g, j, i, cols, lines) && k < lines * cols
    requires r == i + LocalRow(k, lines, cols) && c == j + LocalCol(k, lines, cols)
    ensures ReadBlock(g, j, i, cols, lines)[k] == g[r][c]
  {
  }

  /** `WriteArray(block.reshape(lines, cols), j, i)`: the window takes the block, the rest is kept. */
  function Paste(g: Grid, block: seq<int>, j: nat, i: nat, cols: nat, lines: nat): (h: Grid)
    requires Window(g, j, i, cols, lines) && |block| == lines * cols
    ensures |h| == |g|
    ensures forall r :: 0 <= r < |h| ==> |h[r]| == |g[r]|
    ensures forall r, c :: 0 <= r < |g| && 0 <= c < |g[r]| ==>
              h[r][c] == if i <= r < i + lines && j <= c < j + cols
                         then block[FlatIndex(r - i, c - j, lines, cols)]
                         else g[r][c]
  {
    seq(|g|, r requires 0 <= r < |g| =>
      if i <= r < i + lines then
        seq(|g[r]|, c requires 0 <= c < |g[r]| =>
          if j <= c < j + cols then block[FlatIndex(r - i, c - j, lines, cols)] else g[r][c])
      else g[r])
  }

  /** Reading back the window just written gives the block that was written. */
  lemma {:induction false} ReadAfterPaste(g: Grid, block: seq<int>, j: nat, i: nat, cols: nat, lines: nat)
    requires Window(g, j, i, cols, lines) && |block| == lines * cols
    ensures Window(Paste(g, block, j, i, cols, lines), j, i, cols, lines)
    ensures ReadBlock(Paste(g, block, j, i, cols, lines), j, i, cols, lines) == block
  {
    var h := Paste(g, block, j, i, cols, lines);
    var s := ReadBlock(h, j, i, cols, lines);
    forall k | 0 <= k < |s|
      ensures s[k] == block[k]
    {
      FlatOfLocal(k, lines, cols);
    }
  }

  /** The rows of a two-dimensional array, each as a sequence. */
  function Rows(a: array2<int>): (s: seq<seq<int>>)
    reads a
    ensures |s| == a.Length0
    ensures forall m :: 0 <= m < |s| ==>
              |s[m]| == a.Length1 && forall k :: 0 <= k < a.Length1 ==> s[m][k] == a[m, k]
  {
    seq(a.Length0, m requires 0 <= m < a.Length0 reads a =>
      seq(a.Length1, k requires 0 <= k < a.Length1 reads a => a[m, k]))
  }

  /** `where(s != 0)[0]`: the positions of the nonzero entries of s, in increasing order. */
  function NonZero(s: seq<int>): (t: seq<nat>)
    ensures forall m :: 0 <= m < |t| ==> t[m] < |s| && s[t[m]] != 0
    ensures forall m, m' :: 0 <= m < m' < |t| ==> t[m] < t[m']
  {
    if s == [] then []
    else
      var init := NonZero(s[..|s| - 1]);
      if s[|s| - 1] != 0 then init + [|s| - 1] else init
  }

  /** The nonzero positions of a prefix of s are a prefix of those of s. */
  lemma {:induction false} NonZeroPrefix(s: seq<int>, n: nat)
    requires n <= |s|
    ensures NonZero(s[..n]) <= NonZero(s)
    decreases |s|
  {
    if n < |s| {
      var init := s[..|s| - 1];
      assert init[..n] == s[..n];
      NonZeroPrefix(init, n);
    } else {
      assert s[..n] == s;
    }
  }

  /** Number of nonzero entries of s before position k. */
  function Rank(s: seq<int>, k: nat): nat
    requires k <= |s|
  {
    |NonZero(s[..k])|
  }

  /** Every nonzero entry is selected: entry k is the Rank(s, k)-th selected position,
      the row it occupies in `X[t,:]`. */
  lemma {:induction false} RankSelects(s: seq<int>, k: nat)
    requires k < |s| && s[k] != 0
    ensures Rank(s, k) < |NonZero(s)| && NonZero(s)[Rank(s, k)] == k
  {
    var upTo := s[..k + 1];
    assert upTo[..|upTo| - 1] == s[..k];
    assert NonZero(upTo) == NonZero(s[..k]) + [k];
    NonZeroPrefix(s, k + 1);
  }

  /** The q-th selected position has exactly q selected positions before it. */
  lemma RankOfSelected(s: seq<int>)
    ensures forall q :: 0 <= q < |NonZero(s)| ==> Rank(s, NonZero(s)[q]) == q
  {
    var t := NonZero(s);
    forall q | 0 <= q < |t|
      ensures Rank(s, t[q]) == q
    {
      RankSelects(s, t[q]);
    }
  }

  /** With no zero entry, every position is selected. */
  lemma {:induction false} NonZeroAll(s: seq<int>)
    requires forall k :: 0 <= k < |s| ==> s[k] != 0
    ensures NonZero(s) == seq(|s|, k requires 0 <= k < |s| => k)
    decreases |s|
  {
    if s != [] {
      NonZeroAll(s[..|s| - 1]);
    }
  }

  /** The selection depends only on which entries are zero. */
  lemma {:induction false} NonZeroSamePattern(s: seq<int>, s': seq<int>)
    requires |s| == |s'|
    requires forall k :: 0 <= k < |s| ==> (s[k] == 0 <==> s'[k] == 0)
    ensures NonZero(s) == NonZero(s')
    decreases |s|
  {
    if s != [] {
      NonZeroSamePattern(s[..|s| - 1], s'[..|s'| - 1]);
    }
  }
}
