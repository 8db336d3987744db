/** get_samples_from_roi: walk the raster in tiles of its native block size,
    keep the pixels whose ROI value is nonzero, and append their labels to Y
    and their band vectors to X in lock-step. */
module SampleExtractor {
  import opened Results
  import opened Grids
  import opened Tiling
  import opened RasterIO

  /** A pixel position: row (line) and column of the full raster. */
  datatype Cell = Cell(row: nat, col: nat)

  /** X holds one row of d band values per retained pixel, Y its label. */
  datatype Samples = Samples(x: seq<seq<int>>, y: seq<int>)

  /** `astype('uint8')` of an integer label: wrap-around modulo 256. */
  function U8(v: int): (b: int)
    ensures 0 <= b < 256 && (v - b) % 256 == 0
  {
    v % 256
  }

  /** `nonzero(ROI)` for the tile at column j, row i: the pixels of the tile whose ROI
      value is nonzero, in row-major order, as positions of the full raster. */
  function TileCells(roi: Grid, j: nat, i: nat, cols: nat, lines: nat): seq<Cell>
    requires Window(roi, j, i, cols, lines)
  {
    var t := NonZero(ReadBlock(roi, j, i, cols, lines));
    seq(|t|, m requires 0 <= m < |t| =>
      Cell(i + LocalRow(t[m], lines, cols), j + LocalCol(t[m], lines, cols)))
  }

  /** Retained pixels of the tile row at offset i (height lines), over the column
      offsets `range(from, nc, bw)`, tile after tile. */
  function RowCells(roi: Grid, nc: nat, bw: nat, i: nat, lines: nat, from: nat): seq<Cell>
    requires 0 < bw && Window(roi, 0, i, nc, lines)
    decreases nc - from
  {
    if from < nc then
      TileCells(roi, from, i, Extent(nc, bw, from), lines) + RowCells(roi, nc, bw, i, lines, from + bw)
    else []
  }

  /** Retained pixels of the tile rows at offsets `range(from, nl, bh)`, row after row. */
  function ImageCells(roi: Grid, nl: nat, nc: nat, bh: nat, bw: nat, from: nat): seq<Cell>
    requires 0 < bh && 0 < bw && Shaped(roi, nl, nc)
    decreases nl - from
  {
    if from < nl then
      RowCells(roi, nc, bw, from, Extent(nl, bh, from), 0) + ImageCells(roi, nl, nc, bh, bw, from + bh)
    else []
  }

  /** Every cell of `cells` lies in rows [rowLo, rowHi) and columns [colLo, colHi) of roi
      and has a nonzero ROI value. */
  predicate Selects(roi: Grid, cells: seq<Cell>, rowLo: nat, rowHi: nat, colLo: nat, colHi: nat)
  {
    forall m :: 0 <= m < |cells| ==>
      rowLo <= cells[m].row < rowHi && colLo <= cells[m].col < colHi &&
      cells[m].row < |roi| && cells[m].col < |roi[cells[m].row]| && roi[cells[m].row][cells[m].col] != 0
  }

  /** No pixel is listed twice. */
  predicate Distinct(cells: seq<Cell>)
  {
    forall m, m' :: 0 <= m < m' < |cells| ==> cells[m] != cells[m']
  }

  lemma SelectsAppend(roi: Grid, a: seq<Cell>, b: seq<Cell>, rowLo: nat, rowHi: nat, colLo: nat, colHi: nat)
    requires Selects(roi, a, rowLo, rowHi, colLo, colHi) && Selects(roi, b, rowLo, rowHi, colLo, colHi)
    ensures Selects(roi, a + b, rowLo, rowHi, colLo, colHi)
  {
    forall m | 0 <= m < |a + b|
      ensures (a + b)[m] == if m < |a| then a[m] else b[m - |a|]
    {
    }
  }

  /** Concatenating two duplicate-free lists of which the first lies in columns (or rows)
      before the second gives a duplicate-free list. */
  lemma DistinctAppend(a: seq<Cell>, b: seq<Cell>, byRow: bool, split: nat)
    requires Distinct(a) && Distinct(b)
    requires forall m :: 0 <= m < |a| ==> (if byRow then a[m].row else a[m].col) < split
    requires forall m :: 0 <= m < |b| ==> split <= (if byRow then b[m].row else b[m].col)
    ensures Distinct(a + b)
  {
    forall m, m' | 0 <= m < m' < |a + b|
      ensures (a + b)[m] != (a + b)[m']
    {
      if m' < |a| {
        assert (a + b)[m] == a[m] && (a + b)[m'] == a[m'];
      } else if |a| <= m {
        assert (a + b)[m] == b[m - |a|] && (a + b)[m'] == b[m' - |a|];
      } else {
        assert (a + b)[m] == a[m] && (a + b)[m'] == b[m' - |a|];
      }
    }
  }

  /** The pixels a tile retains lie in the tile and have a nonzero ROI value. */
  lemma TileCellsSound(roi: Grid, j: nat, i: nat, cols: nat, lines: nat)
    requires Window(roi, j, i, cols, lines)
    ensures Selects(roi, TileCells(roi, j, i, cols, lines), i, i + lines, j, j + cols)
  {
  }

  /** The nonzero pixels of a tile come out once each. */
  lemma TileCellsDistinct(roi: Grid, j: nat, i: nat, cols: nat, lines: nat)
    requires Window(roi, j, i, cols, lines)
    ensures Distinct(TileCells(roi, j, i, cols, lines))
  {
    var t := NonZero(ReadBlock(roi, j, i, cols, lines));
    var cells := TileCells(roi, j, i, cols, lines);
    forall m, m' | 0 <= m < m' < |cells|
      ensures cells[m] != cells[m']
    {
      FlatOfLocal(t[m], lines, cols);
      FlatOfLocal(t[m'], lines, cols);
    }
  }

  /** Every nonzero pixel of a tile comes out of it. */
  lemma TileCellsComplete(roi: Grid, j: nat, i: nat, cols: nat, lines: nat, r: nat, c: nat)
    requires Window(roi, j, i, cols, lines)
    requires i <= r < i + lines && j <= c < j + cols && roi[r][c] != 0
    ensures Cell(r, c) in TileCells(roi, j, i, cols, lines)
  {
    var s := ReadBlock(roi, j, i, cols, lines);
    var k := FlatIndex(r - i, c - j, lines, cols);
    assert s[k] == roi[r][c];
    RankSelects(s, k);
    assert TileCells(roi, j, i, cols, lines)[Rank(s, k)] == Cell(r, c);
  }

  lemma {:induction false} RowCellsSound(roi: Grid, nc: nat, bw: nat, i: nat, lines: nat, from: nat)
    requires 0 < bw && Window(roi, 0, i, nc, lines)
    ensures Selects(roi, RowCells(roi, nc, bw, i, lines, from), i, i + lines, from, nc)
    ensures Distinct(RowCells(roi, nc, bw, i, lines, from))
    decreases nc - from
  {
    if from < nc {
      var cols := Extent(nc, bw, from);
      var tile := TileCells(roi, from, i, cols, lines);
      var rest := RowCells(roi, nc, bw, i, lines, from + bw);
      RowCellsSound(roi, nc, bw, i, lines, from + bw);
      TileCellsSound(roi, from, i, cols, lines);
      SelectsAppend(roi, tile, rest, i, i + lines, from, nc);
      TileCellsDistinct(roi, from, i, cols, lines);
      DistinctAppend(tile, rest, false, from + bw);
    }
  }

  lemma {:induction false} RowCellsComplete(roi: Grid, nc: nat, bw: nat, i: nat, lines: nat, from: nat, r: nat, c: nat)
    requires 0 < bw && Window(roi, 0, i, nc, lines)
    requires i <= r < i + lines && from <= c < nc && roi[r][c] != 0
    ensures Cell(r, c) in RowCells(roi, nc, bw, i, lines, from)
    decreases nc - from
  {
    var cols := Extent(nc, bw, from);
    var tile := TileCells(roi, from, i, cols, lines);
    var rest := RowCells(roi, nc, bw, i, lines, from + bw);
    assert RowCells(roi, nc, bw, i, lines, from) == tile + rest;
    if c < from + bw {
      TileCellsComplete(roi, from, i, cols, lines, r, c);
    } else {
      RowCellsComplete(roi, nc, bw, i, lines, from + bw, r, c);
    }
  }

  lemma {:induction false} ImageCellsSound(roi: Grid, nl: nat, nc: nat, bh: nat, bw: nat, from: nat)
    requires 0 < bh && 0 < bw && Shaped(roi, nl, nc)
    ensures Selects(roi, ImageCells(roi, nl, nc, bh, bw, from), from, nl, 0, nc)
    ensures Distinct(ImageCells(roi, nl, nc, bh, bw, from))
    decreases nl - from
  {
    if from < nl {
      var lines := Extent(nl, bh, from);
      var row := RowCells(roi, nc, bw, from, lines, 0);
      var rest := ImageCells(roi, nl, nc, bh, bw, from + bh);
      RowCellsSound(roi, nc, bw, from, lines, 0);
      ImageCellsSound(roi, nl, nc, bh, bw, from + bh);
      SelectsAppend(roi, row, rest, from, nl, 0, nc);
      DistinctAppend(row, rest, true, from + bh);
    }
  }

  lemma {:induction false} ImageCellsComplete(roi: Grid, nl: nat, nc: nat, bh: nat, bw: nat, from: nat, r: nat, c: nat)
    requires 0 < bh && 0 < bw && Shaped(roi, nl, nc)
    requires from <= r < nl && c < nc && roi[r][c] != 0
    ensures Cell(r, c) in ImageCells(roi, nl, nc, bh, bw, from)
    decreases nl - from
  {
    var lines := Extent(nl, bh, from);
    var row := RowCells(roi, nc, bw, from, lines, 0);
    var rest := ImageCells(roi, nl, nc, bh, bw, from + bh);
    assert ImageCells(roi, nl, nc, bh, bw, from) == row + rest;
    if r < from + bh {
      RowCellsComplete(roi, nc, bw, from, lines, 0, r, c);
    } else {
      ImageCellsComplete(roi, nl, nc, bh, bw, from + bh, r, c);
    }
  }

  predicate CoRegistered(raster: Raster, roi: Raster)
  {
    raster.Valid() && roi.Valid() && raster.width == roi.width && raster.height == roi.height
  }

  /** Every pixel the whole traversal retains, in the order it retains them. */
  function RetainedCells(raster: Raster, roi: Raster): (cells: seq<Cell>)
    requires CoRegistered(raster, roi)
    ensures InBounds(cells, raster.height, raster.width)
  {
    ImageCellsSound(roi.bands[0], raster.height, raster.width, raster.blockHeight, raster.blockWidth, 0);
    ImageCells(roi.bands[0], raster.height, raster.width, raster.blockHeight, raster.blockWidth, 0)
  }

  /** The tiled traversal visits the image exactly: a pixel is retained if and only if
      its ROI value is nonzero, and none is retained twice. */
  lemma RetainedCellsExact(raster: Raster, roi: Raster)
    requires CoRegistered(raster, roi)
    ensures forall cell: Cell :: cell in RetainedCells(raster, roi) <==>
              cell.row < raster.height && cell.col < raster.width && roi.bands[0][cell.row][cell.col] != 0
    ensures Distinct(RetainedCells(raster, roi))
  {
    var g := roi.bands[0];
    ImageCellsSound(g, raster.height, raster.width, raster.blockHeight, raster.blockWidth, 0);
    forall cell: Cell | cell.row < raster.height && cell.col < raster.width && g[cell.row][cell.col] != 0
      ensures cell in RetainedCells(raster, roi)
    {
      ImageCellsComplete(g, raster.height, raster.width, raster.blockHeight, raster.blockWidth, 0, cell.row, cell.col);
    }
  }

  predicate InBounds(cells: seq<Cell>, height: nat, width: nat)
  {
    forall m :: 0 <= m < |cells| ==> cells[m].row < height && cells[m].col < width
  }

  /** The d band values of one pixel: band b + 1 in column b. */
  function PixelValues(raster: Raster, cell: Cell): (v: seq<int>)
    requires raster.Valid() && cell.row < raster.height && cell.col < raster.width
    ensures |v| == |raster.bands|
    ensures forall b :: 0 <= b < |v| ==> v[b] == raster.bands[b][cell.row][cell.col]
  {
    seq(|raster.bands|, b requires 0 <= b < |raster.bands| => raster.bands[b][cell.row][cell.col])
  }

  function SampleMatrix(raster: Raster, cells: seq<Cell>): (x: seq<seq<int>>)
    requires raster.Valid() && InBounds(cells, raster.height, raster.width)
    ensures |x| == |cells|
  {
    seq(|cells|, m requires 0 <= m < |cells| => PixelValues(raster, cells[m]))
  }

  function LabelVector(roi: Raster, cells: seq<Cell>): (y: seq<int>)
    requires roi.Valid() && InBounds(cells, roi.height, roi.width)
    ensures |y| == |cells|
  {
    seq(|cells|, m requires 0 <= m < |cells| => U8(roi.bands[0][cells[m].row][cells[m].col]))
  }

  /** What get_samples_from_roi returns, as written: the open and size checks in the
      order the code makes them, then the samples, except that a traversal that
      retains nothing fails (Xtp and band are deleted without ever being bound). */
  function SampleExtraction(rasterFile: Option<Raster>, roiFile: Option<Raster>): (r: Result<Samples>)
    requires Opened(rasterFile) && Opened(roiFile)
    ensures rasterFile.None? ==> r == Err(OpenFailed(RasterFile))
    ensures rasterFile.Some? && roiFile.None? ==> r == Err(OpenFailed(RoiFile))
    ensures rasterFile.Some? && roiFile.Some? ==>
              (r == Err(SizeMismatch) <==> !CoRegistered(rasterFile.value, roiFile.value))
    ensures r.Ok? ==> |r.value.x| == |r.value.y| > 0
    ensures r.Ok? ==> rasterFile.Some? && forall k :: 0 <= k < |r.value.x| ==>
              |r.value.x[k]| == |rasterFile.value.bands| && 0 <= r.value.y[k] < 256
  {
    if rasterFile.None? then Err(OpenFailed(RasterFile))
    else if roiFile.None? then Err(OpenFailed(RoiFile))
    else if !CoRegistered(rasterFile.value, roiFile.value) then Err(SizeMismatch)
    else
      var raster, roi := rasterFile.value, roiFile.value;
      var cells := RetainedCells(raster, roi);
      if |cells| == 0 then Err(NoSamples)
      else Ok(Samples(SampleMatrix(raster, cells), LabelVector(roi, cells)))
  }

  /** X and Y hold exactly the samples of the pixels in cells, and `found` says whether
      there are any. */
  predicate Gathered(raster: Raster, roi: Raster, cells: seq<Cell>, found: bool, x: seq<seq<int>>, y: seq<int>)
  {
    CoRegistered(raster, roi) && InBounds(cells, raster.height, raster.width) &&
    x == SampleMatrix(raster, cells) && y == LabelVector(roi, cells) &&
    (found <==> |cells| > 0)
  }

  /** Appending the samples of b, when there are any, to those of a gathers a + b. */
  lemma GatheredAppend(raster: Raster, roi: Raster, a: seq<Cell>, fa: bool, xa: seq<seq<int>>, ya: seq<int>,
                       b: seq<Cell>, fb: bool, xb: seq<seq<int>>, yb: seq<int>)
    requires Gathered(raster, roi, a, fa, xa, ya) && Gathered(raster, roi, b, fb, xb, yb)
    ensures Gathered(raster, roi, a + b, fa || fb, if fb then xa + xb else xa, if fb then ya + yb else ya)
  {
    if fb {
      SampleMatrixAppend(raster, a, b);
      LabelVectorAppend(roi, a, b);
    } else {
      assert a + b == a;
    }
  }

  lemma SampleMatrixAppend(raster: Raster, a: seq<Cell>, b: seq<Cell>)
    requires raster.Valid() && InBounds(a, raster.height, raster.width) && InBounds(b, raster.height, raster.width)
    ensures InBounds(a + b, raster.height, raster.width)
    ensures SampleMatrix(raster, a + b) == SampleMatrix(raster, a) + SampleMatrix(raster, b)
  {
    assert forall m :: 0 <= m < |a + b| ==> (a + b)[m] == if m < |a| then a[m] else b[m - |a|];
  }

  lemma LabelVectorAppend(roi: Raster, a: seq<Cell>, b: seq<Cell>)
    requires roi.Valid() && InBounds(a, roi.height, roi.width) && InBounds(b, roi.height, roi.width)
    ensures InBounds(a + b, roi.height, roi.width)
    ensures LabelVector(roi, a + b) == LabelVector(roi, a) + LabelVector(roi, b)
  {
    assert forall m :: 0 <= m < |a + b| ==> (a + b)[m] == if m < |a| then a[m] else b[m - |a|];
  }

  /** `Xtp[:, k] = band.reshape(cols*lines)[t]` for every band k of the raster: row m of
      Xtp holds the d band values of the tile's flat position t[m]. */
  method FillXtp(raster: Raster, j: nat, i: nat, cols: nat, lines: nat, t: seq<nat>) returns (Xtp: array2<int>)
    requires raster.Valid() && i + lines <= raster.height && j + cols <= raster.width
    requires forall m :: 0 <= m < |t| ==> t[m] < lines * cols
    ensures fresh(Xtp) && Xtp.Length0 == |t| && Xtp.Length1 == |raster.bands|
    ensures forall m, b :: 0 <= m < |t| && 0 <= b < |raster.bands| ==>
              Xtp[m, b] == raster.bands[b][i + LocalRow(t[m], lines, cols)][j + LocalCol(t[m], lines, cols)]
  {
    var d := |raster.bands|;
    Xtp := new int[|t|, d];
    for k := 0 to d
      invariant forall m, b :: 0 <= m < |t| && 0 <= b < k ==>
                  Xtp[m, b] == raster.bands[b][i + LocalRow(t[m], lines, cols)][j + LocalCol(t[m], lines, cols)]
    {
      var band := ReadBlock(raster.bands[k], j, i, cols, lines);
      forall m | 0 <= m < |t| {
        Xtp[m, k] := band[t[m]];
      }
    }
  }

  /** get_samples_from_roi fails at `del Xtp` exactly when the ROI band is zero everywhere. */
  lemma NoSamplesIffEmptyRoi(raster: Raster, roi: Raster)
    requires CoRegistered(raster, roi)
    ensures SampleExtraction(Some(raster), Some(roi)) == Err(NoSamples) <==>
            forall r, c :: 0 <= r < raster.height && 0 <= c < raster.width ==> roi.bands[0][r][c] == 0
  {
    RetainedCellsExact(raster, roi);
    var cells := RetainedCells(raster, roi);
    if |cells| > 0 {
      assert cells[0] in cells;
    } else {
      forall r, c | 0 <= r < raster.height && 0 <= c < raster.width
        ensures roi.bands[0][r][c] == 0
      {
        assert Cell(r, c) !in cells;
      }
    }
  }

  /** Every pixel with a nonzero ROI value contributes one sample: its band vector in X
      and its ROI value, wrapped to uint8, in Y at the same position. */
  lemma SampleOfEveryRoiPixel(raster: Raster, roi: Raster, r: nat, c: nat)
    requires CoRegistered(raster, roi) && r < raster.height && c < raster.width
    requires roi.bands[0][r][c] != 0
    ensures SampleExtraction(Some(raster), Some(roi)).Ok?
    ensures var s := SampleExtraction(Some(raster), Some(roi)).value;
            exists k :: 0 <= k < |s.y| && s.x[k] == PixelValues(raster, Cell(r, c)) &&
                        s.y[k] == U8(roi.bands[0][r][c])
  {
    RetainedCellsExact(raster, roi);
    var cells := RetainedCells(raster, roi);
    assert Cell(r, c) in cells;
    var k :| 0 <= k < |cells| && cells[k] == Cell(r, c);
    var s := SampleExtraction(Some(raster), Some(roi)).value;
    assert s.x[k] == PixelValues(raster, Cell(r, c)) && s.y[k] == U8(roi.bands[0][r][c]);
  }

  /** Every sample comes from a pixel with a nonzero ROI value, and no pixel gives two. */
  lemma EverySampleFromRoiPixel(raster: Raster, roi: Raster, k: nat)
    requires CoRegistered(raster, roi) && SampleExtraction(Some(raster), Some(roi)).Ok?
    requires k < |SampleExtraction(Some(raster), Some(roi)).value.y|
    ensures var s := SampleExtraction(Some(raster), Some(roi)).value;
            var cell := RetainedCells(raster, roi)[k];
            cell.row < raster.height && cell.col < raster.width && roi.bands[0][cell.row][cell.col] != 0 &&
            s.x[k] == PixelValues(raster, cell) && s.y[k] == U8(roi.bands[0][cell.row][cell.col]) &&
            forall k' :: 0 <= k' < |s.y| && k' != k ==> RetainedCells(raster, roi)[k'] != cell
  {
    RetainedCellsExact(raster, roi);
    var cells := RetainedCells(raster, roi);
    assert cells[k] in cells;
  }

  /** The body of the inner loop of get_samples_from_roi for the tile at column j, row i:
      read the ROI tile, find its nonzero pixels and, when there are some, gather their
      labels and (band by band, into the array Xtp) their band values. */
  method TileSamples(raster: Raster, roi: Raster, j: nat, i: nat, cols: nat, lines: nat)
    returns (found: bool, xs: seq<seq<int>>, ys: seq<int>)
    requires CoRegistered(raster, roi)
    requires i + lines <= raster.height && j + cols <= raster.width
    ensures Gathered(raster, roi, TileCells(roi.bands[0], j, i, cols, lines), found, xs, ys)
  {
    ghost var tile := TileCells(roi.bands[0], j, i, cols, lines);
    TileCellsSound(roi.bands[0], j, i, cols, lines);
    var roiBlock := ReadBlock(roi.bands[0], j, i, cols, lines);
    var t := NonZero(roiBlock);
    found := |t| > 0;
    if !found {
      return false, [], [];
    }
    ys := seq(|t|, m requires 0 <= m < |t| => U8(roiBlock[t[m]]));
    var Xtp := FillXtp(raster, j, i, cols, lines, t);
    xs := Rows(Xtp);
    forall m | 0 <= m < |t|
      ensures xs[m] == PixelValues(raster, tile[m])
    {
    }
  }

  lemma ConcatAssoc(a: seq<Cell>, b: seq<Cell>, c: seq<Cell>)
    ensures (a + b) + c == a + (b + c)
  {
  }

  /** The first tile of the column offsets `range(j, nc, bw)`, then the rest. */
  lemma RowCellsStep(roi: Grid, nc: nat, bw: nat, i: nat, lines: nat, j: nat)
    requires 0 < bw && Window(roi, 0, i, nc, lines) && j < nc
    ensures RowCells(roi, nc, bw, i, lines, j) ==
            TileCells(roi, j, i, Extent(nc, bw, j), lines) + RowCells(roi, nc, bw, i, lines, j + bw)
  {
  }

  /** The first tile row of the row offsets `range(i, nl, bh)`, then the rest. */
  lemma ImageCellsStep(roi: Grid, nl: nat, nc: nat, bh: nat, bw: nat, i: nat)
    requires 0 < bh && 0 < bw && Shaped(roi, nl, nc) && i < nl
    ensures Window(roi, 0, i, nc, Extent(nl, bh, i))
    ensures ImageCells(roi, nl, nc, bh, bw, i) ==
            RowCells(roi, nc, bw, i, Extent(nl, bh, i), 0) + ImageCells(roi, nl, nc, bh, bw, i + bh)
  {
  }

  /** One pass of the inner loop: the cells gathered so far followed by those of the
      remaining column offsets stay the cells of the whole tile row. */
  lemma RowCellsAdvance(roi: Grid, nc: nat, bw: nat, i: nat, lines: nat, j: nat, cols: nat, next: nat,
                        done: seq<Cell>, all: seq<Cell>)
    requires 0 < bw && Window(roi, 0, i, nc, lines) && j < nc
    requires cols == (if j + bw < nc then bw else nc - j) && next == j + bw
    requires done + RowCells(roi, nc, bw, i, lines, j) == all
    ensures (done + TileCells(roi, j, i, cols, lines)) + RowCells(roi, nc, bw, i, lines, next) == all
  {
    RowCellsStep(roi, nc, bw, i, lines, j);
    ConcatAssoc(done, TileCells(roi, j, i, cols, lines), RowCells(roi, nc, bw, i, lines, next));
  }

  /** One pass of the outer loop, likewise for the tile rows. */
  lemma ImageCellsAdvance(roi: Grid, nl: nat, nc: nat, bh: nat, bw: nat, i: nat, lines: nat, next: nat,
                          done: seq<Cell>, all: seq<Cell>)
    requires 0 < bh && 0 < bw && Shaped(roi, nl, nc) && i < nl
    requires lines == (if i + bh < nl then bh else nl - i) && next == i + bh
    requires done + ImageCells(roi, nl, nc, bh, bw, i) == all
    ensures Window(roi, 0, i, nc, lines)
    ensures (done + RowCells(roi, nc, bw, i, lines, 0)) + ImageCells(roi, nl, nc, bh, bw, next) == all
  {
    ImageCellsStep(roi, nl, nc, bh, bw, i);
    ConcatAssoc(done, RowCells(roi, nc, bw, i, lines, 0), ImageCells(roi, nl, nc, bh, bw, next));
  }

  /** The inner loop of get_samples_from_roi over the tile row at offset i: the tiles
      at the column offsets `range(0, nc, bw)`, each appending its samples to X and Y. */
  method RowSamples(raster: Raster, roi: Raster, i: nat, lines: nat)
    returns (found: bool, xs: seq<seq<int>>, ys: seq<int>)
    requires CoRegistered(raster, roi) && i + lines <= raster.height
    ensures Window(roi.bands[0], 0, i, raster.width, lines)
    ensures Gathered(raster, roi, RowCells(roi.bands[0], raster.width, raster.blockWidth, i, lines, 0), found, xs, ys)
  {
    var bw, nc := raster.blockWidth, raster.width;
    ghost var roiBand := roi.bands[0];
    assert Window(roiBand, 0, i, nc, lines);
    ghost var all := RowCells(roiBand, nc, bw, i, lines, 0);
    found, xs, ys := false, [], [];
    ghost var done: seq<Cell> := [];
    var j: nat := 0;
    while j < nc
      invariant done + RowCells(roiBand, nc, bw, i, lines, j) == all
      invariant Gathered(raster, roi, done, found, xs, ys)
    {
      var cols := if j + bw < nc then bw else nc - j;
      ghost var tile := TileCells(roiBand, j, i, cols, lines);
      var next := j + bw;
      RowCellsAdvance(roiBand, nc, bw, i, lines, j, cols, next, done, all);
      var tileFound, tileXs, tileYs := TileSamples(raster, roi, j, i, cols, lines);
      GatheredAppend(raster, roi, done, found, xs, ys, tile, tileFound, tileXs, tileYs);
      if tileFound {
        ys := ys + tileYs;
        xs := xs + tileXs;
        found := true;
      }
      done := done + tile;
      j := next;
    }
    assert done == all;
  }

  /** get_samples_from_roi (rasters.py:121-201). */
  method GetSamplesFromRoi(rasterFile: Option<Raster>, roiFile: Option<Raster>) returns (r: Result<Samples>)
    requires Opened(rasterFile) && Opened(roiFile)
    ensures r == SampleExtraction(rasterFile, roiFile)
  {
    if rasterFile.None? {
      return Err(OpenFailed(RasterFile));
    }
    if roiFile.None? {
      return Err(OpenFailed(RoiFile));
    }
    var raster, roi := rasterFile.value, roiFile.value;
    if raster.width != roi.width || raster.height != roi.height {
      return Err(SizeMismatch);
    }
    var bw, bh := raster.blockWidth, raster.blockHeight;
    var nc, nl := raster.width, raster.height;
    ghost var roiBand := roi.bands[0];
    ghost var all := RetainedCells(raster, roi);

    var X: seq<seq<int>> := [];
    var Y: seq<int> := [];
    // Whether `Xtp = sp.empty(...)` has run, binding the names deleted after the loops.
    var xtpBound := false;
    ghost var cells: seq<Cell> := [];
    var i: nat := 0;
    while i < nl
      invariant cells + ImageCells(roiBand, nl, nc, bh, bw, i) == all
      invariant Gathered(raster, roi, cells, xtpBound, X, Y)
    {
      var lines := if i + bh < nl then bh else nl - i;
      var next := i + bh;
      ImageCellsAdvance(roiBand, nl, nc, bh, bw, i, lines, next, cells, all);
      ghost var row := RowCells(roiBand, nc, bw, i, lines, 0);
      var found, xs, ys := RowSamples(raster, roi, i, lines);
      GatheredAppend(raster, roi, cells, xtpBound, X, Y, row, found, xs, ys);
      if found {
        Y := Y + ys;
        X := X + xs;
        xtpBound := true;
      }
      cells := cells + row;
      i := next;
    }
    assert cells == all;
    if !xtpBound {
      return Err(NoSamples);
    }
    return Ok(Samples(X, Y));
  }
}
