/** smooth_image: smooth the time series of every pixel of a multi-band raster
    (one band per date), tile by tile on the raster's native blocks, with weights
    taken from a co-registered mask, and write a GeoTIFF with one Float64 band
    per date. The smoother itself (a Whittaker filter) is a parameter. */
module TiledSmoother {
  import opened Results
  import opened Grids
  import opened Tiling
  import opened DataTypes
  import opened RasterIO

  /** `sm.Whittaker(x=x, t=t, w=w, order=order).smooth(l)`: the smoothed series of one
      pixel from its series x, the dates t, the weights w, the order and the penalty l. */
  type Smoother = (seq<int>, Dates, seq<int>, nat, real) -> seq<int>

  /** `t`: the acquisition date of each band. */
  type Dates = seq<int>

  /** The order every call uses. */
  const Order: nat := 2

  /** `Xf[ind,:] = smoother.smooth(l)` needs one value per date. */
  ghost predicate KeepsLength(smooth: Smoother)
  {
    forall x, t, w, order, l :: |smooth(x, t, w, order, l)| == |x|
  }

  /** `M[M>0] = 1`: every positive mask value becomes 1, the others are kept. */
  function Binarise(v: int): (b: int)
    ensures v > 0 ==> b == 1
    ensures v <= 0 ==> b == v
    ensures b <= 1
    ensures Binarise(b) == b
  {
    if v > 0 then 1 else v
  }

  /** The raster and the mask agree on width, height and band count. */
  predicate Compatible(raster: Raster, mask: Raster)
  {
    raster.Valid() && mask.Valid() && raster.width == mask.width && raster.height == mask.height &&
    |raster.bands| == |mask.bands|
  }

  /** `X[ind,:]`: the values of pixel (r, col) on every date. */
  function Series(raster: Raster, r: nat, col: nat): (x: seq<int>)
    requires raster.Valid() && r < raster.height && col < raster.width
    ensures |x| == |raster.bands|
  {
    seq(|raster.bands|, b requires 0 <= b < |raster.bands| => raster.bands[b][r][col])
  }

  /** `1 - M[ind,:]` after binarising: a date whose mask value is positive weighs 0,
      one whose mask value is 0 weighs 1, and a negative mask value v weighs 1 - v. */
  function Weights(raster: Raster, mask: Raster, r: nat, col: nat): (w: seq<int>)
    requires Compatible(raster, mask) && r < raster.height && col < raster.width
    ensures |w| == |raster.bands|
    ensures forall b :: 0 <= b < |w| ==>
              (mask.bands[b][r][col] > 0 ==> w[b] == 0) &&
              (mask.bands[b][r][col] <= 0 ==> w[b] == 1 - mask.bands[b][r][col]) &&
              w[b] >= 0
  {
    seq(|mask.bands|, b requires 0 <= b < |mask.bands| => 1 - Binarise(mask.bands[b][r][col]))
  }

  /** The row of Xf for pixel (r, col): its smoothed series. */
  function SmoothedPixel(raster: Raster, mask: Raster, smooth: Smoother, t: Dates, l: real,
                         r: nat, col: nat): (v: seq<int>)
    requires Compatible(raster, mask) && KeepsLength(smooth)
    requires r < raster.height && col < raster.width
    ensures |v| == |raster.bands|
  {
    smooth(Series(raster, r, col), t, Weights(raster, mask, r, col), Order, l)
  }

  /** The output bands: band b holds entry b of every pixel's smoothed series. */
  function Smoothing(raster: Raster, mask: Raster, smooth: Smoother, t: Dates, l: real): (bands: seq<Grid>)
    requires Compatible(raster, mask) && KeepsLength(smooth)
    ensures |bands| == |raster.bands|
    ensures forall b :: 0 <= b < |bands| ==>
              Shaped(bands[b], raster.height, raster.width) &&
              forall r, col :: 0 <= r < raster.height && 0 <= col < raster.width ==>
                bands[b][r][col] == SmoothedPixel(raster, mask, smooth, t, l, r, col)[b]
  {
    seq(|raster.bands|, b requires 0 <= b < |raster.bands| =>
      seq(raster.height, r requires 0 <= r < raster.height =>
        seq(raster.width, col requires 0 <= col < raster.width =>
          SmoothedPixel(raster, mask, smooth, t, l, r, col)[b])))
  }

  /** What smooth_image leaves in the output bands, or why it stops. A mask that fails to
      open is not caught (the check after opening it tests the raster again), so the size
      check looks up an attribute on None. */
  function SmoothingResult(rasterFile: Option<Raster>, maskFile: Option<Raster>,
                           smooth: Smoother, t: Dates, l: real): (r: Result<seq<Grid>>)
    requires Opened(rasterFile) && Opened(maskFile) && KeepsLength(smooth)
    ensures rasterFile.None? ==> r == Err(OpenFailed(RasterFile))
    ensures rasterFile.Some? && maskFile.None? ==> r == Err(NoneAttribute)
    ensures r.Err? && rasterFile.Some? && maskFile.Some? ==> r.error == SizeMismatch
    ensures rasterFile.Some? && maskFile.Some? ==> (r.Ok? <==> Compatible(rasterFile.value, maskFile.value))
    ensures r.Ok? ==> rasterFile.Some? && maskFile.Some? && Compatible(rasterFile.value, maskFile.value) &&
                      r.value == Smoothing(rasterFile.value, maskFile.value, smooth, t, l)
  {
    if rasterFile.None? then Err(OpenFailed(RasterFile))
    else if maskFile.None? then Err(NoneAttribute)
    else
      var raster, mask := rasterFile.value, maskFile.value;
      if raster.width != mask.width || raster.height != mask.height || |raster.bands| != |mask.bands| then
        Err(SizeMismatch)
      else Ok(Smoothing(raster, mask, smooth, t, l))
  }

  /** Only the binarised mask matters: masks that agree after `M[M>0] = 1` give the
      same output. */
  lemma SameBinarisedMaskSameOutput(raster: Raster, mask: Raster, mask': Raster,
                                    smooth: Smoother, t: Dates, l: real)
    requires Compatible(raster, mask) && Compatible(raster, mask') && KeepsLength(smooth)
    requires forall b, r, col :: 0 <= b < |raster.bands| && 0 <= r < raster.height && 0 <= col < raster.width ==>
               Binarise(mask.bands[b][r][col]) == Binarise(mask'.bands[b][r][col])
    ensures Smoothing(raster, mask, smooth, t, l) == Smoothing(raster, mask', smooth, t, l)
  {
    var s, s' := Smoothing(raster, mask, smooth, t, l), Smoothing(raster, mask', smooth, t, l);
    forall b, r, col | 0 <= b < |raster.bands| && 0 <= r < raster.height && 0 <= col < raster.width
      ensures s[b][r][col] == s'[b][r][col]
    {
      assert Weights(raster, mask, r, col) == Weights(raster, mask', r, col);
    }
    forall b | 0 <= b < |raster.bands|
      ensures s[b] == s'[b]
    {
      SameGrids(s[b], s'[b], raster.height, raster.width);
    }
  }

  /** A pixel whose mask is 0 on every date is smoothed with unit weights. */
  lemma UnmaskedPixelHasUnitWeights(raster: Raster, mask: Raster, r: nat, col: nat)
    requires Compatible(raster, mask) && r < raster.height && col < raster.width
    requires forall b :: 0 <= b < |mask.bands| ==> mask.bands[b][r][col] == 0
    ensures Weights(raster, mask, r, col) == seq(|raster.bands|, _ => 1)
  {
  }

  /** Xf for the tile at column j, row i: row k is the smoothed series of the tile's
      k-th pixel in row-major order. */
  function TileSmoothing(raster: Raster, mask: Raster, smooth: Smoother, t: Dates, l: real,
                         j: nat, i: nat, cols: nat, lines: nat): (xf: seq<seq<int>>)
    requires Compatible(raster, mask) && KeepsLength(smooth)
    requires i + lines <= raster.height && j + cols <= raster.width
    ensures |xf| == lines * cols
  {
    seq(lines * cols, k requires 0 <= k < lines * cols =>
      SmoothedPixel(raster, mask, smooth, t, l, i + LocalRow(k, lines, cols), j + LocalCol(k, lines, cols)))
  }

  /** `Xf[:,b]`: the block written to output band b + 1. */
  function TileBand(raster: Raster, mask: Raster, smooth: Smoother, t: Dates, l: real,
                    b: nat, j: nat, i: nat, cols: nat, lines: nat): (s: seq<int>)
    requires Compatible(raster, mask) && KeepsLength(smooth) && b < |raster.bands|
    requires i + lines <= raster.height && j + cols <= raster.width
    ensures |s| == lines * cols
  {
    var xf := TileSmoothing(raster, mask, smooth, t, l, j, i, cols, lines);
    seq(lines * cols, k requires 0 <= k < lines * cols => xf[k][b])
  }

  /** The pixel at (r, col) of the image sits at FlatIndex(r - i, col - j) of the tile's block. */
  lemma TileBandAt(raster: Raster, mask: Raster, smooth: Smoother, t: Dates, l: real,
                   b: nat, j: nat, i: nat, cols: nat, lines: nat, r: nat, col: nat)
    requires Compatible(raster, mask) && KeepsLength(smooth) && b < |raster.bands|
    requires i + lines <= raster.height && j + cols <= raster.width
    requires i <= r < i + lines && j <= col < j + cols
    ensures TileBand(raster, mask, smooth, t, l, b, j, i, cols, lines)[FlatIndex(r - i, col - j, lines, cols)] ==
            SmoothedPixel(raster, mask, smooth, t, l, r, col)[b]
  {
  }

  /** Output band b once every tile of the rows above rowsDone, and the tiles left of
      colEnd in the rows above rowEnd, are written: those pixels hold their smoothed
      value for date b, the others are still 0. */
  ghost predicate SmoothedUpTo(raster: Raster, mask: Raster, smooth: Smoother, t: Dates, l: real,
                               g: Grid, b: nat, rowsDone: nat, rowEnd: nat, colEnd: nat)
    requires Compatible(raster, mask) && KeepsLength(smooth) && b < |raster.bands|
  {
    Shaped(g, raster.height, raster.width) &&
    forall r, col :: 0 <= r < raster.height && 0 <= col < raster.width ==>
      g[r][col] == if r < rowsDone || (r < rowEnd && col < colEnd)
                   then SmoothedPixel(raster, mask, smooth, t, l, r, col)[b] else 0
  }

  /** Every output band has reached the same point of the traversal. */
  ghost predicate AllSmoothedUpTo(raster: Raster, mask: Raster, smooth: Smoother, t: Dates, l: real,
                                  bands: seq<Grid>, rowsDone: nat, rowEnd: nat, colEnd: nat)
    requires Compatible(raster, mask) && KeepsLength(smooth)
  {
    |bands| == |raster.bands| &&
    forall b :: 0 <= b < |bands| ==> SmoothedUpTo(raster, mask, smooth, t, l, bands[b], b, rowsDone, rowEnd, colEnd)
  }

  /** Writing `Xf[:,b]` at (j, i) into band b extends that band's smoothed region by the tile. */
  lemma {:induction false} BandTileWritten(raster: Raster, mask: Raster, smooth: Smoother, t: Dates, l: real,
                                           g: Grid, b: nat, i: nat, lines: nat, j: nat, cols: nat)
    requires Compatible(raster, mask) && KeepsLength(smooth) && b < |raster.bands|
    requires i + lines <= raster.height && j + cols <= raster.width
    requires SmoothedUpTo(raster, mask, smooth, t, l, g, b, i, i + lines, j)
    ensures Window(g, j, i, cols, lines)
    ensures SmoothedUpTo(raster, mask, smooth, t, l,
                         Paste(g, TileBand(raster, mask, smooth, t, l, b, j, i, cols, lines), j, i, cols, lines),
                         b, i, i + lines, j + cols)
  {
    var block := TileBand(raster, mask, smooth, t, l, b, j, i, cols, lines);
    var h := Paste(g, block, j, i, cols, lines);
    forall r, col | 0 <= r < raster.height && 0 <= col < raster.width
      ensures h[r][col] == if r < i || (r < i + lines && col < j + cols)
                           then SmoothedPixel(raster, mask, smooth, t, l, r, col)[b] else 0
    {
      if i <= r < i + lines && j <= col < j + cols {
        TileBandAt(raster, mask, smooth, t, l, b, j, i, cols, lines, r, col);
      }
    }
  }

  /** Once the column loop has passed the right edge, the row of tiles is smoothed in every band. */
  lemma RowOfTilesDone(raster: Raster, mask: Raster, smooth: Smoother, t: Dates, l: real,
                       bands: seq<Grid>, i: nat, lines: nat, j: nat)
    requires Compatible(raster, mask) && KeepsLength(smooth)
    requires i < raster.height && lines == Extent(raster.height, raster.blockHeight, i) && raster.width <= j
    requires AllSmoothedUpTo(raster, mask, smooth, t, l, bands, i, i + lines, j)
    ensures AllSmoothedUpTo(raster, mask, smooth, t, l, bands, i + raster.blockHeight, i + raster.blockHeight, 0)
  {
    forall b | 0 <= b < |bands|
      ensures SmoothedUpTo(raster, mask, smooth, t, l, bands[b], b, i + raster.blockHeight, i + raster.blockHeight, 0)
    {
      assert SmoothedUpTo(raster, mask, smooth, t, l, bands[b], b, i, i + lines, j);
    }
  }

  /** `X` and `M` for the tile at (j, i), filled column by column from the raster's and the
      mask's bands, then `M[M>0] = 1` in place. */
  method ReadTile(raster: Raster, mask: Raster, j: nat, i: nat, cols: nat, lines: nat)
    returns (X: array2<int>, M: array2<int>)
    requires Compatible(raster, mask)
    requires i + lines <= raster.height && j + cols <= raster.width
    ensures fresh(X) && fresh(M)
    ensures X.Length0 == lines * cols && X.Length1 == |raster.bands|
    ensures M.Length0 == lines * cols && M.Length1 == |raster.bands|
    ensures forall k, b :: 0 <= k < lines * cols && 0 <= b < |raster.bands| ==>
              X[k, b] == raster.bands[b][i + LocalRow(k, lines, cols)][j + LocalCol(k, lines, cols)] &&
              M[k, b] == Binarise(mask.bands[b][i + LocalRow(k, lines, cols)][j + LocalCol(k, lines, cols)])
  {
    var d := |raster.bands|;
    var n := lines * cols;
    X := new int[n, d];
    M := new int[n, d];
    for ind := 0 to d
      invariant forall k, b :: 0 <= k < n && 0 <= b < ind ==>
                  X[k, b] == raster.bands[b][i + LocalRow(k, lines, cols)][j + LocalCol(k, lines, cols)] &&
                  M[k, b] == mask.bands[b][i + LocalRow(k, lines, cols)][j + LocalCol(k, lines, cols)]
    {
      var xs := ReadBlock(raster.bands[ind], j, i, cols, lines);
      var ms := ReadBlock(mask.bands[ind], j, i, cols, lines);
      forall k | 0 <= k < n {
        X[k, ind] := xs[k];
      }
      forall k | 0 <= k < n {
        M[k, ind] := ms[k];
      }
    }
    forall k, b | 0 <= k < n && 0 <= b < d && M[k, b] > 0 {
      M[k, b] := 1;
    }
  }

  /** `for ind in range(cols*lines)`: row ind of Xf is the smoother applied to row ind of X
      with weights `1 - M[ind,:]`. */
  method SmoothRows(raster: Raster, mask: Raster, smooth: Smoother, t: Dates, l: real,
                    j: nat, i: nat, cols: nat, lines: nat, X: array2<int>, M: array2<int>)
    returns (xf: seq<seq<int>>)
    requires Compatible(raster, mask) && KeepsLength(smooth)
    requires i + lines <= raster.height && j + cols <= raster.width
    requires X.Length0 == lines * cols && X.Length1 == |raster.bands|
    requires M.Length0 == lines * cols && M.Length1 == |raster.bands|
    requires forall k, b :: 0 <= k < lines * cols && 0 <= b < |raster.bands| ==>
               X[k, b] == raster.bands[b][i + LocalRow(k, lines, cols)][j + LocalCol(k, lines, cols)] &&
               M[k, b] == Binarise(mask.bands[b][i + LocalRow(k, lines, cols)][j + LocalCol(k, lines, cols)])
    ensures xf == TileSmoothing(raster, mask, smooth, t, l, j, i, cols, lines)
  {
    var d := |raster.bands|;
    var n := lines * cols;
    var xs, ms := Rows(X), Rows(M);
    var Xf := new int[n, d];
    for ind := 0 to n
      invariant forall k, b :: 0 <= k < ind && 0 <= b < d ==>
                  Xf[k, b] == SmoothedPixel(raster, mask, smooth, t, l,
                                            i + LocalRow(k, lines, cols), j + LocalCol(k, lines, cols))[b]
    {
      var r, col := i + LocalRow(ind, lines, cols), j + LocalCol(ind, lines, cols);
      var w := seq(d, b requires 0 <= b < d => 1 - ms[ind][b]);
      assert xs[ind] == Series(raster, r, col);
      assert w == Weights(raster, mask, r, col);
      var row := smooth(xs[ind], t, w, Order, l);
      forall b | 0 <= b < d {
        Xf[ind, b] := row[b];
      }
    }
    xf := Rows(Xf);
    forall k | 0 <= k < n
      ensures xf[k] == SmoothedPixel(raster, mask, smooth, t, l, i + LocalRow(k, lines, cols), j + LocalCol(k, lines, cols))
    {
    }
  }

  /** The tile body of smooth_image: read X and M, then smooth every pixel's row. */
  method SmoothTile(raster: Raster, mask: Raster, smooth: Smoother, t: Dates, l: real,
                    j: nat, i: nat, cols: nat, lines: nat) returns (xf: seq<seq<int>>)
    requires Compatible(raster, mask) && KeepsLength(smooth)
    requires i + lines <= raster.height && j + cols <= raster.width
    ensures xf == TileSmoothing(raster, mask, smooth, t, l, j, i, cols, lines)
  {
    var X, M := ReadTile(raster, mask, j, i, cols, lines);
    xf := SmoothRows(raster, mask, smooth, t, l, j, i, cols, lines, X, M);
  }

  /** Before the traversal every output band still reads 0. */
  lemma NothingSmoothedYet(raster: Raster, mask: Raster, smooth: Smoother, t: Dates, l: real)
    requires Compatible(raster, mask) && KeepsLength(smooth)
    ensures AllSmoothedUpTo(raster, mask, smooth, t, l,
                            seq(|raster.bands|, _ => Zeros(raster.height, raster.width)), 0, 0, 0)
  {
  }

  /** Once the row loop has passed the bottom edge, the bands are the smoothing. */
  lemma AllSmoothed(raster: Raster, mask: Raster, smooth: Smoother, t: Dates, l: real,
                    bands: seq<Grid>, i: nat)
    requires Compatible(raster, mask) && KeepsLength(smooth)
    requires raster.height <= i && AllSmoothedUpTo(raster, mask, smooth, t, l, bands, i, i, 0)
    ensures bands == Smoothing(raster, mask, smooth, t, l)
  {
    var s := Smoothing(raster, mask, smooth, t, l);
    forall b | 0 <= b < |bands|
      ensures bands[b] == s[b]
    {
      assert SmoothedUpTo(raster, mask, smooth, t, l, bands[b], b, i, i, 0);
      SameGrids(bands[b], s[b], raster.height, raster.width);
    }
  }

  /** `for ind in range(d): GetRasterBand(ind+1).WriteArray(Xf[:,ind].reshape(lines,cols), j, i)`. */
  method WriteTile(raster: Raster, mask: Raster, smooth: Smoother, t: Dates, l: real,
                   out: OutputRaster, xf: seq<seq<int>>, j: nat, i: nat, cols: nat, lines: nat)
    requires Compatible(raster, mask) && KeepsLength(smooth)
    requires out.Valid() && out.width == raster.width && out.height == raster.height
    requires out.bandCount == |raster.bands|
    requires i + lines <= raster.height && j + cols <= raster.width
    requires xf == TileSmoothing(raster, mask, smooth, t, l, j, i, cols, lines)
    requires AllSmoothedUpTo(raster, mask, smooth, t, l, out.bands, i, i + lines, j)
    modifies out`bands
    ensures out.Valid()
    ensures AllSmoothedUpTo(raster, mask, smooth, t, l, out.bands, i, i + lines, j + cols)
  {
    var d, n := |raster.bands|, lines * cols;
    for ind := 0 to d
      invariant out.Valid()
      invariant forall b :: 0 <= b < ind ==>
                  SmoothedUpTo(raster, mask, smooth, t, l, out.bands[b], b, i, i + lines, j + cols)
      invariant forall b :: ind <= b < d ==>
                  SmoothedUpTo(raster, mask, smooth, t, l, out.bands[b], b, i, i + lines, j)
    {
      var block := seq(n, k requires 0 <= k < n => xf[k][ind]);
      assert block == TileBand(raster, mask, smooth, t, l, ind, j, i, cols, lines);
      BandTileWritten(raster, mask, smooth, t, l, out.bands[ind], ind, i, lines, j, cols);
      out.WriteArray(ind, block, j, i, cols, lines);
    }
  }

  /** One pass of smooth_image's column loop over the row of tiles at offset i. */
  method SmoothRow(raster: Raster, mask: Raster, smooth: Smoother, t: Dates, l: real,
                   out: OutputRaster, i: nat, lines: nat)
    requires Compatible(raster, mask) && KeepsLength(smooth)
    requires out.Valid() && out.width == raster.width && out.height == raster.height
    requires out.bandCount == |raster.bands|
    requires i < raster.height && lines == Extent(raster.height, raster.blockHeight, i)
    requires AllSmoothedUpTo(raster, mask, smooth, t, l, out.bands, i, i, 0)
    modifies out`bands
    ensures out.Valid()
    ensures AllSmoothedUpTo(raster, mask, smooth, t, l, out.bands,
                            i + raster.blockHeight, i + raster.blockHeight, 0)
  {
    var nc, bw := raster.width, raster.blockWidth;
    var j: nat := 0;
    while j < nc
      invariant out.Valid()
      invariant AllSmoothedUpTo(raster, mask, smooth, t, l, out.bands, i, i + lines, j)
    {
      var cols := if j + bw < nc then bw else nc - j;
      var xf := SmoothTile(raster, mask, smooth, t, l, j, i, cols, lines);
      WriteTile(raster, mask, smooth, t, l, out, xf, j, i, cols, lines);
      j := j + bw;
    }
    RowOfTilesDone(raster, mask, smooth, t, l, out.bands, i, lines, j);
  }

  /** smooth_image: open the inputs, create a GeoTIFF with one Float64 band per date and
      the raster's size and georeference, then smooth it tile by tile on the raster's
      native blocks. */
  method SmoothImage(rasterFile: Option<Raster>, maskFile: Option<Raster>, smooth: Smoother, t: Dates, l: real)
    returns (r: Result<OutputRaster>)
    requires Opened(rasterFile) && Opened(maskFile) && KeepsLength(smooth)
    ensures r.Ok? <==> SmoothingResult(rasterFile, maskFile, smooth, t, l).Ok?
    ensures r.Err? ==> r.error == SmoothingResult(rasterFile, maskFile, smooth, t, l).error
    ensures r.Ok? ==> fresh(r.value) && r.value.Valid() &&
                      r.value.width == rasterFile.value.width && r.value.height == rasterFile.value.height &&
                      r.value.bandCount == |rasterFile.value.bands| && r.value.dataType == GdtFloat64 &&
                      r.value.geoTransform == rasterFile.value.geoTransform &&
                      r.value.projection == rasterFile.value.projection &&
                      r.value.bands == SmoothingResult(rasterFile, maskFile, smooth, t, l).value
  {
    if rasterFile.None? {
      return Err(OpenFailed(RasterFile));
    }
    if maskFile.None? {
      return Err(NoneAttribute);
    }
    var raster, mask := rasterFile.value, maskFile.value;
    if raster.width != mask.width || raster.height != mask.height || |raster.bands| != |mask.bands| {
      return Err(SizeMismatch);
    }
    var d, nc, nl := |raster.bands|, raster.width, raster.height;
    var bh := raster.blockHeight;
    var out := new OutputRaster(nc, nl, d, GdtFloat64);
    out.SetGeoTransform(raster.geoTransform);
    out.SetProjection(raster.projection);
    NothingSmoothedYet(raster, mask, smooth, t, l);

    var i: nat := 0;
    while i < nl
      invariant out.Valid()
      invariant out.geoTransform == raster.geoTransform && out.projection == raster.projection
      invariant AllSmoothedUpTo(raster, mask, smooth, t, l, out.bands, i, i, 0)
    {
      var lines := if i + bh < nl then bh else nl - i;
      SmoothRow(raster, mask, smooth, t, l, out, i, lines);
      i := i + bh;
    }
    AllSmoothed(raster, mask, smooth, t, l, out.bands, i);
    return Ok(out);
  }
}
