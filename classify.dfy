/** predict_image: classify a raster tile by tile (512 x 512 pixels), feeding a trained
    model the band values of every pixel, or only of the pixels a mask selects, and
    writing the labels as a single-band UInt16 GeoTIFF. */
module TiledClassifier {
  import opened Arith
  import opened Results
  import opened Grids
  import opened Tiling
  import opened DataTypes
  import opened RasterIO

  /** `block_sizes`: predict_image ignores the raster's native block size. */
  const BlockSize: nat := 512

  /** `classifier['name']` and its parameters: NPFS classifies on the selected bands
      `ids` (0-based), GMM on all d bands. The trained model itself is the predictor. */
  datatype Classifier = NPFS(ids: seq<int>) | GMM

  /** `model.predict_gmm(X)[0]`: one label per row of the feature matrix X. */
  type Predictor = seq<seq<int>> -> seq<int>

  ghost predicate LabelsEveryRow(predict: Predictor)
  {
    forall x :: |predict(x)| == |x|
  }

  /** `astype('uint16')`: labels wrap modulo 65536. */
  function U16(v: int): (w: int)
    ensures 0 <= w < 65536 && (v - w) % 65536 == 0
  {
    v % 65536
  }

  /** Number of columns of the feature matrix: `nv = len(ids)` or d. */
  function FeatureCount(c: Classifier, d: nat): nat
  {
    match c
    case NPFS(ids) => |ids|
    case GMM => d
  }

  /** Every feature names a band the raster has: `GetRasterBand(v + 1)` is not None. */
  predicate FeaturesExist(c: Classifier, d: nat)
  {
    match c
    case NPFS(ids) => forall ind :: 0 <= ind < |ids| ==> 0 <= ids[ind] < d
    case GMM => true
  }

  /** The 0-based band feeding column ind of the feature matrix (`v` or `ind`). */
  function Feature(c: Classifier, d: nat, ind: nat): (b: int)
    requires ind < FeatureCount(c, d)
    ensures FeaturesExist(c, d) ==> 0 <= b < d
  {
    match c
    case NPFS(ids) => ids[ind]
    case GMM => ind
  }

  /** FeaturesExist holds exactly when every column's band is one the raster has. */
  lemma FeaturesExistIffBands(c: Classifier, d: nat)
    ensures FeaturesExist(c, d) <==>
            forall ind :: 0 <= ind < FeatureCount(c, d) ==> 0 <= Feature(c, d, ind) < d
  {
    if c.NPFS? && forall ind :: 0 <= ind < FeatureCount(c, d) ==> 0 <= Feature(c, d, ind) < d {
      forall ind | 0 <= ind < |c.ids|
        ensures 0 <= c.ids[ind] < d
      {
        assert Feature(c, d, ind) == c.ids[ind];
      }
    }
  }

  /** The features of one pixel: column ind holds band Feature(c, d, ind) at (r, col). */
  function FeatureVector(raster: Raster, c: Classifier, r: nat, col: nat): (v: seq<int>)
    requires raster.Valid() && FeaturesExist(c, |raster.bands|)
    requires r < raster.height && col < raster.width
    ensures |v| == FeatureCount(c, |raster.bands|)
  {
    var d := |raster.bands|;
    seq(FeatureCount(c, d), ind requires 0 <= ind < FeatureCount(c, d) =>
      raster.bands[Feature(c, d, ind)][r][col])
  }

  /** X for the tile at column j, row i: row k is the feature vector of the tile's k-th
      pixel in row-major order. */
  function TileFeatures(raster: Raster, c: Classifier, j: nat, i: nat, cols: nat, lines: nat): (x: seq<seq<int>>)
    requires raster.Valid() && FeaturesExist(c, |raster.bands|)
    requires i + lines <= raster.height && j + cols <= raster.width
    ensures |x| == lines * cols
    ensures forall k :: 0 <= k < |x| ==>
              x[k] == FeatureVector(raster, c, i + LocalRow(k, lines, cols), j + LocalCol(k, lines, cols))
  {
    seq(lines * cols, k requires 0 <= k < lines * cols =>
      FeatureVector(raster, c, i + LocalRow(k, lines, cols), j + LocalCol(k, lines, cols)))
  }

  /** Row k of X is the feature vector of the image pixel it was read from. */
  lemma TileFeaturesAt(raster: Raster, c: Classifier, j: nat, i: nat, cols: nat, lines: nat,
                       k: nat, r: nat, col: nat)
    requires raster.Valid() && FeaturesExist(c, |raster.bands|)
    requires i + lines <= raster.height && j + cols <= raster.width && k < lines * cols
    requires r == i + LocalRow(k, lines, cols) && col == j + LocalCol(k, lines, cols)
    ensures TileFeatures(raster, c, j, i, cols, lines)[k] == FeatureVector(raster, c, r, col)
  {
  }

  /** `yp[t] = predictions` on `yp = zeros(n)`: entry k is the prediction for the
      Rank(s, k)-th selected row where s[k] is nonzero, and 0 elsewhere. */
  function Scatter(s: seq<int>, p: seq<int>): (yp: seq<int>)
    requires |p| == |NonZero(s)|
    ensures |yp| == |s|
    ensures forall k :: 0 <= k < |s| ==> 0 <= yp[k] < 65536
    ensures forall k :: 0 <= k < |s| && s[k] == 0 ==> yp[k] == 0
    ensures forall q :: 0 <= q < |NonZero(s)| ==> yp[NonZero(s)[q]] == U16(p[q])
  {
    RankOfSelected(s);
    seq(|s|, k requires 0 <= k < |s| =>
      if s[k] != 0 then RankSelects(s, k); U16(p[Rank(s, k)]) else 0)
  }

  predicate SameSize(raster: Raster, mask: Option<Raster>)
  {
    mask.Some? ==> mask.value.Valid() && mask.value.width == raster.width && mask.value.height == raster.height
  }

  /** yp for the tile at column j, row i: the predictor on every row of X without a mask;
      with a mask, on the rows `X[t,:]` whose mask value is nonzero, the others being 0. */
  function TilePrediction(raster: Raster, mask: Option<Raster>, c: Classifier, predict: Predictor,
                          j: nat, i: nat, cols: nat, lines: nat): (yp: seq<int>)
    requires raster.Valid() && FeaturesExist(c, |raster.bands|) && SameSize(raster, mask)
    requires LabelsEveryRow(predict)
    requires i + lines <= raster.height && j + cols <= raster.width
    ensures |yp| == lines * cols
    ensures forall k :: 0 <= k < |yp| ==> 0 <= yp[k] < 65536
  {
    var x := TileFeatures(raster, c, j, i, cols, lines);
    match mask
    case None =>
      var p := predict(x);
      seq(|x|, k requires 0 <= k < |x| => U16(p[k]))
    case Some(m) =>
      var s := ReadBlock(m.bands[0], j, i, cols, lines);
      var t := NonZero(s);
      Scatter(s, predict(seq(|t|, q requires 0 <= q < |t| => x[t[q]])))
  }

  /** The 512 x 512 tile holding a pixel: its row offset i, column offset j, extents
      lines and cols, and the pixel's index k in the flattened tile. */
  datatype Place = Place(i: nat, j: nat, lines: nat, cols: nat, k: nat)

  /** The place of pixel (r, col) in the traversal of a height x width image. */
  function PlaceOf(height: nat, width: nat, r: nat, col: nat): (p: Place)
    requires r < height && col < width
    ensures p.i + p.lines <= height && p.j + p.cols <= width && p.k < p.lines * p.cols
  {
    var i, j := TileStart(r, BlockSize), TileStart(col, BlockSize);
    var lines, cols := Extent(height, BlockSize, i), Extent(width, BlockSize, j);
    Place(i, j, lines, cols, FlatIndex(r - i, col - j, lines, cols))
  }

  /** The pixel is cell (r - i, col - j) of its tile, whose offsets are aligned on the
      block size. */
  lemma PlaceFacts(height: nat, width: nat, r: nat, col: nat)
    requires r < height && col < width
    ensures var p := PlaceOf(height, width, r, col);
            p.i % BlockSize == 0 && p.j % BlockSize == 0 &&
            r == p.i + LocalRow(p.k, p.lines, p.cols) && col == p.j + LocalCol(p.k, p.lines, p.cols)
  {
    TileStartIsVisited(height, BlockSize, r);
    TileStartIsVisited(width, BlockSize, col);
  }

  /** A pixel of a tile the traversal visits has that tile as its place. */
  lemma PlaceInTile(height: nat, width: nat, i: nat, lines: nat, j: nat, cols: nat, r: nat, col: nat)
    requires i % BlockSize == 0 && i < height && lines == Extent(height, BlockSize, i)
    requires j % BlockSize == 0 && j < width && cols == Extent(width, BlockSize, j)
    requires i <= r < i + lines && j <= col < j + cols
    ensures PlaceOf(height, width, r, col) == Place(i, j, lines, cols, FlatIndex(r - i, col - j, lines, cols))
  {
    TileStartOfAligned(r, BlockSize, i);
    TileStartOfAligned(col, BlockSize, j);
  }

  /** The label predict_image writes at row r, column col: the entry for that pixel of
      the prediction of the 512 x 512 tile containing it. */
  function ClassifiedPixel(raster: Raster, mask: Option<Raster>, c: Classifier, predict: Predictor,
                           r: nat, col: nat): int
    requires raster.Valid() && FeaturesExist(c, |raster.bands|) && SameSize(raster, mask)
    requires LabelsEveryRow(predict)
    requires r < raster.height && col < raster.width
  {
    var p := PlaceOf(raster.height, raster.width, r, col);
    TilePrediction(raster, mask, c, predict, p.j, p.i, p.cols, p.lines)[p.k]
  }

  /** The whole output band. */
  function Classification(raster: Raster, mask: Option<Raster>, c: Classifier, predict: Predictor): (g: Grid)
    requires raster.Valid() && FeaturesExist(c, |raster.bands|) && SameSize(raster, mask)
    requires LabelsEveryRow(predict)
    ensures Shaped(g, raster.height, raster.width)
    ensures forall r, col :: 0 <= r < raster.height && 0 <= col < raster.width ==>
              g[r][col] == ClassifiedPixel(raster, mask, c, predict, r, col) && 0 <= g[r][col] < 65536
  {
    seq(raster.height, r requires 0 <= r < raster.height =>
      seq(raster.width, col requires 0 <= col < raster.width =>
        ClassifiedPixel(raster, mask, c, predict, r, col)))
  }

  /** Without a mask every pixel is labelled; with one, a pixel whose mask value is 0
      is written as 0 whatever the predictor. */
  lemma MaskedPixelIsZero(raster: Raster, m: Raster, c: Classifier, predict: Predictor, r: nat, col: nat)
    requires raster.Valid() && FeaturesExist(c, |raster.bands|) && SameSize(raster, Some(m))
    requires LabelsEveryRow(predict)
    requires r < raster.height && col < raster.width && m.bands[0][r][col] == 0
    ensures ClassifiedPixel(raster, Some(m), c, predict, r, col) == 0
  {
    var p := PlaceOf(raster.height, raster.width, r, col);
    PlaceFacts(raster.height, raster.width, r, col);
    ReadBlockAt(m.bands[0], p.j, p.i, p.cols, p.lines, p.k, r, col);
  }

  /** A predictor that labels each row on its own. */
  ghost predicate RowWise(predict: Predictor, labelOf: seq<int> -> int)
  {
    forall x :: predict(x) == seq(|x|, k requires 0 <= k < |x| => labelOf(x[k]))
  }

  /** Entry k of a tile's prediction under a row-wise predictor: the label of row k of X,
      or 0 where the mask is 0. */
  lemma RowWiseTileEntry(raster: Raster, mask: Option<Raster>, c: Classifier, predict: Predictor,
                         labelOf: seq<int> -> int, j: nat, i: nat, cols: nat, lines: nat, k: nat)
    requires raster.Valid() && FeaturesExist(c, |raster.bands|) && SameSize(raster, mask)
    requires RowWise(predict, labelOf)
    requires i + lines <= raster.height && j + cols <= raster.width && k < lines * cols
    ensures LabelsEveryRow(predict)
    ensures TilePrediction(raster, mask, c, predict, j, i, cols, lines)[k] ==
            if mask.Some? && ReadBlock(mask.value.bands[0], j, i, cols, lines)[k] == 0 then 0
            else U16(labelOf(TileFeatures(raster, c, j, i, cols, lines)[k]))
  {
    var x := TileFeatures(raster, c, j, i, cols, lines);
    if mask.Some? {
      var s := ReadBlock(mask.value.bands[0], j, i, cols, lines);
      var t := NonZero(s);
      var sel := seq(|t|, q requires 0 <= q < |t| => x[t[q]]);
      if s[k] != 0 {
        RankSelects(s, k);
        var p := predict(sel);
        assert p == seq(|sel|, q requires 0 <= q < |sel| => labelOf(sel[q]));
        assert sel[Rank(s, k)] == x[k];
      }
    } else {
      assert predict(x)[k] == labelOf(x[k]);
    }
  }

  /** With a row-wise predictor the tiling does not show in the output: each pixel gets
      the label of its own feature vector (wrapped to uint16), or 0 where the mask is 0. */
  lemma RowWiseIsPerPixel(raster: Raster, mask: Option<Raster>, c: Classifier, predict: Predictor,
                          labelOf: seq<int> -> int, r: nat, col: nat)
    requires raster.Valid() && FeaturesExist(c, |raster.bands|) && SameSize(raster, mask)
    requires RowWise(predict, labelOf)
    requires r < raster.height && col < raster.width
    ensures LabelsEveryRow(predict)
    ensures ClassifiedPixel(raster, mask, c, predict, r, col) ==
            if mask.Some? && mask.value.bands[0][r][col] == 0 then 0
            else U16(labelOf(FeatureVector(raster, c, r, col)))
  {
    var p := PlaceOf(raster.height, raster.width, r, col);
    PlaceFacts(raster.height, raster.width, r, col);
    RowWiseTileEntry(raster, mask, c, predict, labelOf, p.j, p.i, p.cols, p.lines, p.k);
    TileFeaturesAt(raster, c, p.j, p.i, p.cols, p.lines, p.k, r, col);
    if mask.Some? {
      ReadBlockAt(mask.value.bands[0], p.j, p.i, p.cols, p.lines, p.k, r, col);
    }
  }

  /** `X = empty((cols*lines, nv))` filled column by column: `X[:, ind]` is the tile of
      band Feature(c, d, ind), flattened. A feature naming a band the raster lacks makes
      `GetRasterBand(v + 1)` None, and reading from it fails. */
  method FillFeatures(raster: Raster, c: Classifier, j: nat, i: nat, cols: nat, lines: nat)
    returns (x: Result<seq<seq<int>>>)
    requires raster.Valid()
    requires i + lines <= raster.height && j + cols <= raster.width
    ensures x.Ok? <==> FeaturesExist(c, |raster.bands|)
    ensures x.Err? ==> x.error == NoneAttribute
    ensures x.Ok? ==> x.value == TileFeatures(raster, c, j, i, cols, lines)
  {
    var d := |raster.bands|;
    var nf := FeatureCount(c, d);
    var n := lines * cols;
    var X := new int[n, nf];
    for ind := 0 to nf
      invariant forall f :: 0 <= f < ind ==> 0 <= Feature(c, d, f) < d
      invariant forall k, f :: 0 <= k < n && 0 <= f < ind ==>
                  X[k, f] == raster.bands[Feature(c, d, f)][i + LocalRow(k, lines, cols)][j + LocalCol(k, lines, cols)]
    {
      var v := Feature(c, d, ind);
      if !(0 <= v < d) {
        return Err(NoneAttribute);
      }
      var band := ReadBlock(raster.bands[v], j, i, cols, lines);
      forall k | 0 <= k < n {
        X[k, ind] := band[k];
      }
    }
    FeaturesExistIffBands(c, d);
    var rows := Rows(X);
    forall k | 0 <= k < n
      ensures rows[k] == FeatureVector(raster, c, i + LocalRow(k, lines, cols), j + LocalCol(k, lines, cols))
    {
    }
    x := Ok(rows);
  }

  /** The tile body of predict_image: fill X column by column from the feature bands,
      then predict, on all rows or only on the rows the mask selects. */
  method PredictTile(raster: Raster, mask: Option<Raster>, c: Classifier, predict: Predictor,
                     j: nat, i: nat, cols: nat, lines: nat) returns (yp: Result<seq<int>>)
    requires raster.Valid() && SameSize(raster, mask)
    requires LabelsEveryRow(predict)
    requires i + lines <= raster.height && j + cols <= raster.width
    ensures yp.Ok? <==> FeaturesExist(c, |raster.bands|)
    ensures yp.Err? ==> yp.error == NoneAttribute
    ensures yp.Ok? ==> yp.value == TilePrediction(raster, mask, c, predict, j, i, cols, lines)
  {
    var filled := FillFeatures(raster, c, j, i, cols, lines);
    if filled.Err? {
      return Err(filled.error);
    }
    var x := filled.value;
    if mask.None? {
      var p := predict(x);
      yp := Ok(seq(|x|, k requires 0 <= k < |x| => U16(p[k])));
    } else {
      var maskTemp := ReadBlock(mask.value.bands[0], j, i, cols, lines);
      var t := NonZero(maskTemp);
      var p := predict(seq(|t|, q requires 0 <= q < |t| => x[t[q]]));
      var scattered := ScatterInto(maskTemp, t, p);
      yp := Ok(scattered);
    }
  }

  /** `yp = zeros(n); yp[t] = p.astype('uint16')`. */
  method ScatterInto(s: seq<int>, t: seq<nat>, p: seq<int>) returns (yp: seq<int>)
    requires t == NonZero(s) && |p| == |t|
    ensures yp == Scatter(s, p)
  {
    var a := new int[|s|](_ => 0);
    forall q | 0 <= q < |t| {
      a[t[q]] := U16(p[q]);
    }
    forall k | 0 <= k < |s|
      ensures a[k] == Scatter(s, p)[k]
    {
      if s[k] != 0 {
        RankSelects(s, k);
      } else {
        assert forall q :: 0 <= q < |t| ==> t[q] != k;
      }
    }
    yp := a[..];
  }

  /** A mask with no zero in the tile selects every row of X: the tile comes out as
      without a mask. */
  lemma FullMaskTile(raster: Raster, m: Raster, c: Classifier, predict: Predictor,
                     j: nat, i: nat, cols: nat, lines: nat)
    requires raster.Valid() && FeaturesExist(c, |raster.bands|) && SameSize(raster, Some(m))
    requires LabelsEveryRow(predict)
    requires i + lines <= raster.height && j + cols <= raster.width
    requires forall k :: 0 <= k < lines * cols ==> ReadBlock(m.bands[0], j, i, cols, lines)[k] != 0
    ensures TilePrediction(raster, Some(m), c, predict, j, i, cols, lines) ==
            TilePrediction(raster, None, c, predict, j, i, cols, lines)
  {
    var x := TileFeatures(raster, c, j, i, cols, lines);
    var s := ReadBlock(m.bands[0], j, i, cols, lines);
    NonZeroAll(s);
    var t := NonZero(s);
    assert seq(|t|, q requires 0 <= q < |t| => x[t[q]]) == x;
    forall k | 0 <= k < |s|
      ensures Rank(s, k) == k
    {
      NonZeroAll(s[..k]);
    }
  }

  /** Pixel by pixel: the tile holding a pixel sees no zero of such a mask. */
  lemma FullMaskPixel(raster: Raster, m: Raster, c: Classifier, predict: Predictor, r: nat, col: nat)
    requires raster.Valid() && FeaturesExist(c, |raster.bands|) && SameSize(raster, Some(m))
    requires LabelsEveryRow(predict)
    requires forall r, col :: 0 <= r < m.height && 0 <= col < m.width ==> m.bands[0][r][col] != 0
    requires r < raster.height && col < raster.width
    ensures ClassifiedPixel(raster, Some(m), c, predict, r, col) == ClassifiedPixel(raster, None, c, predict, r, col)
  {
    var p := PlaceOf(raster.height, raster.width, r, col);
    var i, j, lines, cols := p.i, p.j, p.lines, p.cols;
    forall k | 0 <= k < lines * cols
      ensures ReadBlock(m.bands[0], j, i, cols, lines)[k] != 0
    {
      ReadBlockAt(m.bands[0], j, i, cols, lines, k, i + LocalRow(k, lines, cols), j + LocalCol(k, lines, cols));
    }
    FullMaskTile(raster, m, c, predict, j, i, cols, lines);
  }

  /** A mask that is nonzero everywhere gives the same output as no mask. */
  lemma FullMaskIsNoMask(raster: Raster, m: Raster, c: Classifier, predict: Predictor)
    requires raster.Valid() && FeaturesExist(c, |raster.bands|) && SameSize(raster, Some(m))
    requires LabelsEveryRow(predict)
    requires forall r, col :: 0 <= r < m.height && 0 <= col < m.width ==> m.bands[0][r][col] != 0
    ensures Classification(raster, Some(m), c, predict) == Classification(raster, None, c, predict)
  {
    var withMask, without := Classification(raster, Some(m), c, predict), Classification(raster, None, c, predict);
    forall r, col | 0 <= r < raster.height && 0 <= col < raster.width
      ensures withMask[r][col] == without[r][col]
    {
      FullMaskPixel(raster, m, c, predict, r, col);
    }
    SameGrids(withMask, without, raster.height, raster.width);
  }

  /** Two masks with zeros in the same places give the same output: the mask's values
      only decide which pixels are predicted. */
  lemma SameZerosTile(raster: Raster, m: Raster, m': Raster, c: Classifier, predict: Predictor,
                      j: nat, i: nat, cols: nat, lines: nat)
    requires raster.Valid() && FeaturesExist(c, |raster.bands|)
    requires SameSize(raster, Some(m)) && SameSize(raster, Some(m'))
    requires LabelsEveryRow(predict)
    requires i + lines <= raster.height && j + cols <= raster.width
    requires forall k :: 0 <= k < lines * cols ==>
               (ReadBlock(m.bands[0], j, i, cols, lines)[k] == 0 <==> ReadBlock(m'.bands[0], j, i, cols, lines)[k] == 0)
    ensures TilePrediction(raster, Some(m), c, predict, j, i, cols, lines) ==
            TilePrediction(raster, Some(m'), c, predict, j, i, cols, lines)
  {
    var s, s' := ReadBlock(m.bands[0], j, i, cols, lines), ReadBlock(m'.bands[0], j, i, cols, lines);
    NonZeroSamePattern(s, s');
    forall k | 0 <= k < |s|
      ensures Rank(s, k) == Rank(s', k)
    {
      NonZeroSamePattern(s[..k], s'[..k]);
    }
  }

  /** Pixel by pixel: the tile holding a pixel reads zeros in the same places of both masks. */
  lemma SameZerosPixel(raster: Raster, m: Raster, m': Raster, c: Classifier, predict: Predictor, r: nat, col: nat)
    requires raster.Valid() && FeaturesExist(c, |raster.bands|)
    requires SameSize(raster, Some(m)) && SameSize(raster, Some(m'))
    requires LabelsEveryRow(predict)
    requires forall r, col :: 0 <= r < raster.height && 0 <= col < raster.width ==>
               (m.bands[0][r][col] == 0 <==> m'.bands[0][r][col] == 0)
    requires r < raster.height && col < raster.width
    ensures ClassifiedPixel(raster, Some(m), c, predict, r, col) == ClassifiedPixel(raster, Some(m'), c, predict, r, col)
  {
    var p := PlaceOf(raster.height, raster.width, r, col);
    var i, j, lines, cols := p.i, p.j, p.lines, p.cols;
    forall k | 0 <= k < lines * cols
      ensures ReadBlock(m.bands[0], j, i, cols, lines)[k] == 0 <==>
              ReadBlock(m'.bands[0], j, i, cols, lines)[k] == 0
    {
      var r0, c0 := i + LocalRow(k, lines, cols), j + LocalCol(k, lines, cols);
      ReadBlockAt(m.bands[0], j, i, cols, lines, k, r0, c0);
      ReadBlockAt(m'.bands[0], j, i, cols, lines, k, r0, c0);
    }
    SameZerosTile(raster, m, m', c, predict, j, i, cols, lines);
  }

  /** The output under a mask depends only on where the mask is zero. */
  lemma SameZerosSameLabels(raster: Raster, m: Raster, m': Raster, c: Classifier, predict: Predictor)
    requires raster.Valid() && FeaturesExist(c, |raster.bands|)
    requires SameSize(raster, Some(m)) && SameSize(raster, Some(m'))
    requires LabelsEveryRow(predict)
    requires forall r, col :: 0 <= r < raster.height && 0 <= col < raster.width ==>
               (m.bands[0][r][col] == 0 <==> m'.bands[0][r][col] == 0)
    ensures Classification(raster, Some(m), c, predict) == Classification(raster, Some(m'), c, predict)
  {
    var g, g' := Classification(raster, Some(m), c, predict), Classification(raster, Some(m'), c, predict);
    forall r, col | 0 <= r < raster.height && 0 <= col < raster.width
      ensures g[r][col] == g'[r][col]
    {
      SameZerosPixel(raster, m, m', c, predict, r, col);
    }
    SameGrids(g, g', raster.height, raster.width);
  }

  /** The mask argument after opening: None when no mask name is given. */
  function MaskOf(maskFile: Option<Option<Raster>>): Option<Raster>
  {
    if maskFile.Some? then maskFile.value else None
  }

  /** What predict_image leaves in the output's band 1, or why it stops: the raster or
      the mask fails to open, the mask's size differs, or the first tile reads a feature
      band the raster lacks. */
  function Prediction(rasterFile: Option<Raster>, maskFile: Option<Option<Raster>>, c: Classifier,
                      predict: Predictor): (r: Result<Grid>)
    requires Opened(rasterFile) && (maskFile.Some? ==> Opened(maskFile.value))
    requires LabelsEveryRow(predict)
    ensures rasterFile.None? ==> r == Err(OpenFailed(RasterFile))
    ensures rasterFile.Some? && maskFile == Some(None) ==> r == Err(OpenFailed(MaskFile))
    ensures rasterFile.Some? && maskFile.Some? && maskFile.value.Some? ==>
              (r == Err(SizeMismatch) <==>
               rasterFile.value.width != maskFile.value.value.width ||
               rasterFile.value.height != maskFile.value.value.height)
    ensures rasterFile.Some? && maskFile != Some(None) && SameSize(rasterFile.value, MaskOf(maskFile)) ==>
              (r.Ok? <==> FeaturesExist(c, |rasterFile.value.bands|) ||
                          rasterFile.value.height == 0 || rasterFile.value.width == 0)
    ensures (rasterFile.Some? && maskFile != Some(None) && SameSize(rasterFile.value, MaskOf(maskFile)) &&
             r.Err?) ==> r.error == NoneAttribute
    ensures r.Ok? && FeaturesExist(c, |rasterFile.value.bands|) ==>
              SameSize(rasterFile.value, MaskOf(maskFile)) &&
              r.value == Classification(rasterFile.value, MaskOf(maskFile), c, predict)
    ensures r.Ok? ==> rasterFile.Some? && Shaped(r.value, rasterFile.value.height, rasterFile.value.width) &&
                      forall row, col :: 0 <= row < rasterFile.value.height && 0 <= col < rasterFile.value.width ==>
                        0 <= r.value[row][col] < 65536
  {
    if rasterFile.None? then Err(OpenFailed(RasterFile))
    else if maskFile.Some? && maskFile.value.None? then Err(OpenFailed(MaskFile))
    else
      var raster, mask := rasterFile.value, MaskOf(maskFile);
      if mask.Some? && (raster.width != mask.value.width || raster.height != mask.value.height) then
        Err(SizeMismatch)
      else if !FeaturesExist(c, |raster.bands|) then
        if 0 < raster.height && 0 < raster.width then Err(NoneAttribute)
        else Ok(Zeros(raster.height, raster.width))
      else Ok(Classification(raster, mask, c, predict))
  }

  /** The output band after the traversal has written every tile of the rows above
      rowsDone and the tiles left of colEnd in the rows above rowEnd: those pixels hold
      their label, the others are still 0. */
  ghost predicate Labelled(raster: Raster, mask: Option<Raster>, c: Classifier, predict: Predictor,
                           g: Grid, rowsDone: nat, rowEnd: nat, colEnd: nat)
    requires raster.Valid() && FeaturesExist(c, |raster.bands|) && SameSize(raster, mask)
    requires LabelsEveryRow(predict)
  {
    Shaped(g, raster.height, raster.width) &&
    forall r, col :: 0 <= r < raster.height && 0 <= col < raster.width ==>
      g[r][col] == if r < rowsDone || (r < rowEnd && col < colEnd)
                   then ClassifiedPixel(raster, mask, c, predict, r, col) else 0
  }

  /** Inside a tile visited by the traversal, the label of a pixel is the tile's
      prediction at the pixel's place in the flattened tile. */
  lemma PixelInTile(raster: Raster, mask: Option<Raster>, c: Classifier, predict: Predictor,
                    i: nat, lines: nat, j: nat, cols: nat, r: nat, col: nat)
    requires raster.Valid() && FeaturesExist(c, |raster.bands|) && SameSize(raster, mask)
    requires LabelsEveryRow(predict)
    requires i % BlockSize == 0 && i < raster.height && lines == Extent(raster.height, BlockSize, i)
    requires j % BlockSize == 0 && j < raster.width && cols == Extent(raster.width, BlockSize, j)
    requires i <= r < i + lines && j <= col < j + cols
    ensures ClassifiedPixel(raster, mask, c, predict, r, col) ==
            TilePrediction(raster, mask, c, predict, j, i, cols, lines)[FlatIndex(r - i, col - j, lines, cols)]
  {
    PlaceInTile(raster.height, raster.width, i, lines, j, cols, r, col);
  }

  /** `out.WriteArray(yp.reshape(lines, cols), j, i)` for the tile at (j, i) extends the
      labelled region by that tile. */
  lemma {:induction false} TileWritten(raster: Raster, mask: Option<Raster>, c: Classifier, predict: Predictor,
                                       g: Grid, i: nat, lines: nat, j: nat, cols: nat)
    requires raster.Valid() && FeaturesExist(c, |raster.bands|) && SameSize(raster, mask)
    requires LabelsEveryRow(predict)
    requires i % BlockSize == 0 && i < raster.height && lines == Extent(raster.height, BlockSize, i)
    requires j % BlockSize == 0 && j < raster.width && cols == Extent(raster.width, BlockSize, j)
    requires Labelled(raster, mask, c, predict, g, i, i + lines, j)
    ensures Window(g, j, i, cols, lines)
    ensures Labelled(raster, mask, c, predict,
                     Paste(g, TilePrediction(raster, mask, c, predict, j, i, cols, lines), j, i, cols, lines),
                     i, i + lines, j + cols)
  {
    var yp := TilePrediction(raster, mask, c, predict, j, i, cols, lines);
    var h := Paste(g, yp, j, i, cols, lines);
    forall r, col | 0 <= r < raster.height && 0 <= col < raster.width
      ensures h[r][col] == if r < i || (r < i + lines && col < j + cols)
                           then ClassifiedPixel(raster, mask, c, predict, r, col) else 0
    {
      if i <= r < i + lines && j <= col < j + cols {
        PixelInTile(raster, mask, c, predict, i, lines, j, cols, r, col);
      }
    }
  }

  /** Once the column loop has passed the right edge, the whole row of tiles is labelled. */
  lemma RowOfTilesDone(raster: Raster, mask: Option<Raster>, c: Classifier, predict: Predictor,
                       g: Grid, i: nat, lines: nat, j: nat)
    requires raster.Valid() && FeaturesExist(c, |raster.bands|) && SameSize(raster, mask)
    requires LabelsEveryRow(predict)
    requires i < raster.height && lines == Extent(raster.height, BlockSize, i) && raster.width <= j
    requires Labelled(raster, mask, c, predict, g, i, i + lines, j)
    ensures Labelled(raster, mask, c, predict, g, i + BlockSize, i + BlockSize, 0)
  {
  }

  /** Once the row loop has passed the bottom edge, the band is the classification. */
  lemma AllLabelled(raster: Raster, mask: Option<Raster>, c: Classifier, predict: Predictor,
                    g: Grid, i: nat)
    requires raster.Valid() && FeaturesExist(c, |raster.bands|) && SameSize(raster, mask)
    requires LabelsEveryRow(predict)
    requires raster.height <= i && Labelled(raster, mask, c, predict, g, i, i, 0)
    ensures g == Classification(raster, mask, c, predict)
  {
    var cl := Classification(raster, mask, c, predict);
    forall r | 0 <= r < raster.height
      ensures g[r] == cl[r]
    {
    }
  }

  /** One step of predict_image's column loop: the tile at (j, i) is predicted and
      written, which extends the labelled region by that tile, unless it reads a missing band. */
  method PredictAndWriteTile(raster: Raster, mask: Option<Raster>, c: Classifier, predict: Predictor,
                             out: OutputRaster, i: nat, lines: nat, j: nat) returns (failed: bool)
    requires raster.Valid() && SameSize(raster, mask) && LabelsEveryRow(predict)
    requires out.Valid() && out.width == raster.width && out.height == raster.height && out.bandCount == 1
    requires i % BlockSize == 0 && i < raster.height && lines == Extent(raster.height, BlockSize, i)
    requires j % BlockSize == 0 && j < raster.width
    requires FeaturesExist(c, |raster.bands|) ==> Labelled(raster, mask, c, predict, out.bands[0], i, i + lines, j)
    modifies out`bands
    ensures out.Valid()
    ensures failed <==> !FeaturesExist(c, |raster.bands|)
    ensures FeaturesExist(c, |raster.bands|) ==>
              Labelled(raster, mask, c, predict, out.bands[0], i, i + lines, j + BlockSize)
    ensures !FeaturesExist(c, |raster.bands|) ==> out.bands == old(out.bands)
  {
    var cols := if j + BlockSize < raster.width then BlockSize else raster.width - j;
    var yp := PredictTile(raster, mask, c, predict, j, i, cols, lines);
    if yp.Err? {
      return true;
    }
    TileWritten(raster, mask, c, predict, out.bands[0], i, lines, j, cols);
    out.WriteArray(0, yp.value, j, i, cols, lines);
    return false;
  }

  /** One pass of predict_image's column loop over the row of tiles at offset i: every
      tile is predicted and written, unless the first one already reads a missing band. */
  method PredictRow(raster: Raster, mask: Option<Raster>, c: Classifier, predict: Predictor,
                    out: OutputRaster, i: nat, lines: nat) returns (failed: bool)
    requires raster.Valid() && SameSize(raster, mask) && LabelsEveryRow(predict)
    requires out.Valid() && out.width == raster.width && out.height == raster.height && out.bandCount == 1
    requires i % BlockSize == 0 && i < raster.height && lines == Extent(raster.height, BlockSize, i)
    requires FeaturesExist(c, |raster.bands|) ==> Labelled(raster, mask, c, predict, out.bands[0], i, i, 0)
    modifies out`bands
    ensures out.Valid()
    ensures failed <==> !FeaturesExist(c, |raster.bands|) && 0 < raster.width
    ensures FeaturesExist(c, |raster.bands|) ==>
              Labelled(raster, mask, c, predict, out.bands[0], i + BlockSize, i + BlockSize, 0)
    ensures !FeaturesExist(c, |raster.bands|) ==> out.bands == old(out.bands)
  {
    var nc := raster.width;
    ghost var features := FeaturesExist(c, |raster.bands|);
    var j: nat := 0;
    while j < nc
      invariant j % BlockSize == 0
      invariant out.Valid()
      invariant features ==> Labelled(raster, mask, c, predict, out.bands[0], i, i + lines, j)
      invariant !features ==> out.bands == old(out.bands) && j == 0
    {
      failed := PredictAndWriteTile(raster, mask, c, predict, out, i, lines, j);
      if failed {
        return;
      }
      var next := j + BlockSize;
      AlignedStep(j, BlockSize);
      j := next;
    }
    if features {
      RowOfTilesDone(raster, mask, c, predict, out.bands[0], i, lines, j);
    }
    failed := false;
  }

  /** predict_image: open the inputs, create a one-band UInt16 GeoTIFF with the raster's
      size and georeference, then classify it tile by tile, 512 x 512 pixels at a time. */
  method PredictImage(rasterFile: Option<Raster>, maskFile: Option<Option<Raster>>, c: Classifier,
                      predict: Predictor) returns (r: Result<OutputRaster>)
    requires Opened(rasterFile) && (maskFile.Some? ==> Opened(maskFile.value))
    requires LabelsEveryRow(predict)
    ensures r.Ok? <==> Prediction(rasterFile, maskFile, c, predict).Ok?
    ensures r.Err? ==> r.error == Prediction(rasterFile, maskFile, c, predict).error
    ensures r.Ok? ==> fresh(r.value) && r.value.Valid() &&
                      r.value.width == rasterFile.value.width && r.value.height == rasterFile.value.height &&
                      r.value.bandCount == 1 && r.value.dataType == GdtUInt16 &&
                      r.value.geoTransform == rasterFile.value.geoTransform &&
                      r.value.projection == rasterFile.value.projection &&
                      r.value.bands == [Prediction(rasterFile, maskFile, c, predict).value]
  {
    if rasterFile.None? {
      return Err(OpenFailed(RasterFile));
    }
    var raster := rasterFile.value;
    var mask: Option<Raster> := None;
    if maskFile.Some? {
      if maskFile.value.None? {
        return Err(OpenFailed(MaskFile));
      }
      mask := maskFile.value;
      if raster.width != mask.value.width || raster.height != mask.value.height {
        return Err(SizeMismatch);
      }
    }
    var d, nc, nl := |raster.bands|, raster.width, raster.height;
    var out := new OutputRaster(nc, nl, 1, GdtUInt16);
    out.SetGeoTransform(raster.geoTransform);
    out.SetProjection(raster.projection);
    ghost var features := FeaturesExist(c, d);

    var i: nat := 0;
    while i < nl
      invariant i % BlockSize == 0
      invariant out.Valid()
      invariant out.geoTransform == raster.geoTransform && out.projection == raster.projection
      invariant features ==> Labelled(raster, mask, c, predict, out.bands[0], i, i, 0)
      invariant !features ==> out.bands == [Zeros(nl, nc)] && (i == 0 || nc == 0)
    {
      var lines := if i + BlockSize < nl then BlockSize else nl - i;
      var failed := PredictRow(raster, mask, c, predict, out, i, lines);
      if failed {
        return Err(NoneAttribute);
      }
      var next := i + BlockSize;
      AlignedStep(i, BlockSize);
      i := next;
    }
    if features {
      AllLabelled(raster, mask, c, predict, out.bands[0], i);
    }
    return Ok(out);
  }
}
