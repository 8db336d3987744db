# histmap2 raster core, modelled in Dafny

This project models the block-tiled raster processing of `histmap2/rasters.py`. That code
reads large geospatial rasters a tile at a time and runs three pipelines over them:

- `get_samples_from_roi` walks the raster on its native blocks. It keeps the pixels whose
  region-of-interest (ROI) value is nonzero, and returns their band vectors `X` and their
  labels `Y`, row by row in lock-step.
- `predict_image` walks the raster in fixed 512 x 512 tiles. It builds each tile's feature
  matrix from the bands an `NPFS` classifier selects, or from all bands for `GMM`. It runs a
  trained predictor on every row, or only on the rows a mask selects (the other rows get 0).
  It writes the labels into a one-band UInt16 GeoTIFF.
- `smooth_image` walks the raster (one band per date) on its native blocks. It binarises a
  co-registered mask and smooths every pixel's time series with weights `1 - M`. It writes
  one Float64 band per date.

It also models the two pixel-type tables of `open_data_band` and `create_empty_tiff`.

The model works as follows:

- GDAL datasets become values. An input raster is a `Raster` datatype: width, height, one
  integer grid per band, native block size, band-1 data type, geotransform and projection.
- An output dataset is the class `RasterIO.OutputRaster`. Its `bands` field is rewritten by
  `WriteArray` one tile at a time.
- `gdal.Open` returning `None` is an `Option`.
- Every `print(...); exit()`, and every exception the code would raise in the cases the
  model covers (see "## Left out" for the others), becomes an `Err` result.
- The trained model (`predict_gmm`) is a function parameter `predict`. The Whittaker
  smoother is a function parameter `smooth`.
- The loops of the source are methods with loop invariants. Each is proved equal to a pure
  specification: `SampleExtraction`, `Prediction` and `SmoothingResult`. Lemmas then prove
  what those specifications promise.

Modules:

- `Arith`: division and remainder facts.
- `Results`: errors, `Result` and `Option`.
- `Grids`: grids, windowed read and write, `nonzero`.
- `Tiling`: the tile traversal.
- `DataTypes`: the two type tables.
- `RasterIO`: datasets, `open_data_band`, `create_empty_tiff`.
- `SampleExtractor`, `TiledClassifier`, `TiledSmoother`: the three pipelines.

Quirks of the code, which the model keeps as written:

- The docstring of `get_samples_from_roi` (line 126) says pixels whose value is greater
  than 0 are returned. The code keeps every pixel `sp.nonzero` selects (line 181), negative
  values included, and then casts the label to uint8 (line 184). A ROI value of 300 is kept
  with label 44, and one of 256 is kept with label 0. `SampleExtractor.RetainedCellsExact`
  and `SampleExtractor.SampleOfEveryRoiPixel` state this.
- The docstring of `smooth_image` (line 325) speaks only of mask values greater than 0.
  `M[M>0] = 1` (line 393) leaves negative values as they are, so the weight `1 - M`
  (line 398) of a date whose mask value is -2 is 3, more than the weight 1 of an unmasked
  date. `TiledSmoother.Weights` states this.
- The traversal clips the last tile of each axis to the cells left. For 777 rows and
  1000 columns with 256 x 256 blocks, the row tiles are 256, 256, 256 and 9 high and the
  column tiles 256, 256, 256 and 232 wide. `Tiling.Scenario1000By777` states this.
- `smooth_image` opens the mask at line 343 but tests `raster is None` at line 344. A mask
  that cannot be opened passes that test, and the size check at line 349 then looks up an
  attribute on `None`. The model returns `NoneAttribute` there, not an open failure.
- `predict_image` creates the output file at line 254, before the tile loop. When an
  `NPFS` band index is out of range, the first tile fails after the file exists (see
  "Left out").
- When no ROI pixel is nonzero, `Xtp` is never bound and `del Xtp, band` at line 197
  fails. The model returns `NoSamples`, as `SampleExtractor.NoSamplesIffEmptyRoi` states.

## Model

| member | source | states |
|---|---|---|
| Tiling.Extent | histmap2/rasters.py:167-170 | a tile's extent is positive, at most the block size and inside the axis; a tile shorter than the block ends exactly at the edge |
| Tiling.Offsets | histmap2/rasters.py:166 | `range(from, n, b)` visits only offsets in [from, n) |
| Tiling.OffsetsArithmetic | histmap2/rasters.py:166 | the k-th offset is from + k*b; there is one iff from < n; the last offset plus b reaches n |
| Tiling.Covered | histmap2/rasters.py:166-175 | every cell of [from, n) lies in the tile of some visited offset |
| Tiling.Disjoint | histmap2/rasters.py:166-175 | each tile ends at or before the start of every later tile |
| Tiling.ExactlyOneTile | histmap2/rasters.py:166-175 | every cell of [0, n) lies in exactly one tile of the traversal |
| Tiling.LastExtent | histmap2/rasters.py:171-175 | the last tile's extent is n mod b, or b when b divides n |
| Tiling.TileStartIsVisited | histmap2/rasters.py:269-278 | the tile start of a cell, x - x mod b, is a visited offset, aligned on b, whose tile holds the cell |
| Tiling.Scenario1000By777 | histmap2/rasters.py:166-175 | for 777 rows and 1000 columns with 256-pixel blocks: offsets 0, 256, 512, 768; last row tile 9 high, last column tile 232 wide |
| DataTypes.ArrayType | histmap2/rasters.py:27-46 | open_data_band's table: exactly GDT Unknown/Int8/UInt64/Int64 are unsupported, all four complex types read as complex64, and every supported type can be written back |
| DataTypes.StoredType | histmap2/rasters.py:79-99 | create_empty_tiff's table: exactly complex128 and unlisted names are unsupported; int64, uint64, float16 and float32 are stored as Float32; it never yields a type the read table rejects |
| DataTypes.ReadThenWriteType | histmap2/rasters.py:81-96 | writing the array of a band read from disk restores the band's GDAL type, except that complex types come back as CFloat64 |
| DataTypes.WriteThenReadType | histmap2/rasters.py:28-43 | a dtype with its own GDAL counterpart survives a write and a read; bool and int8 widen to uint8 and int16; int64, uint64 and float16 come back as float32 |
| RasterIO.OpenDataBand | histmap2/rasters.py:7-50 | fails on an unopenable file and on an unmapped band-1 type; an opened file with a mapped type succeeds, returning the dataset and an empty nl x nc array of the mapped dtype |
| RasterIO.OutputRaster.constructor | histmap2/rasters.py:101 | `driver.Create`: the given size, band count and type, every sample 0, no georeference yet |
| RasterIO.OutputRaster.SetGeoTransform | histmap2/rasters.py:102 | the geotransform is the one given |
| RasterIO.OutputRaster.SetProjection | histmap2/rasters.py:103 | the projection is the one given |
| RasterIO.OutputRaster.WriteArray | histmap2/rasters.py:312 | the written band takes the block in the window and keeps every other sample; other bands are untouched |
| RasterIO.CreateEmptyTiff | histmap2/rasters.py:64-105 | succeeds iff the dtype has a GDAL type; the result has im's shape, d zero bands of that type and the given geotransform and projection |
| Grids.FlatIndex | histmap2/rasters.py:285 | `reshape(cols*lines)`: cell (r, c) lands at an index below lines*cols, from which row and column are recovered |
| Grids.LocalOrder | histmap2/rasters.py:181 | flat indices are in row-major order: an earlier index is in an earlier row, or in the same row and an earlier column |
| Grids.Paste | histmap2/rasters.py:312 | `WriteArray(block.reshape(lines, cols), j, i)`: the window holds the block in row-major order, every other sample is kept, the shape is kept |
| Grids.ReadAfterPaste | histmap2/rasters.py:312 | reading back the window just written gives the block written |
| Grids.NonZero | histmap2/rasters.py:181 | `nonzero`: selected positions are in range, hold nonzero values and are strictly increasing |
| Grids.RankSelects | histmap2/rasters.py:292 | every nonzero position is selected, as the Rank-th selected row (`X[t,:]`) |
| Grids.RankOfSelected | histmap2/rasters.py:292 | the q-th selected position has exactly q selected positions before it, so `X[t,:]` row q is the pixel t[q] |
| Grids.NonZeroAll | histmap2/rasters.py:292 | with no zero entry, `where(s != 0)` selects every position in order |
| Grids.NonZeroSamePattern | histmap2/rasters.py:292 | the selection depends only on where the entries are zero |
| SampleExtractor.U8 | histmap2/rasters.py:184 | `astype('uint8')`: the label lies in [0, 256) and is congruent to the ROI value mod 256 |
| SampleExtractor.TileCellsSound | histmap2/rasters.py:179-181 | the pixels a tile retains lie in the tile and have a nonzero ROI value |
| SampleExtractor.TileCellsDistinct | histmap2/rasters.py:181 | no pixel of a tile is retained twice |
| SampleExtractor.TileCellsComplete | histmap2/rasters.py:181 | every nonzero ROI pixel of a tile is retained by it |
| SampleExtractor.RowCellsSound | histmap2/rasters.py:171-183 | a row of tiles retains only nonzero pixels of its rows, each once |
| SampleExtractor.RowCellsComplete | histmap2/rasters.py:171-183 | a row of tiles retains every nonzero pixel of its rows |
| SampleExtractor.ImageCellsSound | histmap2/rasters.py:166-183 | the traversal retains only nonzero pixels of the image, each once |
| SampleExtractor.ImageCellsComplete | histmap2/rasters.py:166-183 | the traversal retains every nonzero pixel of the image |
| SampleExtractor.RetainedCells | histmap2/rasters.py:166-183 | the retained pixels lie inside the image |
| SampleExtractor.RetainedCellsExact | histmap2/rasters.py:166-183 | a pixel is retained iff its ROI value is nonzero, and none twice |
| SampleExtractor.SampleExtraction | histmap2/rasters.py:135-201 | an unopenable raster, then an unopenable ROI, fails to open; with both open, SizeMismatch exactly when width or height differ; on success X and Y have the same, positive number of rows, each X row has d values and each label lies in [0, 256) |
| SampleExtractor.GatheredAppend | histmap2/rasters.py:183-191 | appending a tile's samples, when there are any, keeps X and Y the samples of the pixels visited so far |
| SampleExtractor.SampleMatrixAppend | histmap2/rasters.py:191 | the samples of a + b are those of a followed by those of b |
| SampleExtractor.LabelVectorAppend | histmap2/rasters.py:184 | the labels of a + b are those of a followed by those of b |
| SampleExtractor.FillXtp | histmap2/rasters.py:186-189 | row m of Xtp holds the d band values of the tile's m-th selected pixel |
| SampleExtractor.NoSamplesIffEmptyRoi | histmap2/rasters.py:197 | `del Xtp, band` fails exactly when the ROI band is zero everywhere |
| SampleExtractor.SampleOfEveryRoiPixel | histmap2/rasters.py:183-191 | every nonzero ROI pixel gives a sample whose X row is its band vector and whose Y entry is its ROI value mod 256 |
| SampleExtractor.EverySampleFromRoiPixel | histmap2/rasters.py:183-191 | every sample comes from a nonzero ROI pixel, with its band vector and label, and no pixel gives two |
| SampleExtractor.TileSamples | histmap2/rasters.py:179-191 | one tile's labels and band values are those of its nonzero ROI pixels, in row-major order |
| SampleExtractor.RowSamples | histmap2/rasters.py:171-194 | the inner loop gathers the samples of its row of tiles, tile after tile |
| SampleExtractor.GetSamplesFromRoi | histmap2/rasters.py:121-201 | the method returns exactly SampleExtraction: the open and size errors in order, NoSamples on an empty ROI, else the samples |
| TiledClassifier.U16 | histmap2/rasters.py:289 | `astype('uint16')`: the label lies in [0, 65536) and is congruent to the prediction mod 65536 |
| TiledClassifier.Feature | histmap2/rasters.py:284-285 | when every feature exists, the band feeding a column is one the raster has |
| TiledClassifier.FeaturesExistIffBands | histmap2/rasters.py:283-285 | the features exist iff every column's band index lies in [0, d) |
| TiledClassifier.FeatureVector | histmap2/rasters.py:284-285 | a pixel's feature vector has one entry per feature column |
| TiledClassifier.Scatter | histmap2/rasters.py:293-294 | `yp = zeros(n); yp[t] = p`: one uint16 label per tile pixel, 0 wherever the mask is 0, and U16(p[q]) at the q-th selected position |
| TiledClassifier.ScatterInto | histmap2/rasters.py:293-294 | the in-place scatter into a zeroed array gives Scatter's result |
| TiledClassifier.TilePrediction | histmap2/rasters.py:281-309 | a tile's yp has one label in [0, 65536) per pixel |
| TiledClassifier.PlaceOf | histmap2/rasters.py:269-278 | the 512-pixel tile holding a pixel lies in the image and the pixel's flat index lies in it |
| TiledClassifier.PlaceFacts | histmap2/rasters.py:269-278 | that tile is aligned on 512 and the pixel is its cell (r - i, col - j) |
| TiledClassifier.PlaceInTile | histmap2/rasters.py:269-278 | every pixel of a tile the traversal visits has that tile as its place |
| TiledClassifier.Classification | histmap2/rasters.py:269-312 | the output band has the raster's shape, and each pixel holds its tile's label for it, in [0, 65536) |
| TiledClassifier.MaskedPixelIsZero | histmap2/rasters.py:290-294 | a pixel whose mask value is 0 is labelled 0 whatever the predictor |
| TiledClassifier.RowWiseTileEntry | histmap2/rasters.py:287-294 | with a row-wise predictor, entry k of a tile's yp is the label of X's row k, or 0 where the mask is 0 |
| TiledClassifier.RowWiseIsPerPixel | histmap2/rasters.py:269-312 | with a row-wise predictor the tiling does not show: each pixel gets the label of its own feature vector, or 0 under a zero mask |
| TiledClassifier.FillFeatures | histmap2/rasters.py:283-285 | filling X column by column succeeds iff every feature band exists, and then gives TileFeatures; else NoneAttribute |
| TiledClassifier.PredictTile | histmap2/rasters.py:281-309 | a tile's prediction succeeds iff every feature band exists, and then gives TilePrediction; else NoneAttribute |
| TiledClassifier.FullMaskTile | histmap2/rasters.py:288-294 | a tile with no zero mask value comes out as without a mask |
| TiledClassifier.FullMaskPixel | histmap2/rasters.py:288-294 | under a mask nonzero everywhere each pixel gets the label it gets without a mask |
| TiledClassifier.FullMaskIsNoMask | histmap2/rasters.py:288-294 | a mask nonzero everywhere gives the same output as no mask |
| TiledClassifier.SameZerosTile | histmap2/rasters.py:306-309 | masks zero at the same places of a tile give the same yp |
| TiledClassifier.SameZerosPixel | histmap2/rasters.py:306-309 | masks zero at the same places give each pixel the same label |
| TiledClassifier.SameZerosSameLabels | histmap2/rasters.py:306-309 | the output under a mask depends only on where the mask is zero |
| TiledClassifier.Prediction | histmap2/rasters.py:221-318 | an unopenable raster, then an unopenable mask, fails to open; with a mask open, SizeMismatch exactly when width or height differ; otherwise it succeeds iff every feature band exists or the image is empty, else fails with NoneAttribute; on success the band is the Classification, shaped like the raster, with labels in [0, 65536) |
| TiledClassifier.PixelInTile | histmap2/rasters.py:274-278 | a pixel's label is its visited tile's yp at the pixel's row-major index |
| TiledClassifier.TileWritten | histmap2/rasters.py:312 | writing a tile's yp at (j, i) extends the labelled region by that tile and leaves the rest as it was |
| TiledClassifier.RowOfTilesDone | histmap2/rasters.py:274-278 | past the right edge, the whole row of tiles is labelled |
| TiledClassifier.AllLabelled | histmap2/rasters.py:269-273 | past the bottom edge, the band is the classification |
| TiledClassifier.PredictAndWriteTile | histmap2/rasters.py:280-312 | one tile step fails iff a feature band is missing; otherwise the labelled region grows by the tile |
| TiledClassifier.PredictRow | histmap2/rasters.py:274-314 | one row of tiles fails iff a feature band is missing and the row is not empty; otherwise the whole row is labelled |
| TiledClassifier.PredictImage | histmap2/rasters.py:203-318 | succeeds iff Prediction does, with the same error; on success a fresh one-band UInt16 dataset of the raster's size and georeference holding Prediction's band |
| TiledSmoother.Binarise | histmap2/rasters.py:393 | `M[M>0] = 1`: positive values become 1, the others are kept, and it is idempotent |
| TiledSmoother.Series | histmap2/rasters.py:390 | a pixel's series has one value per date |
| TiledSmoother.Weights | histmap2/rasters.py:393-398 | `1 - M` after `M[M>0] = 1`: a date with a positive mask value weighs 0, a date with mask value v <= 0 weighs 1 - v (so 1 for 0, 3 for -2); no weight is negative |
| TiledSmoother.SmoothedPixel | histmap2/rasters.py:398-399 | the smoothed series has one value per date |
| TiledSmoother.SmoothingResult | histmap2/rasters.py:337-351 | an unopenable raster fails to open; an unopenable mask gives NoneAttribute (line 344 tests the raster again); with both open it succeeds iff width, height and band count agree, else SizeMismatch; on success the bands are the Smoothing |
| TiledSmoother.SameBinarisedMaskSameOutput | histmap2/rasters.py:393-398 | masks that agree after binarising give the same output |
| TiledSmoother.UnmaskedPixelHasUnitWeights | histmap2/rasters.py:398 | a pixel whose mask is 0 on every date is smoothed with unit weights |
| TiledSmoother.TileSmoothing | histmap2/rasters.py:396-399 | Xf has one row per tile pixel |
| TiledSmoother.TileBand | histmap2/rasters.py:404 | `Xf[:,b]` has one value per tile pixel |
| TiledSmoother.BandTileWritten | histmap2/rasters.py:402-405 | writing `Xf[:,b]` extends band b's smoothed region by the tile |
| TiledSmoother.RowOfTilesDone | histmap2/rasters.py:380-384 | past the right edge, the row of tiles is smoothed in every band |
| TiledSmoother.NothingSmoothedYet | histmap2/rasters.py:371 | before the traversal every output band reads 0 |
| TiledSmoother.AllSmoothed | histmap2/rasters.py:375-379 | past the bottom edge, the bands are the smoothing |
| TiledSmoother.ReadTile | histmap2/rasters.py:387-393 | X holds the tile's series and M its binarised mask, row k for the k-th pixel in row-major order |
| TiledSmoother.SmoothRows | histmap2/rasters.py:396-399 | the per-row loop gives TileSmoothing |
| TiledSmoother.SmoothTile | histmap2/rasters.py:386-399 | a tile's Xf is TileSmoothing |
| TiledSmoother.WriteTile | histmap2/rasters.py:402-405 | writing every band's column extends every band's smoothed region by the tile |
| TiledSmoother.SmoothRow | histmap2/rasters.py:380-405 | one row of tiles smooths that row in every band |
| TiledSmoother.SmoothImage | histmap2/rasters.py:320-413 | succeeds iff SmoothingResult does, with the same error; on success a fresh d-band Float64 dataset of the raster's size and georeference holding the smoothing |

## Left out

- Pixel values, predictions and smoothed values are integers. The source's float32 and
  float64 arrays, the float64 output precision and the float-to-uint cast are not modelled.
- The trained model's `predict_gmm` and the Whittaker smoother are abstract function
  parameters. `LabelsEveryRow` and `KeepsLength` assume they return one value per input row
  or date. The source relies on that too.
- The classifier's name is compared with `is`, which is string identity. The model assumes
  the name is one of the two interned literals, as a closed `NPFS(ids) | GMM` datatype. A
  name that is equal but not identical, or any other name, leaves `yp` unbound in the
  source, and the model does not cover that.
- NPFS `ids` are integers. The source's `int(v+1)` on a float id is not modelled.
- TiledClassifier.PredictImage: on a failure after `driver.Create`, the file already created
  on disk is not modelled; the model returns only the error.
- `driver.Create` returning `None` (an output path that cannot be written) is not
  modelled. The source would then fail on an attribute lookup at line 102, 255 or 372.
  In the model, creating an output dataset always succeeds.
- Every `print` and `exit()` becomes an `Err` result, and the messages are not modelled.
- The `MemoryError` handler at lines 192-194 is not modelled, since allocation cannot fail
  in the model.
- `FlushCache`, closing datasets (`= None`) and `del` of bound names are not modelled. They
  do not change the modelled state. The one `del` that can fail (line 197) is modelled as
  `NoSamples`.
- GDAL's own behaviour is not modelled: file formats, drivers, and reads outside a
  dataset. Reads and writes are on in-memory grids, and the native block size is a field of
  the raster.
- Datasets with no band and block sizes of 0 are excluded by `Raster.Valid`. GDAL does not
  produce them for the files these pipelines read.
- The commented-out code at lines 52-61 and 107-119, and the `dialog.py` user interface,
  are not part of this model.
