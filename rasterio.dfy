/** The in-memory stand-in for GDAL datasets: an input raster is a value
    (it is only read), an output raster is an object whose bands are written
    tile by tile. Also open_data_band and create_empty_tiff. */
module RasterIO {
  import opened Results
  import opened Grids
  import opened DataTypes

  /** The six affine coefficients GetGeoTransform returns; only ever copied. */
  type GeoTransform = seq<real>
  /** The spatial reference text GetProjection returns; only ever copied. */
  type Projection = string

  /** An opened dataset: RasterXSize = width, RasterYSize = height, RasterCount = |bands|;
      bands[b] is GDAL band b + 1. The block size and data type are those of band 1. */
  datatype Raster = Raster(
    width: nat,
    height: nat,
    bands: seq<Grid>,
    blockWidth: nat,
    blockHeight: nat,
    dataType: GdalType,
    geoTransform: GeoTransform,
    projection: Projection)
  {
    predicate Valid()
    {
      |bands| >= 1 && 0 < blockWidth && 0 < blockHeight &&
      forall b :: 0 <= b < |bands| ==> Shaped(bands[b], height, width)
    }
  }

  /** The outcome of gdal.Open: None when the file could not be opened. */
  predicate Opened(file: Option<Raster>)
  {
    file.Some? ==> file.value.Valid()
  }

  /** `sp.empty((nl, nc), dtype=dt)`: only the shape and the dtype of the array matter. */
  datatype EmptyImage = EmptyImage(rows: nat, cols: nat, dtype: Dtype)

  /** open_data_band: the dataset and an empty height x width array of the dtype
      matching band 1's GDAL type; fails on an unopenable file or an unmapped type. */
  function OpenDataBand(file: Option<Raster>): (r: Result<(Raster, EmptyImage)>)
    requires Opened(file)
    ensures file.None? ==> r == Err(OpenFailed(RasterFile))
    ensures file.Some? && ArrayType(file.value.dataType).None? ==> r == Err(UnsupportedDataType)
    ensures file.Some? && ArrayType(file.value.dataType).Some? ==> r.Ok?
    ensures r.Ok? ==> file == Some(r.value.0) &&
                      r.value.1.rows == r.value.0.height && r.value.1.cols == r.value.0.width &&
                      Some(r.value.1.dtype) == ArrayType(r.value.0.dataType)
  {
    if file.None? then Err(OpenFailed(RasterFile))
    else
      match ArrayType(file.value.dataType)
      case None => Err(UnsupportedDataType)
      case Some(dt) => Ok((file.value, EmptyImage(file.value.height, file.value.width, dt)))
  }

  function Zeros(height: nat, width: nat): (g: Grid)
    ensures Shaped(g, height, width)
    ensures forall r, c :: 0 <= r < height && 0 <= c < width ==> g[r][c] == 0
  {
    seq(height, _ => seq(width, _ => 0))
  }

  /** A dataset created with driver.Create; bands[b] is GDAL band b + 1. */
  class OutputRaster {
    const width: nat
    const height: nat
    const bandCount: nat
    const dataType: GdalType
    var geoTransform: GeoTransform
    var projection: Projection
    var bands: seq<Grid>

    ghost predicate Valid()
      reads this
    {
      |bands| == bandCount &&
      forall b :: 0 <= b < bandCount ==> Shaped(bands[b], height, width)
    }

    /** `driver.Create(name, width, height, bandCount, dataType)`: every sample reads 0
        and no georeference is set yet. */
    constructor (width: nat, height: nat, bandCount: nat, dataType: GdalType)
      ensures Valid()
      ensures this.width == width && this.height == height
      ensures this.bandCount == bandCount && this.dataType == dataType
      ensures bands == seq(bandCount, _ => Zeros(height, width))
      ensures geoTransform == [] && projection == []
    {
      this.width := width;
      this.height := height;
      this.bandCount := bandCount;
      this.dataType := dataType;
      geoTransform := [];
      projection := [];
      bands := seq(bandCount, _ => Zeros(height, width));
    }

    method SetGeoTransform(g: GeoTransform)
      modifies this`geoTransform
      ensures geoTransform == g
    {
      geoTransform := g;
    }

    method SetProjection(p: Projection)
      modifies this`projection
      ensures projection == p
    {
      projection := p;
    }

    /** `GetRasterBand(band + 1).WriteArray(block.reshape(lines, cols), j, i)`:
        the window takes the block, every other sample of every band is kept. */
    method WriteArray(band: nat, block: seq<int>, j: nat, i: nat, cols: nat, lines: nat)
      requires Valid() && band < bandCount
      requires i + lines <= height && j + cols <= width && |block| == lines * cols
      modifies this`bands
      ensures Valid()
      ensures Window(old(bands)[band], j, i, cols, lines)
      ensures bands == old(bands)[band := Paste(old(bands)[band], block, j, i, cols, lines)]
    {
      bands := bands[band := Paste(bands[band], block, j, i, cols, lines)];
    }
  }

  /** create_empty_tiff: a GeoTIFF of im's shape (nc columns, nl rows) with d bands of
      the GDAL type matching im's dtype, carrying the given georeference. */
  method CreateEmptyTiff(im: EmptyImage, d: nat, geoTransform: GeoTransform, projection: Projection)
    returns (r: Result<OutputRaster>)
    ensures r.Ok? <==> StoredType(im.dtype).Some?
    ensures r.Err? ==> r.error == UnsupportedDataType
    ensures r.Ok? ==> fresh(r.value) && r.value.Valid() &&
                      r.value.width == im.cols && r.value.height == im.rows &&
                      r.value.bandCount == d && Some(r.value.dataType) == StoredType(im.dtype) &&
                      r.value.geoTransform == geoTransform && r.value.projection == projection &&
                      r.value.bands == seq(d, _ => Zeros(im.rows, im.cols))
  {
    var gdalType := StoredType(im.dtype);
    if gdalType.None? {
      return Err(UnsupportedDataType);
    }
    var out := new OutputRaster(im.cols, im.rows, d, gdalType.value);
    out.SetGeoTransform(geoTransform);
    out.SetProjection(projection);
    return Ok(out);
  }
}
