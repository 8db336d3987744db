/** Outcomes of the raster pipelines. Every place where the Python code prints
    a message and calls exit(), or would raise an exception, is a failure value
    returned to the caller. */
module Results {

  /** Which of a pipeline's input files an open failure concerns. */
  datatype Input = RasterFile | RoiFile | MaskFile

  datatype Error =
    /** gdal.Open returned None: "Impossible to open ..." followed by exit(). */
    | OpenFailed(input: Input)
    /** Co-registered rasters disagree on width, height or (for smoothing) band count. */
    | SizeMismatch
    /** The pixel type of a raster or array has no entry in the type tables. */
    | UnsupportedDataType
    /** `del Xtp, band` after a traversal that never bound them (no nonzero ROI pixel). */
    | NoSamples
    /** An attribute was looked up on None: a mask that failed to open, or a band index
        that GetRasterBand does not have. */
    | NoneAttribute

  datatype Result<T> = Ok(value: T) | Err(error: Error)

  datatype Option<T> = None | Some(value: T)
}
