/** The two pixel-type tables of the raster layer: the array dtype allocated for
    a band read from disk (open_data_band) and the GDAL type used to write an
    array to a new GeoTIFF (create_empty_tiff). */
module DataTypes {
  import opened Results

  /** GDAL band data types (the GDT_* constants). */
  datatype GdalType =
    | GdtUnknown | GdtByte | GdtInt8 | GdtUInt16 | GdtInt16 | GdtUInt32 | GdtInt32
    | GdtUInt64 | GdtInt64 | GdtFloat32 | GdtFloat64
    | GdtCInt16 | GdtCInt32 | GdtCFloat32 | GdtCFloat64

  predicate IsComplex(g: GdalType)
  {
    g.GdtCInt16? || g.GdtCInt32? || g.GdtCFloat32? || g.GdtCFloat64?
  }

  /** Array dtype names; Other stands for every name the tables do not mention. */
  datatype Dtype =
    | Bool | Int8 | UInt8 | Int16 | UInt16 | Int32 | UInt32 | Int64 | UInt64
    | Float16 | Float32 | Float64 | Complex64 | Complex128 | Other

  /** Dtype of the array open_data_band allocates for a band of GDAL type g;
      None is the "Data type unkown" exit. */
  function ArrayType(g: GdalType): (r: Option<Dtype>)
    ensures r.None? <==> g in {GdtUnknown, GdtInt8, GdtUInt64, GdtInt64}
    ensures IsComplex(g) ==> r == Some(Complex64)
    ensures r.Some? ==> StoredType(r.value).Some?
  {
    match g
    case GdtByte => Some(UInt8)
    case GdtInt16 => Some(Int16)
    case GdtUInt16 => Some(UInt16)
    case GdtInt32 => Some(Int32)
    case GdtUInt32 => Some(UInt32)
    case GdtFloat32 => Some(Float32)
    case GdtFloat64 => Some(Float64)
    case GdtCInt16 => Some(Complex64)
    case GdtCInt32 => Some(Complex64)
    case GdtCFloat32 => Some(Complex64)
    case GdtCFloat64 => Some(Complex64)
    case _ => None
  }

  /** GDAL type create_empty_tiff gives the output for an array of dtype dt;
      None is the "Data type non-suported" exit. */
  function StoredType(dt: Dtype): (r: Option<GdalType>)
    ensures r.None? <==> dt in {Complex128, Other}
    ensures dt in {Int64, UInt64, Float16, Float32} ==> r == Some(GdtFloat32)
    ensures r.Some? ==> r.value !in {GdtUnknown, GdtInt8, GdtUInt64, GdtInt64}
  {
    match dt
    case Bool => Some(GdtByte)
    case UInt8 => Some(GdtByte)
    case Int8 => Some(GdtInt16)
    case Int16 => Some(GdtInt16)
    case UInt16 => Some(GdtUInt16)
    case Int32 => Some(GdtInt32)
    case UInt32 => Some(GdtUInt32)
    case Int64 => Some(GdtFloat32)
    case UInt64 => Some(GdtFloat32)
    case Float16 => Some(GdtFloat32)
    case Float32 => Some(GdtFloat32)
    case Float64 => Some(GdtFloat64)
    case Complex64 => Some(GdtCFloat64)
    case _ => None
  }

  /** Writing back the array of a band read from disk restores its GDAL type,
      except that every complex type comes back as CFloat64. */
  lemma ReadThenWriteType(g: GdalType)
    requires ArrayType(g).Some?
    ensures StoredType(ArrayType(g).value) == Some(if IsComplex(g) then GdtCFloat64 else g)
  {
  }

  /** The array types that have a GDAL counterpart of their own survive a write
      followed by a read; the others are widened (Bool, Int8) or stored as Float32. */
  lemma WriteThenReadType(dt: Dtype)
    requires StoredType(dt).Some?
    ensures dt in {UInt8, Int16, UInt16, Int32, UInt32, Float32, Float64, Complex64} ==>
              ArrayType(StoredType(dt).value) == Some(dt)
    ensures dt == Bool ==> ArrayType(StoredType(dt).value) == Some(UInt8)
    ensures dt == Int8 ==> ArrayType(StoredType(dt).value) == Some(Int16)
    ensures dt in {Int64, UInt64, Float16} ==> ArrayType(StoredType(dt).value) == Some(Float32)
  {
  }
}
