/** The numpy element types the binding distinguishes. */
module NumPy {

  /** A numpy dtype: the four the Stallone wrappers map, and every other
      one (bool, complex, int8, ...) under its name. */
  datatype DType = Int32 | Int64 | Float32 | Float64 | OtherDType(name: string)

  /** `dtype in _supported_types` (pystallone/__init__.py:37) */
  predicate Supported(d: DType): (b: bool)
    ensures b <==> d == Int32 || d == Int64 || d == Float32 || d == Float64
  {
    !d.OtherDType?
  }

  predicate IsFloat(d: DType) {
    d == Float32 || d == Float64
  }

  predicate IsInt(d: DType) {
    d == Int32 || d == Int64
  }

  /** The width in bits of a supported dtype. */
  function Bits(d: DType): (b: nat)
    requires Supported(d)
    ensures b == 32 || b == 64
  {
    if d == Int32 || d == Float32 then 32 else 64
  }

  /** `str(dtype)` */
  function Name(d: DType): string {
    match d
    case Int32 => "int32"
    case Int64 => "int64"
    case Float32 => "float32"
    case Float64 => "float64"
    case OtherDType(n) => n
  }
}
