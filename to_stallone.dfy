/** numpy ndarray to Stallone array: `ndarray_to_stallone_array`
    (pystallone/__init__.py:130-214).

    The array's data, the JArray built from it and the direct buffer are
    foreign; this module computes which foreign call is made: the element
    type the data is coerced to, the warnings given on the way, the factory
    (`API.doublesNew` or `API.intsNew`) and the constructor with its
    arguments. */
module ToStallone {
  import opened Wrappers
  import opened Python
  import opened NumPy

  /** What the function reads of its argument: the dtype, the shape, the
      C-contiguity flag of the array that reaches the zero-copy check (after
      densification and coercion), and whether it is a scipy sparse matrix. */
  datatype NdArray = NdArray(dtype: DType, shape: seq<nat>, cContiguous: bool, sparse: bool)

  datatype Warning =
    | SparseToDense  // "converting sparse object to dense for stallone."
    | UpcastFloats   // "Upcasting floats to doubles!"
    | DowncastLong   // "Downcasting long to 32 bit integer!..."

  datatype Factory = DoublesNew | IntsNew

  datatype Ctor = Array | ArrayFrom | Table

  /** A factory call: on a JArray of `dims` dimensions built from the data,
      or `arrayFrom(jbuff, rows, cols)` on a direct buffer over it. */
  datatype Call = FromJArray(ctor: Ctor, dims: nat) | FromBuffer(rows: nat, cols: nat)

  datatype Plan = Plan(elemType: DType, warnings: seq<Warning>, factory: Factory, call: Call)

  const NotContiguous := "Can only pass contiguous memory to Java!"
  const UnsupportedShape := "unsupported shape:"
  const TupleIndex := "tuple index out of range"

  function UnsupportedType(d: DType): string {
    "Given type " + Name(d) + " not mapped in stallone library"
  }

  /** The cast of lines 167-173: float32 up to float64, int64 down to int32. */
  function Coerced(d: DType): (c: DType)
    requires Supported(d)
    ensures c == (if IsFloat(d) then Float64 else Int32)
  {
    if d == Float32 then Float64 else if d == Int64 then Int32 else d
  }

  /** The warnings of lines 156-173, in the order they are given. */
  function WarningsFor(a: NdArray): (w: seq<Warning>)
    ensures SparseToDense in w <==> a.sparse
    ensures UpcastFloats in w <==> a.dtype == Float32
    ensures DowncastLong in w <==> a.dtype == Int64
  {
    (if a.sparse then [SparseToDense] else [])
    + (if a.dtype == Float32 then [UpcastFloats] else [])
    + (if a.dtype == Int64 then [DowncastLong] else [])
  }

  /** Lines 175-214, after the dtype check and the coercion: the zero-copy
      path for doubles, then the dispatch on the rank.  The two
      "type not mapped to a stallone factory" raises (lines 199 and 211)
      cannot be reached, because every supported dtype picks a factory. */
  function Dispatch(a: NdArray, copy: bool, warnings: seq<Warning>): (r: Result<Plan, PyException>)
    requires Supported(a.dtype)
    ensures r.Success? ==> r.value.warnings == warnings && r.value.elemType == Coerced(a.dtype)
    ensures r.Success? ==> r.value.factory == (if IsFloat(a.dtype) then DoublesNew else IntsNew)
    ensures r.Failure? ==>
              r.error in {RuntimeError(NotContiguous), IndexError(TupleIndex), ValueError(UnsupportedShape)}
  {
    var elemType := Coerced(a.dtype);
    if IsFloat(a.dtype) then
      if !copy then
        if !a.cContiguous then Failure(RuntimeError(NotContiguous))
        else if |a.shape| == 0 then Failure(IndexError(TupleIndex))
        else
          var rows := a.shape[0];
          var cols := if |a.shape| == 1 then 1 else a.shape[1];
          Success(Plan(elemType, warnings, DoublesNew, FromBuffer(rows, cols)))
      else if |a.shape| == 1 then Success(Plan(elemType, warnings, DoublesNew, FromJArray(Array, 1)))
      else if |a.shape| == 2 then Success(Plan(elemType, warnings, DoublesNew, FromJArray(Array, 2)))
      else Failure(ValueError(UnsupportedShape))
    else
      if |a.shape| == 1 then Success(Plan(elemType, warnings, IntsNew, FromJArray(ArrayFrom, 1)))
      else if |a.shape| == 2 then Success(Plan(elemType, warnings, IntsNew, FromJArray(Table, 2)))
      else Failure(ValueError(UnsupportedShape))
  }

  /** `ndarray_to_stallone_array(pyarray, copy)`, with the warnings given
      as evidently intended (the module never imports `_warnings` or
      `_log`; see NdarrayToStalloneAsWritten). */
  function NdarrayToStallone(a: NdArray, copy: bool): (r: Result<Plan, PyException>)
    // the dtype is checked before anything else
    ensures !Supported(a.dtype) ==> r == Failure(TypeError(UnsupportedType(a.dtype)))
    // floats are handed over as float64 to doublesNew, integers as int32 to intsNew
    ensures r.Success? ==> Supported(a.dtype)
    ensures r.Success? ==> r.value.elemType == (if IsFloat(a.dtype) then Float64 else Int32)
    ensures r.Success? ==> (r.value.factory == DoublesNew <==> IsFloat(a.dtype))
    // each lossy or costly step is announced, and only those
    ensures r.Success? ==> var w := r.value.warnings;
              && (SparseToDense in w <==> a.sparse)
              && (UpcastFloats in w <==> a.dtype == Float32)
              && (DowncastLong in w <==> a.dtype == Int64)
    // the zero-copy path: doubles only, contiguous only, and before any rank check
    ensures IsFloat(a.dtype) && !copy && !a.cContiguous ==> r == Failure(RuntimeError(NotContiguous))
    ensures IsFloat(a.dtype) && !copy && a.cContiguous && |a.shape| == 0 ==> r == Failure(IndexError(TupleIndex))
    ensures (r.Success? && r.value.call.FromBuffer?) <==>
              IsFloat(a.dtype) && !copy && a.cContiguous && |a.shape| >= 1
    ensures r.Success? && r.value.call.FromBuffer? ==>
              r.value.call == FromBuffer(a.shape[0], if |a.shape| == 1 then 1 else a.shape[1])
    // the copying path (every integer array, and doubles with copy=True)
    ensures Supported(a.dtype) && (copy || IsInt(a.dtype)) ==>
              (r.Success? <==> |a.shape| == 1 || |a.shape| == 2) &&
              (r.Failure? ==> r.error == ValueError(UnsupportedShape))
    ensures r.Success? && r.value.call.FromJArray? ==>
              && r.value.call.dims == |a.shape|
              && r.value.call.ctor == (if IsFloat(a.dtype) then Array else if |a.shape| == 1 then ArrayFrom else Table)
  {
    if !Supported(a.dtype) then Failure(TypeError(UnsupportedType(a.dtype)))
    else Dispatch(a, copy, WarningsFor(a))
  }

  /** `ndarray_to_stallone_array` as written: `_log` (line 157) and
      `_warnings` (lines 168 and 171) are not defined in the module, so
      every input that would be warned about raises NameError instead. */
  function NdarrayToStalloneAsWritten(a: NdArray, copy: bool): (r: Result<Plan, PyException>)
    ensures r.Success? ==> r.value.warnings == []
  {
    if !Supported(a.dtype) then Failure(TypeError(UnsupportedType(a.dtype)))
    else if a.sparse then Failure(NameError("_log"))
    else if a.dtype == Float32 || a.dtype == Int64 then Failure(NameError("_warnings"))
    else Dispatch(a, copy, [])
  }

  /** The missing imports matter exactly when a warning is due: then the
      code as written raises NameError where the intended conversion goes
      on; otherwise the two agree. */
  lemma MissingImportsDiscrepancy(a: NdArray, copy: bool)
    ensures Supported(a.dtype) && WarningsFor(a) != [] ==>
              NdarrayToStalloneAsWritten(a, copy).Failure? &&
              NdarrayToStalloneAsWritten(a, copy).error.NameError? &&
              NdarrayToStallone(a, copy) == Dispatch(a, copy, WarningsFor(a))
    ensures !Supported(a.dtype) || WarningsFor(a) == [] ==>
              NdarrayToStalloneAsWritten(a, copy) == NdarrayToStallone(a, copy)
  {
  }

  /** The smallest input that shows it: a dense 1-D float32 array. */
  lemma Float32RaisesAsWritten(n: nat)
    ensures var a := NdArray(Float32, [n], true, false);
            && NdarrayToStalloneAsWritten(a, true) == Failure(NameError("_warnings"))
            && NdarrayToStallone(a, true) == Success(Plan(Float64, [UpcastFloats], DoublesNew, FromJArray(Array, 1)))
  {
    var a := NdArray(Float32, [n], true, false);
    assert WarningsFor(a) == [UpcastFloats];
    assert Dispatch(a, true, [UpcastFloats]) == Success(Plan(Float64, [UpcastFloats], DoublesNew, FromJArray(Array, 1)));
  }

  // Properties of the intended conversion.

  /** Coercion is one-way: floats are only ever
      widened and integers only ever narrowed, and a warning is given
      exactly when the element type changes. */
  lemma CoercionOneWay(a: NdArray, copy: bool)
    requires NdarrayToStallone(a, copy).Success?
    ensures var p := NdarrayToStallone(a, copy).value;
            && Supported(p.elemType)
            && (IsFloat(a.dtype) ==> Bits(p.elemType) >= Bits(a.dtype))
            && (IsInt(a.dtype) ==> Bits(p.elemType) <= Bits(a.dtype))
            && (p.elemType != a.dtype <==> UpcastFloats in p.warnings || DowncastLong in p.warnings)
  {
  }

  /** The copy flag is ignored for integer arrays. */
  lemma CopyFlagIgnoredForInts(a: NdArray)
    requires IsInt(a.dtype)
    ensures NdarrayToStallone(a, true) == NdarrayToStallone(a, false)
  {
  }

  /** An unsupported dtype is refused whatever the rest of the input. */
  lemma DTypeCheckedFirst(a: NdArray, b: NdArray, copyA: bool, copyB: bool)
    requires !Supported(a.dtype) && b.dtype == a.dtype
    ensures NdarrayToStallone(a, copyA) == NdarrayToStallone(b, copyB)
  {
  }

  /** A non-contiguous 1-D or 2-D float array is refused for zero copy and
      accepted for copying. */
  lemma CopyRescuesNonContiguous(a: NdArray)
    requires IsFloat(a.dtype) && !a.cContiguous && (|a.shape| == 1 || |a.shape| == 2)
    ensures NdarrayToStallone(a, false) == Failure(RuntimeError(NotContiguous))
    ensures NdarrayToStallone(a, true).Success?
  {
  }

  /** The zero-copy path returns before the rank check: a contiguous float
      array of rank three or more is wrapped with its first two extents,
      where copying refuses it. */
  lemma ZeroCopySkipsRankCheck(a: NdArray)
    requires IsFloat(a.dtype) && a.cContiguous && |a.shape| >= 3
    ensures NdarrayToStallone(a, false).Success?
    ensures NdarrayToStallone(a, false).value.call == FromBuffer(a.shape[0], a.shape[1])
    ensures NdarrayToStallone(a, true) == Failure(ValueError(UnsupportedShape))
  {
  }
}
