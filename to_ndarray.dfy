/** Stallone array to numpy ndarray: `stallone_array_to_ndarray`
    (pystallone/__init__.py:215-275), and the way back from the zero-copy
    wrapping of `ndarray_to_stallone_array`. */
module ToNdarray {
  import opened Wrappers
  import opened Python
  import opened NumPy
  import ToStallone

  datatype ArrayKind = IntArray | DoubleArray

  /** A foreign object handed to the converter.  A Stallone array is seen
      through its interface: its kind, whether its Python type IS the
      interface (`type(x) == IDoubleArray`, which a concrete implementation
      class is not), `rows()`, `columns()`, `order()` and the elements of
      `getArray()`. */
  datatype JavaObject<E> =
    | StalloneArray(kind: ArrayKind, exactInterface: bool, rows: nat, cols: nat, order: int, elems: seq<E>)
    | OtherJavaObject(typeName: string)

  /** The resulting ndarray; a `dtype` of None means numpy infers it from
      the elements (`_np.array(..., dtype=None)`). */
  datatype NdResult<E> = NdResult(dtype: Option<DType>, shape: seq<nat>, data: seq<E>)

  const NotAStalloneArray := "can only convert pystallone IDouble- or IIntArrays"
  const CannotReshape := "cannot reshape array"

  /** `_64bit = sys.maxsize > 2**32` (line 35): false on a 32-bit build
      (maxsize 2**31 - 1), true on a 64-bit one (2**63 - 1). */
  predicate Is64Bit(maxsize: int): (b: bool)
    ensures maxsize == 0x7FFF_FFFF ==> !b
    ensures maxsize == 0x7FFF_FFFF_FFFF_FFFF ==> b
  {
    maxsize > 0x1_0000_0000
  }

  /** `shape = (rows, cols) if cols > 1 else (rows,)` (lines 270-273) */
  function ResultShape(rows: nat, cols: nat): (s: seq<nat>)
    ensures |s| == 1 || |s| == 2
    ensures s[0] == rows
    ensures |s| == 2 <==> cols > 1
    ensures |s| == 2 ==> s[1] == cols
  {
    if cols > 1 then [rows, cols] else [rows]
  }

  /** The number of elements an ndarray of this shape holds. */
  function Numel(shape: seq<nat>): nat {
    if |shape| == 0 then 1 else shape[0] * Numel(shape[1..])
  }

  /** The dtype chosen by lines 238-246. */
  function ResultDType(kind: ArrayKind, exactInterface: bool, maxsize: int): (d: Option<DType>)
    ensures d.Some? <==> exactInterface
    ensures d.Some? ==> (d.value == Float64 <==> kind == DoubleArray)
    ensures d.Some? && kind == IntArray ==> d.value == (if Is64Bit(maxsize) then Int64 else Int32)
  {
    if !exactInterface then None
    else if kind == DoubleArray then Some(Float64)
    else if Is64Bit(maxsize) then Some(Int64)
    else Some(Int32)
  }

  /** `stallone_array_to_ndarray(stArray)` on a host whose `sys.maxsize`
      is `maxsize`: the elements are copied in order and reshaped. */
  function StalloneToNdarray<E>(st: JavaObject<E>, maxsize: int): (r: Result<NdResult<E>, PyException>)
    ensures st.OtherJavaObject? ==> r == Failure(TypeError(NotAStalloneArray))
    ensures st.StalloneArray? && st.order > 2 ==> r == Failure(NotImplementedError)
    ensures r.Success? <==>
              st.StalloneArray? && st.order <= 2 && Numel(ResultShape(st.rows, st.cols)) == |st.elems|
    ensures r.Success? ==>
              && r.value.data == st.elems
              && r.value.shape == ResultShape(st.rows, st.cols)
              && r.value.dtype == ResultDType(st.kind, st.exactInterface, maxsize)
  {
    if st.OtherJavaObject? then Failure(TypeError(NotAStalloneArray))
    else if st.order > 2 then Failure(NotImplementedError)
    else
      var shape := ResultShape(st.rows, st.cols);
      if Numel(shape) != |st.elems| then Failure(ValueError(CannotReshape))
      else Success(NdResult(ResultDType(st.kind, st.exactInterface, maxsize), shape, st.elems))
  }

  /** The host's word size decides the dtype of integer arrays and nothing
      else. */
  lemma HostWidthOnlyChangesDType<E>(st: JavaObject<E>, m1: int, m2: int)
    ensures var r1 := StalloneToNdarray(st, m1);
            var r2 := StalloneToNdarray(st, m2);
            && r1.Success? == r2.Success?
            && (r1.Failure? ==> r1 == r2)
            && (r1.Success? ==> r1.value.shape == r2.value.shape && r1.value.data == r2.value.data)
            && (st.StalloneArray? && st.kind == DoubleArray ==> r1 == r2)
  {
  }

  /** The Stallone array that `arrayFrom(jbuff, rows, cols)` builds over a
      direct buffer holding `data`, seen through its interface. */
  function WrappedBuffer<E>(call: ToStallone.Call, exactInterface: bool, order: int, data: seq<E>): (w: JavaObject<E>)
    requires call.FromBuffer?
    ensures w.StalloneArray? && w.kind == DoubleArray
    ensures w.rows == call.rows && w.cols == call.cols && w.order == order && w.elems == data
  {
    StalloneArray(DoubleArray, exactInterface, call.rows, call.cols, order, data)
  }

  /** Zero-copy there and copying back: a 1-D array, or a 2-D array with
      more than one column, comes back with its shape and elements; a 2-D
      single-column array comes back flattened to 1-D; a 2-D array with no
      columns but some rows cannot be reshaped. */
  lemma {:induction false} BufferRoundTrip<E>(a: ToStallone.NdArray, data: seq<E>, exactInterface: bool, order: int, maxsize: int)
    requires a.dtype == Float64 && a.cContiguous && (|a.shape| == 1 || |a.shape| == 2)
    requires |data| == Numel(a.shape) && order <= 2
    ensures var plan := ToStallone.NdarrayToStallone(a, false);
            && plan.Success? && plan.value.call.FromBuffer?
            && var back := StalloneToNdarray(WrappedBuffer(plan.value.call, exactInterface, order, data), maxsize);
            && (|a.shape| == 1 || a.shape[1] > 1 ==>
                  back == Success(NdResult(if exactInterface then Some(Float64) else None, a.shape, data)))
            && (|a.shape| == 2 && a.shape[1] == 1 ==>
                  back.Success? && back.value.shape == [a.shape[0]] && back.value.data == data)
            && (|a.shape| == 2 && a.shape[1] == 0 ==> (back.Success? <==> a.shape[0] == 0))
  {
    var plan := ToStallone.NdarrayToStallone(a, false);
    var call := plan.value.call;
    var rs := ResultShape(call.rows, call.cols);
    assert Numel(rs) == Numel(rs[1..]) * rs[0];
    if |a.shape| == 1 {
      assert a.shape[1..] == [];
      assert rs == a.shape;
    } else {
      assert a.shape[1..] == [a.shape[1]];
      assert a.shape[1..][1..] == [];
      assert Numel(a.shape[1..]) == a.shape[1] * Numel([]);
      assert Numel(a.shape) == a.shape[0] * a.shape[1];
      if a.shape[1] > 1 {
        assert rs == a.shape;
      } else {
        assert rs == [a.shape[0]];
        assert rs[1..] == [];
      }
    }
  }
}
