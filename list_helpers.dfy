/** Python lists to Java arrays and lists: `list1d_to_java_array`,
    `list2d_to_java_array`, `list_to_jarray`, `jarray` and
    `list_to_java_list` (pystallone/__init__.py:278-348).

    The element-wise conversion JPype performs when a `JArray` is built is
    foreign; the model records the element type chosen, the number of
    dimensions and the list handed over. */
module ListHelpers {
  import opened Wrappers
  import opened Python

  /** The Python values the helpers look at.  `PyInt` is a plain Python 2
      `int`; `bool` and `long` are distinct types (`type(x) is int` is false
      for them) and fall under `PyOther`.  An ndarray is seen through its
      `tolist()`. */
  datatype PyValue =
    | PyInt(i: int)
    | PyFloat(f: real)
    | PyStr(s: string)
    | PyList(items: seq<PyValue>)
    | PyNdArray(asList: PyValue)
    | PyOther(typeName: string)

  datatype JType = JInt | JDouble | JString | JObject

  /** `JArray(elem, dims)(items)` */
  datatype JArrayValue = JArrayValue(elem: JType, dims: nat, items: seq<PyValue>)

  const NotAList := "Not a list: "
  const ListIndex := "list index out of range"
  const NotConvertible := "is not supported for conversion to java array"

  /** The element type picked from one value: JInt, JDouble and JString for
      exactly `int`, `float` and `str`, and JObject for anything else. */
  function ElemType(v: PyValue): (t: JType)
    ensures t == JInt <==> v.PyInt?
    ensures t == JDouble <==> v.PyFloat?
    ensures t == JString <==> v.PyStr?
  {
    match v
    case PyInt(_) => JInt
    case PyFloat(_) => JDouble
    case PyStr(_) => JString
    case _ => JObject
  }

  /** `list1d_to_java_array(a)`: a one-dimensional JArray typed by the
      first element. */
  function List1dToJavaArray(a: PyValue): (r: Result<JArrayValue, PyException>)
    ensures !a.PyList? ==> r == Failure(TypeError(NotAList))
    ensures a.PyList? && |a.items| == 0 ==> r == Failure(IndexError(ListIndex))
    ensures r.Success? <==> a.PyList? && |a.items| > 0
    ensures r.Success? ==> r.value == JArrayValue(ElemType(a.items[0]), 1, a.items)
  {
    if !a.PyList? then Failure(TypeError(NotAList))
    else if |a.items| == 0 then Failure(IndexError(ListIndex))
    else Success(JArrayValue(ElemType(a.items[0]), 1, a.items))
  }

  /** `list2d_to_java_array(a)`: a two-dimensional JArray typed by the
      first element of the first row. */
  function List2dToJavaArray(a: PyValue): (r: Result<JArrayValue, PyException>)
    ensures !a.PyList? ==> r == Failure(TypeError(NotAList))
    ensures a.PyList? && |a.items| == 0 ==> r == Failure(IndexError(ListIndex))
    ensures a.PyList? && |a.items| > 0 && !a.items[0].PyList? ==> r == Failure(TypeError(NotAList))
    ensures a.PyList? && |a.items| > 0 && a.items[0].PyList? && |a.items[0].items| == 0 ==> r == Failure(IndexError(ListIndex))
    ensures r.Success? <==> a.PyList? && |a.items| > 0 && a.items[0].PyList? && |a.items[0].items| > 0
    ensures r.Success? ==> r.value == JArrayValue(ElemType(a.items[0].items[0]), 2, a.items)
  {
    if !a.PyList? then Failure(TypeError(NotAList))
    else if |a.items| == 0 then Failure(IndexError(ListIndex))
    else if !a.items[0].PyList? then Failure(TypeError(NotAList))
    else if |a.items[0].items| == 0 then Failure(IndexError(ListIndex))
    else Success(JArrayValue(ElemType(a.items[0].items[0]), 2, a.items))
  }

  /** `list_to_jarray(a)`: two dimensions when the first element is a list,
      one otherwise; anything but a list falls off the end and gives None. */
  function ListToJarray(a: PyValue): (r: Result<Option<JArrayValue>, PyException>)
    ensures !a.PyList? ==> r == Success(None)
    // the row check of list2d_to_java_array is never reached from here
    ensures r.Failure? ==> r.error == IndexError(ListIndex)
    ensures r.Success? <==>
              !a.PyList? || (|a.items| > 0 && (a.items[0].PyList? ==> |a.items[0].items| > 0))
    ensures r.Success? && r.value.Some? ==>
              && a.PyList? && |a.items| > 0 && r.value.value.items == a.items
              && r.value.value.dims == (if a.items[0].PyList? then 2 else 1)
              && r.value.value.elem ==
                   (if a.items[0].PyList? then ElemType(a.items[0].items[0]) else ElemType(a.items[0]))
  {
    if !a.PyList? then Success(None)
    else if |a.items| == 0 then Failure(IndexError(ListIndex))
    else
      var j := if a.items[0].PyList? then List2dToJavaArray(a) else List1dToJavaArray(a);
      match j
      case Success(v) => Success(Some(v))
      case Failure(e) => Failure(e)
  }

  /** `jarray(a)`: a list is converted directly, an ndarray through its
      `tolist()`, and anything else is refused. */
  function Jarray(a: PyValue): (r: Result<Option<JArrayValue>, PyException>)
    ensures a.PyList? ==> r == ListToJarray(a)
    ensures a.PyNdArray? ==> r == ListToJarray(a.asList)
    ensures !a.PyList? && !a.PyNdArray? ==> r == Failure(TypeError(NotConvertible))
    ensures r.Failure? ==> r.error == IndexError(ListIndex) || r.error == TypeError(NotConvertible)
  {
    if a.PyList? then ListToJarray(a)
    else if a.PyNdArray? then ListToJarray(a.asList)
    else Failure(TypeError(NotConvertible))
  }

  /** The element type comes from the first element alone: a list whose
      first element is an int becomes an int array whatever follows. */
  lemma FirstElementDecides(first: PyValue, rest: seq<PyValue>)
    requires !first.PyList?
    ensures var r := ListToJarray(PyList([first] + rest));
            && r.Success? && r.value.Some?
            && r.value.value == JArrayValue(ElemType(first), 1, [first] + rest)
  {
  }

  /** A nested list whose first row is non-empty becomes a 2-D array typed
      by that row's first element, whatever the other rows hold (they need
      not even be lists; JPype is left to refuse them). */
  lemma FirstRowDecides(row: seq<PyValue>, rest: seq<PyValue>)
    requires |row| > 0
    ensures var r := ListToJarray(PyList([PyList(row)] + rest));
            && r.Success? && r.value.Some?
            && r.value.value == JArrayValue(ElemType(row[0]), 2, [PyList(row)] + rest)
  {
  }

  /** An example: `[1, 2.5]` gives an int array. */
  lemma MixedListTypedByFirst(x: real)
    ensures ListToJarray(PyList([PyInt(1), PyFloat(x)])) ==
            Success(Some(JArrayValue(JInt, 1, [PyInt(1), PyFloat(x)])))
  {
    FirstElementDecides(PyInt(1), [PyFloat(x)]);
    assert [PyInt(1)] + [PyFloat(x)] == [PyInt(1), PyFloat(x)];
  }

  /** An ndarray converts as its `tolist()` does; a 0-d array's `tolist()`
      is a scalar, and gives None. */
  lemma NdarrayAsItsList(l: PyValue)
    ensures Jarray(PyNdArray(l)) == (if l.PyList? then Jarray(l) else Success(None))
  {
  }

  /** `java.util.ArrayList` as the helper uses it: created empty, filled by
      `add`. */
  class JavaArrayList {
    var elems: seq<PyValue>

    /** `java.util.ArrayList(initialCapacity)` */
    constructor (initialCapacity: nat)
      ensures elems == []
    {
      elems := [];
    }

    /** `add(el)`, appending at the end. */
    method Add(x: PyValue)
      modifies this
      ensures elems == old(elems) + [x]
    {
      elems := elems + [x];
    }
  }

  /** `list_to_java_list(a)`: a new Java list holding the elements of `a`
      in order. */
  method ListToJavaList(a: PyValue) returns (r: Result<JavaArrayList, PyException>)
    ensures !a.PyList? ==> r == Failure(TypeError(NotAList))
    ensures a.PyList? ==> r.Success? && fresh(r.value) && r.value.elems == a.items
  {
    if !a.PyList? {
      return Failure(TypeError(NotAList));
    }
    var jlist := new JavaArrayList(|a.items|);
    for i := 0 to |a.items|
      invariant jlist.elems == a.items[..i]
    {
      jlist.Add(a.items[i]);
    }
    assert a.items[..|a.items|] == a.items;
    return Success(jlist);
  }
}
