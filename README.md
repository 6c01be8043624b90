# pystallone, modelled in Dafny

pystallone is the Python binding of the Stallone Java library. It starts a
JVM through JPype with the bundled Stallone jar on the classpath. It then
converts between numpy arrays and Stallone's `IDoubleArray`/`IIntArray`, and
turns Python lists into Java arrays and lists. This project models those
operations of `pystallone/__init__.py` and proves what they promise.

Files, one module each:

- `wrappers.dfy`: `Option` and `Result`.
- `python.dfy`: the Python built-ins the code relies on.
  - the exceptions it raises, as values of `PyException` (a raise is a `Failure`);
  - `str.find`, with its specification proved (`FindSpec`);
  - slicing with non-negative or omitted bounds, clamped as Python clamps them.
- `bootstrap.dfy`: `startJVM` and its nested `append_to_classpath`.
  - The caller's argument list is a class `PyList`, mutated in place.
  - The module globals `stallone` and `API`, and the process's one JVM, are the fields of a class `PyStallone`.
  - The search loop is a method with its invariants, proved against a specification function (`FirstWithMarker`, `ExtendedArg`, `SplicedArgs`).
- `numpy.dfy`: the numpy dtypes.
- `to_stallone.dfy`: `ndarray_to_stallone_array` as a decision table. It returns the element type, the warnings, the factory and the call made, or the exception raised.
- `to_ndarray.dfy`: `stallone_array_to_ndarray`, and the round trip through the zero-copy wrapping.
- `list_helpers.dfy`: `list1d_to_java_array`, `list2d_to_java_array`, `list_to_jarray` and `jarray` as functions. `list_to_java_list` is a method that fills a `java.util.ArrayList` in a loop.

Inputs of the model. The platform facts the code queries are parameters (the `Host` datatype):

- `os.name`;
- the location of the bundled jar, and whether it exists;
- JPype's default JVM path;
- the Python type name the started JVM reports for `stallone.api.API`;
- `sys.maxsize`.

Foreign objects are described by what the code reads of them:

- an ndarray by its dtype, shape, C-contiguity and sparseness;
- a Stallone array by its interface, `rows()`, `columns()`, `order()` and its elements;
- a Python value by its exact type.

Behaviour modelled as the code does it:

- Classpath splicing keeps only the text of the classpath argument from
  `-Djava.class.path=` up to the first space.
  - A property packed before or after the classpath in the same argument is dropped.
  - The space offset is looked up in the text that starts at the marker, but it is used as an offset into the whole argument. So a classpath preceded by other text is cut short (`ClasspathTokenTruncated`, `PackedArgumentMangled`). When that text is at least as long as the classpath token, nothing of it is kept: the argument becomes the separator and the jar alone, with no `-Djava.class.path=` left, so the jar reaches no classpath (`ClasspathLostBehindLongPrefix`).
  - Text after the first space in the classpath argument is not kept.
  - When the classpath argument starts with the marker, the jar lands at the end of the first classpath argument as intended (`LeadingMarkerExtended`, `JarReachesClasspath`).
- List helpers:
  - An empty list raises IndexError, from the `a[0]` lookup.
  - `list_to_jarray` of a non-list returns None; it does not raise.
  - The element type comes from the first element alone.
- `args=None`: `startJVM` passes the jar check, reads the length as 0 and then fails with AttributeError on `None.append`.
- The zero-copy path of `ndarray_to_stallone_array` returns before the rank check.
  - A contiguous float array of rank 3 or more is wrapped with its first two extents.
  - A 0-d array raises IndexError.
- `stallone_array_to_ndarray` gives `dtype` None (numpy infers it) whenever the object's Python type is a concrete class rather than the interface itself. The comparison is `type(x) == IDoubleArray`.

## Model

| member | source | states |
|---|---|---|
| Python.Find | pystallone/__init__.py:100 | `str.find` returns -1 or an index at which the pattern fits in the string |
| Python.FindSpec | pystallone/__init__.py:100 | -1 exactly when the pattern occurs nowhere; otherwise an occurrence with none before it |
| Python.FindIs | pystallone/__init__.py:100 | the first occurrence is what `find` returns |
| Python.Slice | pystallone/__init__.py:107 | `s[start:stop]` has the clamped length and holds `s[start + i]` at `i` |
| Bootstrap.Separator | pystallone/__init__.py:72-75 | the classpath separator is one character (':' on posix, ';' otherwise) |
| Bootstrap.HasMarker | pystallone/__init__.py:100-102 | `find` of the marker is not -1 exactly when the marker occurs somewhere in the argument |
| Bootstrap.FirstWithMarker | pystallone/__init__.py:99-109 | the loop stops at the first argument holding `-Djava.class.path=`, or finds none (-1) exactly when no argument holds it |
| Bootstrap.ExtendedArg | pystallone/__init__.py:100-107 | the rewritten classpath argument ends with the separator and the jar, and what precedes them is a prefix of the text from the marker on (the text before the marker is never kept) |
| Bootstrap.SplicedArgs | pystallone/__init__.py:111-114 | the list after the splice grows by one exactly when no argument holds the marker, and every argument but the first marked one is kept in place |
| Bootstrap.ScanArgs | pystallone/__init__.py:92-109 | the search loop sets `cp_extended` exactly when some argument holds the marker; it stops at the first one and builds that argument's replacement |
| Bootstrap.AppendToClasspath | pystallone/__init__.py:67-116 | a missing jar raises RuntimeError and leaves the list alone; `None` raises AttributeError; otherwise the same list object is returned, spliced in place |
| Bootstrap.PyList.Append | pystallone/__init__.py:112 | `list.append` adds one element at the end |
| Bootstrap.PyList.SetItem | pystallone/__init__.py:114 | `list[i] = x` replaces element `i` only |
| Bootstrap.ResolveJvm | pystallone/__init__.py:64-65 | an omitted or empty JVM path is replaced by JPype's default, any other is kept |
| Bootstrap.InitCheck | pystallone/__init__.py:121-128 | start-up fails with RuntimeError exactly when `API`'s type is not `stallone.api.API$$Static` (as intended) |
| Bootstrap.InitCheckAsWritten | pystallone/__init__.py:121-128 | as written, the failing check raises NameError, because `_log` is undefined |
| Bootstrap.InitCheckDiscrepancy | pystallone/__init__.py:127 | the two checks agree on success and differ in the exception class on every failure |
| Bootstrap.PyStallone.constructor | pystallone/__init__.py:40-42 | after import, `stallone` and `API` are None and no JVM runs |
| Bootstrap.PyStallone.StartJVM | pystallone/__init__.py:44-128 | error paths leave the globals unchanged; a second start fails; otherwise the JVM is started on the spliced arguments, the globals are bound and the identity check decides the outcome; on a type mismatch this is the corrected check (`InitCheck`, RuntimeError), where the code as written raises NameError (`InitCheckAsWritten`, see Findings) |
| Bootstrap.NoMarkerAppendsClasspath | pystallone/__init__.py:111-112 | with no classpath argument, one is appended holding the jar alone and every other argument is kept in order |
| Bootstrap.OnlyFirstMarkerRewritten | pystallone/__init__.py:113-114 | with a classpath argument, only the first one is rewritten; the length and every other position stay |
| Bootstrap.UpToSpace | pystallone/__init__.py:105-106 | the prefix of an argument up to its first space: it holds no space, and it is followed by a space or by the end |
| Bootstrap.MarkerFoundAtZero | pystallone/__init__.py:100 | an argument starting with the marker has it found at index 0 |
| Bootstrap.LeadingMarkerExtended | pystallone/__init__.py:100-107 | an argument starting with the marker becomes its text up to the first space, plus the separator, plus the jar |
| Bootstrap.LeadingMarkerNoSpace | pystallone/__init__.py:105-107 | such an argument without a space gets the separator and the jar appended |
| Bootstrap.DevNullClasspath | pystallone/tests/00_test_init_with_args.py:7 | the test's `-Djava.class.path=/dev/null` becomes `/dev/null:` plus the jar, on posix |
| Bootstrap.TestArgsOnPosix | pystallone/tests/00_test_init_with_args.py:7-10 | the test's argument list becomes `['-Xms64m', '-Djava.class.path=/dev/null:' + jar]` |
| Bootstrap.MarkerPrefixKept | pystallone/__init__.py:105-107 | the marker survives the cut at the first space |
| Bootstrap.JarReachesClasspath | pystallone/__init__.py:98-116 | when the first classpath argument starts with the marker (or there is none), the result's first classpath argument is at the same place (or at the end) and ends with the jar |
| Bootstrap.JarAppended | pystallone/__init__.py:111-112 | the appended classpath argument is the first one of the result and ends with the jar |
| Bootstrap.JarSpliced | pystallone/__init__.py:113-114 | the rewritten classpath argument stays the first one and ends with the jar |
| Bootstrap.FirstAt | pystallone/__init__.py:99-109 | the index of a marker with none before it is where the search stops |
| Bootstrap.StartsAndEnds | pystallone/__init__.py:107 | `cp + sep + jar` ends with the jar and keeps a leading marker |
| Bootstrap.ClasspathTokenTruncated | pystallone/__init__.py:105-107 | with text before the marker and a space after it, the kept classpath is strictly shorter than the token up to the space |
| Bootstrap.ClasspathLostBehindLongPrefix | pystallone/__init__.py:105-107 | when the text before the marker is at least as long as the classpath token, the argument becomes the separator and the jar alone |
| Bootstrap.PrefixBeforeMarkerDropped | pystallone/__init__.py:107 | with text before the marker and no space after it, that text is dropped |
| Bootstrap.MarkerAtSix | pystallone/__init__.py:100 | the marker after `-Dx=1 ` is found at index 6 |
| Bootstrap.SpaceAfterPath | pystallone/__init__.py:105 | the first space after the marker in `-Djava.class.path=/lib/a.jar -Dy=2` is at offset 28 |
| Bootstrap.PackedArgumentMangled | pystallone/__init__.py:100-107 | `-Dx=1 -Djava.class.path=/lib/a.jar -Dy=2` becomes `-Djava.class.path=/lib:` plus the jar |
| NumPy.Supported | pystallone/__init__.py:37 | a dtype is supported exactly when it is int32, int64, float32 or float64 |
| NumPy.Bits | pystallone/__init__.py:37 | every supported dtype is 32 or 64 bits wide |
| ToStallone.Coerced | pystallone/__init__.py:167-173 | floats are handed over as float64, integers as int32 |
| ToStallone.WarningsFor | pystallone/__init__.py:156-173 | a warning is given for sparse input, for float32 and for int64, exactly then |
| ToStallone.NdarrayToStallone | pystallone/__init__.py:130-214 | the full decision table: the dtype is checked first (TypeError); the factory and element type follow the kind; the zero-copy path is taken exactly for contiguous floats of rank at least one with copy off, with `(shape[0], cols)`; a non-contiguous float raises RuntimeError there and a 0-d one IndexError; copying accepts exactly ranks 1 and 2, else ValueError; the constructor follows the kind and the rank |
| ToStallone.Dispatch | pystallone/__init__.py:175-214 | after the dtype check, a success carries the warnings given so far, the coerced element type and the kind's factory; the only exceptions raised are the RuntimeError on non-contiguous memory, the IndexError of a 0-d shape and the ValueError of an unsupported rank |
| ToStallone.NdarrayToStalloneAsWritten | pystallone/__init__.py:155-173 | as written, a successful conversion carries no warnings (every warned input raises NameError) |
| ToStallone.MissingImportsDiscrepancy | pystallone/__init__.py:157-171 | the as-written code and the intended code agree exactly when no warning is due; otherwise the former raises NameError |
| ToStallone.Float32RaisesAsWritten | pystallone/__init__.py:167-169 | a dense 1-D float32 array raises NameError as written, and is upcast with a warning as intended |
| ToStallone.CoercionOneWay | pystallone/__init__.py:165-173 | floats are only widened and integers only narrowed; a warning is given exactly when the element type changes |
| ToStallone.CopyFlagIgnoredForInts | pystallone/__init__.py:180-190 | integer arrays convert the same with and without copy |
| ToStallone.DTypeCheckedFirst | pystallone/__init__.py:152-153 | an unsupported dtype is refused whatever the shape, layout, sparseness or copy flag |
| ToStallone.CopyRescuesNonContiguous | pystallone/__init__.py:180-212 | a non-contiguous 1-D or 2-D float array is refused without copy and accepted with copy |
| ToStallone.ZeroCopySkipsRankCheck | pystallone/__init__.py:180-214 | a contiguous float array of rank 3 or more is wrapped with its first two extents without copy, and refused with copy |
| ToNdarray.Is64Bit | pystallone/__init__.py:35 | a 32-bit build (`sys.maxsize` 2**31 - 1) is not taken for 64-bit, a 64-bit build (2**63 - 1) is |
| ToNdarray.ResultShape | pystallone/__init__.py:270-273 | the shape is `(rows, cols)` exactly when cols > 1, else `(rows,)` |
| ToNdarray.ResultDType | pystallone/__init__.py:238-246 | a dtype is fixed exactly when the object's type is the interface itself: float64 for doubles, int64 or int32 for ints by host width |
| ToNdarray.StalloneToNdarray | pystallone/__init__.py:215-275 | a non-array raises TypeError; order above 2 raises NotImplementedError; it succeeds exactly when the element count fits the shape, with the elements in order |
| ToNdarray.WrappedBuffer | pystallone/__init__.py:187 | the assumed result of `arrayFrom(jbuff, rows, cols)`: a double array reporting the given rows and columns, the buffer's elements and an order supplied by the caller |
| ToNdarray.HostWidthOnlyChangesDType | pystallone/__init__.py:35 | the host width changes only the dtype of integer arrays |
| ToNdarray.BufferRoundTrip | pystallone/__init__.py:180-187 | a zero-copy wrapped 1-D array, or a 2-D array with more than one column, comes back unchanged; a single column comes back flattened; a 2-D array with zero columns but some rows cannot be reshaped back |
| ListHelpers.ElemType | pystallone/__init__.py:282-290 | JInt, JDouble and JString exactly for `int`, `float` and `str` |
| ListHelpers.List1dToJavaArray | pystallone/__init__.py:278-292 | a non-list raises TypeError; an empty list raises IndexError; otherwise a 1-D array of the whole list typed by its first element |
| ListHelpers.List2dToJavaArray | pystallone/__init__.py:307-324 | a non-list, or a first element that is not a list, raises TypeError; an empty list or an empty first row raises IndexError; otherwise a 2-D array typed by the first element of the first row |
| ListHelpers.ListToJarray | pystallone/__init__.py:327-336 | a non-list gives None; only IndexError can be raised; the rank follows the first element |
| ListHelpers.Jarray | pystallone/__init__.py:339-348 | a list converts directly, an ndarray through `tolist()`, anything else raises TypeError |
| ListHelpers.FirstElementDecides | pystallone/__init__.py:282-290 | a list whose first element is not a list becomes a 1-D array typed by that element, whatever follows |
| ListHelpers.FirstRowDecides | pystallone/__init__.py:311-320 | a nested list becomes a 2-D array typed by the first element of its first row |
| ListHelpers.MixedListTypedByFirst | pystallone/__init__.py:282-283 | `[1, x]` with a float `x` becomes an int array |
| ListHelpers.NdarrayAsItsList | pystallone/__init__.py:345-346 | an ndarray converts as its `tolist()` does; a 0-d array gives None |
| ListHelpers.JavaArrayList.constructor | pystallone/__init__.py:299 | a new `ArrayList` is empty |
| ListHelpers.JavaArrayList.Add | pystallone/__init__.py:301 | `add` appends at the end |
| ListHelpers.ListToJavaList | pystallone/__init__.py:294-304 | a non-list raises TypeError; otherwise a new Java list with the elements of the list in order |

## Left out

- JPype and the JVM are not modelled.
  - `jpype.startJVM` is reduced to recording its launch and refusing a second one.
  - JPackage lookup is reduced to the names bound.
  - How JPype converts elements when it builds a `JArray` is not modelled.
  - Stallone's factory methods and the objects they build are outside the model; only the call chosen is. The one exception is the round trip through `arrayFrom`, whose result is assumed (see `ToNdarray.BufferRoundTrip` below).
- numpy is outside the model. `astype`, `todense`, the direct-buffer conversion and `reshape`'s own layout rules are reduced to the facts the code branches on. The element values an `astype` cast produces are not modelled.
- Exception messages are kept as their literal text, without the formatted representation of the offending value:
  - `str(a)` in "Not a list: ";
  - the type in `jarray`'s message;
  - the shape argument of the ValueError;
  - numpy's reshape message.
- Calling a converter before `startJVM` (when `API` is None and the factory lookup fails) is not modelled. The converters assume a started JVM.
- Logging output is not modelled. The warnings of lines 157, 168 and 171 are `Warning` tags in the intended conversion (`ToStallone.NdarrayToStallone`) and NameError in the as-written one (`ToStallone.NdarrayToStalloneAsWritten`). The `_log.exception` call of line 127 is not modelled; `Bootstrap.InitCheckAsWritten` models only the NameError it raises.
- Bootstrap.PyStallone.StartJVM: ends with the corrected identity check, so on a type mismatch it returns RuntimeError where the code as written raises NameError; `Bootstrap.InitCheckAsWritten` states the as-written outcome.
- Without a sparse input, the `NdArray` shape and contiguity are those of the (coerced) array itself. A sparse input is described by the dense matrix it becomes.
- `ListHelpers.JavaArrayList.constructor`: the initial-capacity hint is accepted and has no observable effect; capacity growth is not modelled.
- ToNdarray.BufferRoundTrip: assumes that the object `arrayFrom(jbuff, rows, cols)` returns is a double array (`IDoubleArray`) whose `rows()` and `columns()` report the rows and columns it was given, whose `getArray()` holds the buffer's elements in order, and whose `order()` is at most 2 (a parameter), as `ToNdarray.WrappedBuffer` states; Stallone is not part of this model, so none of this is proved.
- Strings are modelled as sequences of characters, while a Python 2 `str` is a sequence of bytes: when non-ASCII text precedes the marker, the offsets `find` returns at lines 100-107 are byte offsets, and the model's differ.
- The packaging script (`setup.py`) is not part of this model.

## Findings

| source | as written | input that shows it | evidently intended | confidence | as-written member | corrected member |
|---|---|---|---|---|---|---|
| pystallone/__init__.py:157, :168, :171 | `_log.warning` and `_warnings.warn` name globals the module never defines | a dense 1-D float32 array with `copy=True` | warn, upcast to float64 and convert | high (not executed) | ToStallone.NdarrayToStalloneAsWritten, ToStallone.Float32RaisesAsWritten | ToStallone.NdarrayToStallone |
| pystallone/__init__.py:127 | the handler for a failed identity check calls `_log.exception`, which is never defined | a started JVM whose `stallone.api.API` has any other type name | log the failure and re-raise the RuntimeError | high (not executed) | Bootstrap.InitCheckAsWritten, Bootstrap.InitCheckDiscrepancy | Bootstrap.InitCheck, Bootstrap.PyStallone.StartJVM |
