/** Runtime bootstrap: `startJVM` and its nested `append_to_classpath`
    (pystallone/__init__.py:44-128).

    The binding looks up the bundled Stallone jar, splices it into the JVM
    argument list (rewriting the first `-Djava.class.path=` argument or
    appending a new one), starts the JVM and binds the module globals
    `stallone` and `API`.  The platform facts the code queries (os.name, the
    jar's location and existence, jpype's default JVM path, and the type name
    the started JVM reports for `stallone.api.API`) are inputs. */
module Bootstrap {
  import opened Wrappers
  import opened Python

  const ClasspathMarker := "-Djava.class.path="
  const JarNotFound := "stallone jar not found! Expected it here: "
  const ExpectedApiType := "stallone.api.API$$Static"
  const InitBorked := "Stallone package initialization borked. Check your JAR/classpath!"
  const NoneHasNoAppend := "'NoneType' object has no attribute 'append'"

  /** The classpath separator: ':' when os.name is 'posix', ';' otherwise. */
  function Separator(isPosix: bool): (sep: string)
    ensures |sep| == 1
  {
    if isPosix then ":" else ";"
  }

  /** `find('-Djava.class.path=') != -1`: the marker occurs somewhere. */
  predicate HasMarker(arg: string): (b: bool)
    ensures b <==> exists k: nat :: OccursAt(arg, ClasspathMarker, k)
  {
    FindSpec(arg, ClasspathMarker);
    Find(arg, ClasspathMarker) != -1
  }

  /** The index the search loop stops at: the first argument holding the
      marker anywhere in it, or -1 if none does. */
  function FirstWithMarker(args: seq<string>): (k: int)
    ensures -1 <= k < |args|
    ensures k == -1 <==> forall j :: 0 <= j < |args| ==> !HasMarker(args[j])
    ensures k >= 0 ==> HasMarker(args[k]) && forall j :: 0 <= j < k ==> !HasMarker(args[j])
  {
    if |args| == 0 then
      -1
    else if HasMarker(args[0]) then
      0
    else
      var k := FirstWithMarker(args[1..]);
      assert forall j :: 0 < j < |args| ==> args[j] == args[1..][j - 1];
      if k == -1 then -1 else k + 1
  }

  /** The rewritten classpath argument.  The space offset `p` is found in
      the text that starts at the marker but is then used as an absolute
      slice end, and the text before the marker and from the first space on
      is not kept. */
  function ExtendedArg(arg: string, sep: string, jarFile: string): (v: string)
    requires HasMarker(arg)
    ensures |sep| + |jarFile| <= |v|
    // the kept text is a prefix of the text from the marker on
    ensures v[..|v| - |sep| - |jarFile|] <= arg[Find(arg, ClasspathMarker)..]
    ensures v[|v| - |sep| - |jarFile|..] == sep + jarFile
  {
    var cpInd := Find(arg, ClasspathMarker);
    var p := Find(arg[cpInd..], " ");
    Slice(arg, cpInd, if p > 0 then Some(p) else None) + sep + jarFile
  }

  /** The argument list `append_to_classpath` leaves behind. */
  function SplicedArgs(args: seq<string>, sep: string, jarFile: string): (r: seq<string>)
    ensures |r| == |args| + (if FirstWithMarker(args) == -1 then 1 else 0)
    ensures forall j :: 0 <= j < |args| && j != FirstWithMarker(args) ==> r[j] == args[j]
  {
    var k := FirstWithMarker(args);
    if k == -1 then args + [ClasspathMarker + jarFile]
    else args[k := ExtendedArg(args[k], sep, jarFile)]
  }

  /** The search loop of lines 92-109: the index of the first argument with
      the marker and that argument's replacement. */
  method ScanArgs(args: seq<string>, sep: string, jarFile: string)
    returns (cpExtended: bool, argInd: int, cpStr: string)
    ensures cpExtended <==> exists j :: 0 <= j < |args| && HasMarker(args[j])
    ensures argInd == FirstWithMarker(args)
    ensures cpExtended ==> cpStr == ExtendedArg(args[argInd], sep, jarFile)
  {
    cpExtended, argInd, cpStr := false, -1, "";
    var cpInd := -1;
    for i := 0 to |args|
      invariant !cpExtended && argInd == -1
      invariant forall j :: 0 <= j < i ==> !HasMarker(args[j])
    {
      cpInd := Find(args[i], ClasspathMarker);
      if cpInd != -1 {
        argInd := i;
        var p := Find(args[i][cpInd..], " ");
        var end := if p > 0 then Some(p) else None;
        cpStr := Slice(args[i], cpInd, end) + sep + jarFile;
        cpExtended := true;
        break;
      }
    }
  }

  /** A Python list of strings, owned by the caller and mutated in place. */
  class PyList {
    var items: seq<string>

    constructor (items: seq<string>)
      ensures this.items == items
    {
      this.items := items;
    }

    /** `list.append` */
    method Append(x: string)
      modifies this
      ensures items == old(items) + [x]
    {
      items := items + [x];
    }

    /** `list[i] = x` */
    method SetItem(i: nat, x: string)
      requires i < |items|
      modifies this
      ensures items == old(items)[i := x]
    {
      items := items[i := x];
    }
  }

  /** `append_to_classpath(args)`: returns the same list object, spliced in
      place, or raises.  A missing jar raises before the list is read or
      written; `args=None` survives the search (its length counts as 0) and
      then fails on `append`. */
  method AppendToClasspath(args: PyList?, isPosix: bool, jarFile: string, jarExists: bool)
    returns (r: Result<PyList, PyException>)
    modifies args
    ensures !jarExists ==> r == Failure(RuntimeError(JarNotFound + jarFile))
    ensures !jarExists && args != null ==> args.items == old(args.items)
    ensures jarExists && args == null ==> r == Failure(AttributeError(NoneHasNoAppend))
    ensures jarExists && args != null ==>
              r == Success(args) && args.items == SplicedArgs(old(args.items), Separator(isPosix), jarFile)
  {
    var sep := Separator(isPosix);
    if !jarExists {
      return Failure(RuntimeError(JarNotFound + jarFile));
    }
    var cpExtended, argInd, cpStr := false, -1, "";
    if args != null {
      cpExtended, argInd, cpStr := ScanArgs(args.items, sep, jarFile);
    }
    if !cpExtended {
      if args == null {
        return Failure(AttributeError(NoneHasNoAppend));
      }
      args.Append(ClasspathMarker + jarFile);
    } else {
      args.SetItem(argInd, cpStr);
    }
    return Success(args);
  }

  datatype JPackage = JPackage(name: string)

  /** `stallone.api.API` together with the name of the Python type jpype
      gives it. */
  datatype JavaClass = JavaClass(path: string, typeName: string)

  /** A started JVM: the path it was started from and its arguments. */
  datatype Launch = Launch(jvmPath: string, args: seq<string>)

  /** What the surrounding platform answers when the binding asks. */
  datatype Host = Host(
    isPosix: bool,          // os.name is 'posix'
    jarFile: string,        // pkg_resources' path for the bundled jar
    jarExists: bool,        // os.path.exists(jarFile)
    defaultJvmPath: string, // jpype.getDefaultJVMPath()
    apiTypeName: string     // type(stallone.api.API).__name__ once started
  )

  /** `if not jvm: jvm = getDefaultJVMPath()` */
  function ResolveJvm(jvm: Option<string>, defaultJvmPath: string): (path: string)
    ensures jvm.Some? && jvm.value != "" ==> path == jvm.value
    ensures jvm.None? || jvm.value == "" ==> path == defaultJvmPath
  {
    if jvm.None? || jvm.value == "" then defaultJvmPath else jvm.value
  }

  /** The identity check after start-up, as evidently intended: a wrong API
      type raises RuntimeError (after logging it). */
  function InitCheck(apiTypeName: string): (r: Option<PyException>)
    ensures r.None? <==> apiTypeName == ExpectedApiType
    ensures r.Some? ==> r.value == RuntimeError(InitBorked)
  {
    if apiTypeName != ExpectedApiType then Some(RuntimeError(InitBorked)) else None
  }

  /** The identity check as written: the handler calls `_log.exception`,
      but `_log` is never defined in the module, so the handler itself
      raises NameError in place of the RuntimeError. */
  function InitCheckAsWritten(apiTypeName: string): (r: Option<PyException>)
    ensures r.None? <==> apiTypeName == ExpectedApiType
    ensures r.Some? ==> r.value == NameError("_log")
  {
    if apiTypeName != ExpectedApiType then Some(NameError("_log")) else None
  }

  /** The two checks agree on a good start-up and differ in the exception
      class on every bad one. */
  lemma InitCheckDiscrepancy(apiTypeName: string)
    ensures (InitCheck(apiTypeName) == None) == (InitCheckAsWritten(apiTypeName) == None)
    ensures apiTypeName != ExpectedApiType ==>
              InitCheckAsWritten(apiTypeName) == Some(NameError("_log")) &&
              InitCheck(apiTypeName) == Some(RuntimeError(InitBorked))
  {
  }

  /** The module `pystallone` with its two globals, and the process's JVM
      (jpype allows one per process). */
  class PyStallone {
    var stallone: Option<JPackage>
    var api: Option<JavaClass>
    var jvm: Option<Launch>

    /** Importing the module: both globals are None and no JVM runs. */
    constructor ()
      ensures stallone == None && api == None && jvm == None
    {
      stallone, api, jvm := None, None, None;
    }

    /** `startJVM(jvm, args)` */
    method StartJVM(jvmPath: Option<string>, args: PyList?, host: Host) returns (err: Option<PyException>)
      modifies this, args
      ensures !host.jarExists ==>
                err == Some(RuntimeError(JarNotFound + host.jarFile)) && unchanged(this) &&
                (args != null ==> args.items == old(args.items))
      ensures host.jarExists && args == null ==>
                err == Some(AttributeError(NoneHasNoAppend)) && unchanged(this)
      ensures host.jarExists && args != null ==>
                args.items == SplicedArgs(old(args.items), Separator(host.isPosix), host.jarFile)
      ensures host.jarExists && args != null && old(jvm).Some? ==>
                err == Some(JvmStartFailure) && unchanged(this)
      ensures host.jarExists && args != null && old(jvm).None? ==>
                && jvm == Some(Launch(ResolveJvm(jvmPath, host.defaultJvmPath), args.items))
                && stallone == Some(JPackage("stallone"))
                && api == Some(JavaClass("stallone.api.API", host.apiTypeName))
                && err == InitCheck(host.apiTypeName)
    {
      var path := ResolveJvm(jvmPath, host.defaultJvmPath);
      var spliced := AppendToClasspath(args, host.isPosix, host.jarFile, host.jarExists);
      if spliced.Failure? {
        return Some(spliced.error);
      }
      if jvm.Some? {
        return Some(JvmStartFailure);
      }
      jvm := Some(Launch(path, spliced.value.items));
      stallone := Some(JPackage("stallone"));
      api := Some(JavaClass("stallone.api.API", host.apiTypeName));
      err := InitCheck(api.value.typeName);
    }
  }

  // Properties of the splicing.

  /** With no marker anywhere, exactly one argument is appended, the
      classpath set to the jar alone, and the others are kept in order. */
  lemma NoMarkerAppendsClasspath(args: seq<string>, sep: string, jarFile: string)
    requires forall j :: 0 <= j < |args| ==> !HasMarker(args[j])
    ensures var r := SplicedArgs(args, sep, jarFile);
            |r| == |args| + 1 && r[..|args|] == args && r[|args|] == ClasspathMarker + jarFile
  {
  }

  /** With a marker, only the first argument holding it is rewritten; the
      length and every other position stay as they were. */
  lemma OnlyFirstMarkerRewritten(args: seq<string>, sep: string, jarFile: string, i: nat)
    requires i < |args| && HasMarker(args[i])
    requires forall j :: 0 <= j < i ==> !HasMarker(args[j])
    ensures var r := SplicedArgs(args, sep, jarFile);
            && |r| == |args|
            && r[i] == ExtendedArg(args[i], sep, jarFile)
            && forall j :: 0 <= j < |args| && j != i ==> r[j] == args[j]
  {
  }

  /** The text of `arg` up to (not including) its first space. */
  function UpToSpace(arg: string): (u: string)
    ensures u <= arg
    ensures forall i :: 0 <= i < |u| ==> u[i] != ' '
    ensures |u| < |arg| ==> arg[|u|] == ' '
  {
    var q := Find(arg, " ");
    if q == -1 then
      FindAbsentCharConverse(arg, ' ');
      arg
    else
      FoundChar(arg, ' ');
      arg[..q]
  }

  /** When the argument starts with the marker (the only case in which the
      offset quirk is harmless) the new value is the argument up to its
      first space, then the separator, then the jar. */
  lemma {:induction false} LeadingMarkerExtended(arg: string, sep: string, jarFile: string)
    requires OccursAt(arg, ClasspathMarker, 0)
    ensures HasMarker(arg)
    ensures ExtendedArg(arg, sep, jarFile) == UpToSpace(arg) + sep + jarFile
  {
    MarkerFoundAtZero(arg);
    assert arg[0..] == arg;
    var p := Find(arg, " ");
    if p != -1 {
      FoundChar(arg, ' ');
      assert arg[0] == '-' by {
        assert arg[0..|ClasspathMarker|][0] == arg[0];
      }
      assert Slice(arg, 0, Some(p)) == arg[..p];
    } else {
      assert Slice(arg, 0, None) == arg;
    }
  }

  /** An argument that starts with the marker has it found at index 0. */
  lemma MarkerFoundAtZero(arg: string)
    requires OccursAt(arg, ClasspathMarker, 0)
    ensures Find(arg, ClasspathMarker) == 0
  {
    FindIs(arg, ClasspathMarker, 0);
  }

  /** The case the package's own test exercises: a lone classpath argument
      without a space gets `sep + jar` appended. */
  lemma LeadingMarkerNoSpace(arg: string, sep: string, jarFile: string)
    requires OccursAt(arg, ClasspathMarker, 0)
    requires forall i :: 0 <= i < |arg| ==> arg[i] != ' '
    ensures HasMarker(arg)
    ensures ExtendedArg(arg, sep, jarFile) == arg + sep + jarFile
  {
    LeadingMarkerExtended(arg, sep, jarFile);
    FindAbsentChar(arg, ' ');
  }

  /** The classpath argument of the package's own test.  (Literal texts
      reach these lemmas as parameters equal to them, which keeps the solver
      from unfolding `Find` over the literal.) */
  lemma DevNullClasspath(arg: string, jarFile: string)
    requires arg == "-Djava.class.path=/dev/null"
    ensures HasMarker(arg) && ExtendedArg(arg, ":", jarFile) == arg + ":" + jarFile
  {
    assert OccursAt(arg, ClasspathMarker, 0);
    assert forall i :: 0 <= i < |arg| ==> arg[i] != ' ';
    LeadingMarkerNoSpace(arg, ":", jarFile);
  }

  /** pystallone/tests/00_test_init_with_args.py on a posix host. */
  lemma TestArgsOnPosix(args: seq<string>, jarFile: string)
    requires |args| == 2 && args[0] == "-Xms64m" && args[1] == "-Djava.class.path=/dev/null"
    ensures SplicedArgs(args, Separator(true), jarFile)
         == ["-Xms64m", "-Djava.class.path=/dev/null:" + jarFile]
  {
    assert !HasMarker(args[0]);
    DevNullClasspath(args[1], jarFile);
    OnlyFirstMarkerRewritten(args, ":", jarFile, 1);
    var r := SplicedArgs(args, Separator(true), jarFile);
    assert r[1] == "-Djava.class.path=/dev/null" + ":" + jarFile;
    assert "-Djava.class.path=/dev/null" + ":" + jarFile == "-Djava.class.path=/dev/null:" + jarFile;
    assert |r| == 2;
  }

  /** The marker holds no space, so a space in an argument that starts with
      the marker lies beyond it. */
  lemma MarkerPrefixKept(arg: string)
    requires OccursAt(arg, ClasspathMarker, 0)
    ensures OccursAt(UpToSpace(arg), ClasspathMarker, 0)
  {
    var u := UpToSpace(arg);
    var m := ClasspathMarker;
    assert forall i :: 0 <= i < |m| ==> m[i] != ' ';
    assert forall i :: 0 <= i < |m| ==> arg[i] == m[i] by {
      forall i | 0 <= i < |m| ensures arg[i] == m[i] {
        assert arg[0..|m|][i] == arg[i];
      }
    }
    assert forall i :: 0 <= i < |m| ==> arg[i] != ' ';
    assert u[0..|m|] == arg[0..|m|];
  }

  /** The purpose of the splice: when no argument holds the marker, or the
      first one holding it starts with it, the first classpath argument of
      the result is the one at the same place and it ends with the jar. */
  lemma {:induction false} JarReachesClasspath(args: seq<string>, sep: string, jarFile: string)
    requires var k := FirstWithMarker(args); k == -1 || OccursAt(args[k], ClasspathMarker, 0)
    ensures var k := FirstWithMarker(args);
            var r := SplicedArgs(args, sep, jarFile);
            var at := if k == -1 then |args| else k;
            && FirstWithMarker(r) == at
            && OccursAt(r[at], ClasspathMarker, 0)
            && EndsWith(r[at], jarFile)
  {
    if FirstWithMarker(args) == -1 {
      JarAppended(args, sep, jarFile);
    } else {
      JarSpliced(args, sep, jarFile);
    }
  }

  lemma JarAppended(args: seq<string>, sep: string, jarFile: string)
    requires FirstWithMarker(args) == -1
    ensures var r := SplicedArgs(args, sep, jarFile);
            && FirstWithMarker(r) == |args|
            && OccursAt(r[|args|], ClasspathMarker, 0)
            && EndsWith(r[|args|], jarFile)
  {
    var v := ClasspathMarker + jarFile;
    var r := args + [v];
    assert SplicedArgs(args, sep, jarFile) == r;
    assert v[0..|ClasspathMarker|] == ClasspathMarker;
    assert v[|v| - |jarFile|..] == jarFile;
    MarkerFoundAtZero(v);
    assert forall j :: 0 <= j < |args| ==> r[j] == args[j];
    FirstAt(r, |args|);
    assert r[|args|] == v;
  }

  lemma JarSpliced(args: seq<string>, sep: string, jarFile: string)
    requires var k := FirstWithMarker(args); k >= 0 && OccursAt(args[k], ClasspathMarker, 0)
    ensures var k := FirstWithMarker(args);
            var r := SplicedArgs(args, sep, jarFile);
            && FirstWithMarker(r) == k
            && OccursAt(r[k], ClasspathMarker, 0)
            && EndsWith(r[k], jarFile)
  {
    var k := FirstWithMarker(args);
    var u := UpToSpace(args[k]);
    var v := u + sep + jarFile;
    LeadingMarkerExtended(args[k], sep, jarFile);
    assert ExtendedArg(args[k], sep, jarFile) == v;
    MarkerPrefixKept(args[k]);
    StartsAndEnds(u, sep, jarFile);
    var r := args[k := v];
    assert SplicedArgs(args, sep, jarFile) == r;
    MarkerFoundAtZero(v);
    assert forall j :: 0 <= j < k ==> r[j] == args[j];
    FirstAt(r, k);
  }

  /** `FirstWithMarker` is the index of a marker with none before it. */
  lemma FirstAt(args: seq<string>, i: nat)
    requires i < |args| && HasMarker(args[i])
    requires forall j :: 0 <= j < i ==> !HasMarker(args[j])
    ensures FirstWithMarker(args) == i
  {
    var k := FirstWithMarker(args);
    assert k != -1;
    assert !(k < i);
    assert !(i < k);
  }

  /** `prefix + sep + jarFile` keeps the marker at its head (when `prefix`
      starts with it, or is empty and so leaves the marker to the caller)
      and ends with the jar. */
  lemma StartsAndEnds(prefix: string, sep: string, jarFile: string)
    ensures var v := prefix + sep + jarFile;
            EndsWith(v, jarFile) &&
            (OccursAt(prefix, ClasspathMarker, 0) ==> OccursAt(v, ClasspathMarker, 0))
  {
    var v := prefix + sep + jarFile;
    assert v[|v| - |jarFile|..|v|] == jarFile;
    if OccursAt(prefix, ClasspathMarker, 0) {
      assert v[0..|ClasspathMarker|] == prefix[0..|ClasspathMarker|];
    }
  }

  // The two quirks of lines 105-107, as written.

  /** When text precedes the marker and a space follows it, the slice ends
      at the relative offset of that space: the kept classpath token is the
      intended one, `arg[c..c + p]`, with its last min(c, p) characters cut
      off, so it is strictly shorter. */
  lemma ClasspathTokenTruncated(arg: string, sep: string, jarFile: string)
    requires HasMarker(arg)
    requires var c := Find(arg, ClasspathMarker); c > 0 && Find(arg[c..], " ") > 0
    ensures var c := Find(arg, ClasspathMarker);
            var p := Find(arg[c..], " ");
            var kept := if c < p then arg[c..p] else "";
            && ExtendedArg(arg, sep, jarFile) == kept + sep + jarFile
            && kept < arg[c..c + p]
  {
    var c := Find(arg, ClasspathMarker);
    var p := Find(arg[c..], " ");
  }

  /** When text precedes the marker and no space follows it, that text is
      dropped: only the part from the marker on survives. */
  lemma PrefixBeforeMarkerDropped(arg: string, sep: string, jarFile: string)
    requires HasMarker(arg)
    requires Find(arg[Find(arg, ClasspathMarker)..], " ") == -1
    ensures var c := Find(arg, ClasspathMarker);
            ExtendedArg(arg, sep, jarFile) == arg[c..] + sep + jarFile
  {
  }

  /** When the text before the marker is at least as long as the classpath
      token (the offset of the space after it), the slice is empty: the
      argument becomes the separator and the jar alone, with no marker. */
  lemma ClasspathLostBehindLongPrefix(arg: string, sep: string, jarFile: string)
    requires HasMarker(arg)
    requires var c := Find(arg, ClasspathMarker); var p := Find(arg[c..], " "); 0 < p <= c
    ensures ExtendedArg(arg, sep, jarFile) == sep + jarFile
  {
  }

  lemma MarkerAtSix(arg: string, post: string)
    requires arg == "-Dx=1 " + ClasspathMarker + post
    ensures Find(arg, ClasspathMarker) == 6
  {
    assert arg[6..6 + |ClasspathMarker|] == ClasspathMarker;
    assert OccursAt(arg, ClasspathMarker, 6);
    forall k: nat | k < 6 ensures !OccursAt(arg, ClasspathMarker, k) {
      assert arg[k + 4] != ClasspathMarker[4];
      assert arg[k..k + |ClasspathMarker|][4] == arg[k + 4];
    }
    FindIs(arg, ClasspathMarker, 6);
  }

  lemma SpaceAfterPath(rest: string)
    requires rest == ClasspathMarker + "/lib/a.jar -Dy=2"
    ensures Find(rest, " ") == 28
  {
    assert forall i :: 0 <= i < 28 ==> rest[i] != ' ';
    FindFirstChar(rest, ' ', 28);
  }

  /** Both quirks on one input: a property before the classpath and one
      after it, in a single argument.  Both neighbours are dropped, and the
      classpath `/lib/a.jar` is cut to `/lib` because the slice ends six
      characters early. */
  lemma PackedArgumentMangled(arg: string, jarFile: string)
    requires arg == "-Dx=1 " + ClasspathMarker + "/lib/a.jar -Dy=2"
    ensures HasMarker(arg)
    ensures ExtendedArg(arg, ":", jarFile) == ClasspathMarker + "/lib:" + jarFile
  {
    MarkerAtSix(arg, "/lib/a.jar -Dy=2");
    var rest := arg[6..];
    SpaceAfterPath(rest);
    assert arg[6..28] == rest[..22];
    assert rest[..22] == ClasspathMarker + "/lib";
  }
}
