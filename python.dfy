/** The few Python built-ins the binding relies on: the exceptions it raises,
    `str.find`, and slicing with non-negative bounds (which Python clamps). */
module Python {
  import opened Wrappers

  /** The exception classes raised on the modelled paths, with the literal
      part of their messages. */
  datatype PyException =
    | TypeError(msg: string)
    | ValueError(msg: string)
    | RuntimeError(msg: string)
    | NotImplementedError
    | IndexError(msg: string)
    | AttributeError(msg: string)
    | NameError(name: string)
      /** raised by jpype.startJVM itself, e.g. when a JVM is already running */
    | JvmStartFailure

  /** `pat` occurs in `s` starting at index `k`. */
  predicate OccursAt(s: string, pat: string, k: nat) {
    k + |pat| <= |s| && s[k..k + |pat|] == pat
  }

  /** `s.endswith(suffix)` */
  predicate EndsWith(s: string, suffix: string) {
    |suffix| <= |s| && s[|s| - |suffix|..] == suffix
  }

  /** `s.find(pat)`: the lowest index at which `pat` occurs in `s`, or -1
      (FindSpec states it). */
  function Find(s: string, pat: string): (r: int)
    ensures r == -1 || 0 <= r <= |s| - |pat|
  {
    FindFrom(s, pat, 0)
  }

  /** The search of `Find`, from index `i` on. */
  function FindFrom(s: string, pat: string, i: nat): (r: int)
    requires i <= |s|
    ensures r == -1 || i <= r <= |s| - |pat|
    decreases |s| - i
  {
    if |s| < i + |pat| then
      -1
    else if s[i..i + |pat|] == pat then
      i
    else
      FindFrom(s, pat, i + 1)
  }

  lemma {:induction false} FindFromSpec(s: string, pat: string, i: nat)
    requires i <= |s|
    ensures var r := FindFrom(s, pat, i);
            && (r == -1 <==> forall k: nat :: i <= k ==> !OccursAt(s, pat, k))
            && (r >= 0 ==> OccursAt(s, pat, r) && forall k: nat :: i <= k < r ==> !OccursAt(s, pat, k))
    decreases |s| - i
  {
    if |s| < i + |pat| {
    } else if s[i..i + |pat|] == pat {
      assert OccursAt(s, pat, i);
    } else {
      FindFromSpec(s, pat, i + 1);
    }
  }

  /** What `str.find` promises: -1 exactly when `pat` occurs nowhere, and
      otherwise an occurrence with none before it. */
  lemma FindSpec(s: string, pat: string)
    ensures var r := Find(s, pat);
            && (r == -1 <==> forall k: nat :: !OccursAt(s, pat, k))
            && (r >= 0 ==> OccursAt(s, pat, r) && forall k: nat :: k < r ==> !OccursAt(s, pat, k))
  {
    FindFromSpec(s, pat, 0);
  }

  /** An occurrence with none before it is what `Find` returns. */
  lemma FindIs(s: string, pat: string, k: nat)
    requires OccursAt(s, pat, k)
    requires forall i: nat :: i < k ==> !OccursAt(s, pat, i)
    ensures Find(s, pat) == k
  {
    FindSpec(s, pat);
    var r := Find(s, pat);
    assert r != -1;
    assert !(r < k);
    assert !(k < r);
  }

  /** `s[start:stop]` for a non-negative `start` and a non-negative or
      omitted (`None`) `stop`: both bounds are clamped to `len(s)` and an
      empty range gives the empty string. */
  function Slice(s: string, start: nat, stop: Option<nat>): (r: string)
    ensures var hi := if stop.Some? && stop.value < |s| then stop.value else |s|;
            |r| == if start < hi then hi - start else 0
    ensures forall i :: 0 <= i < |r| ==> r[i] == s[start + i]
  {
    var hi := if stop.Some? && stop.value < |s| then stop.value else |s|;
    if start < hi then s[start..hi] else ""
  }

  /** A one-character pattern that no position of `s` holds is not found. */
  lemma FindAbsentChar(s: string, c: char)
    requires forall i :: 0 <= i < |s| ==> s[i] != c
    ensures Find(s, [c]) == -1
  {
    FindSpec(s, [c]);
    forall k: nat ensures !OccursAt(s, [c], k) {
      if k + 1 <= |s| {
        assert s[k..k + 1] == [s[k]];
      }
    }
  }

  /** No position holds a character whose one-character pattern is not found. */
  lemma FindAbsentCharConverse(s: string, c: char)
    requires Find(s, [c]) == -1
    ensures forall i :: 0 <= i < |s| ==> s[i] != c
  {
    FindSpec(s, [c]);
    forall i | 0 <= i < |s| ensures s[i] != c {
      assert !OccursAt(s, [c], i);
      assert s[i..i + 1] == [s[i]];
    }
  }

  /** A one-character pattern is found at the first position holding it. */
  lemma FindFirstChar(s: string, c: char, k: nat)
    requires k < |s| && s[k] == c
    requires forall i :: 0 <= i < k ==> s[i] != c
    ensures Find(s, [c]) == k
  {
    assert s[k..k + 1] == [c];
    forall i: nat | i < k ensures !OccursAt(s, [c], i) {
      assert s[i..i + 1] == [s[i]];
    }
    FindIs(s, [c], k);
  }

  /** A found one-character pattern: the position holds it and none before does. */
  lemma FoundChar(s: string, c: char)
    requires Find(s, [c]) != -1
    ensures var k := Find(s, [c]);
            s[k] == c && forall i :: 0 <= i < k ==> s[i] != c
  {
    FindSpec(s, [c]);
    var k := Find(s, [c]);
    assert s[k..k + 1][0] == s[k];
    forall i | 0 <= i < k ensures s[i] != c {
      assert !OccursAt(s, [c], i);
      assert s[i..i + 1] == [s[i]];
    }
  }
}
