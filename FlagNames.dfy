/**
 * What the flag-override rules share: splitting a fully qualified flag name
 * into its package and simple name, and writing one value for a list of
 * names, the way a varargs `enableFlags`/`disableFlags` does.
 */
module FlagNames {
  import opened Wrappers

  /** Thrown by the rules for a name they cannot resolve. */
  const FlagSetException := "FlagSetException"

  /** Thrown when a flag whose value is null (or missing) is read as a `boolean`. */
  const NullPointerException := "NullPointerException"

  /** The package holding the test flags. */
  const TestFlagsPackage := "android.platform.test.flag.junit"

  /** The position of the last '.' in a name, if there is one. */
  function LastDot(s: string): (r: Option<nat>)
    ensures r.None? <==> '.' !in s
    ensures r.Some? ==> r.value < |s| && s[r.value] == '.'
    ensures r.Some? ==> forall i | r.value < i < |s| :: s[i] != '.'
    decreases |s|
  {
    if s == [] then None
    else if s[|s| - 1] == '.' then Some(|s| - 1)
    else
      var r := LastDot(s[..|s| - 1]);
      assert forall i | 0 <= i < |s| - 1 :: s[..|s| - 1][i] == s[i];
      assert s == s[..|s| - 1] + [s[|s| - 1]];
      r
  }

  /** The package of a fully qualified flag name: all before the last '.'; none without a '.'. */
  function PackageOf(name: string): (r: Option<string>)
    ensures r.None? <==> '.' !in name
    ensures r.Some? ==> |r.value| < |name| && name[..|r.value|] == r.value && name[|r.value|] == '.'
  {
    match LastDot(name)
    case None => None
    case Some(i) => Some(name[..i])
  }

  /** The simple name of a qualified flag name: all after the last '.'. */
  function SimpleName(name: string): (r: string)
    ensures '.' !in r
    ensures PackageOf(name).Some? ==> name == PackageOf(name).value + "." + r
    ensures PackageOf(name).None? ==> r == name
  {
    match LastDot(name)
    case None => name
    case Some(i) =>
      assert name == name[..i] + "." + name[i + 1..];
      name[i + 1..]
  }

  /**
   * How many names a call gets through, one by one, before the first one that
   * `ok` refuses: the whole list when none is refused.
   */
  function AcceptedPrefix(names: seq<string>, ok: string -> bool): (p: nat)
    ensures p <= |names|
    ensures forall i | 0 <= i < p :: ok(names[i])
    ensures p < |names| ==> !ok(names[p])
    decreases |names|
  {
    if names == [] || !ok(names[0]) then 0 else 1 + AcceptedPrefix(names[1..], ok)
  }

  /** A qualified name splits back into the package and simple name it was built from. */
  lemma PackageOfQualified(pkg: string, simple: string)
    requires '.' !in simple
    ensures PackageOf(pkg + "." + simple) == Some(pkg)
    ensures SimpleName(pkg + "." + simple) == simple
  {
    var s := pkg + "." + simple;
    assert s[|pkg|] == '.';
    assert forall i | |pkg| < i < |s| :: s[i] == simple[i - |pkg| - 1];
    assert LastDot(s) == Some(|pkg|);
    assert s[..|pkg|] == pkg;
    assert s[|pkg| + 1..] == simple;
  }

  /** Writes `v` under every name of `names`, the later names last. */
  function SetAll<V>(m: map<string, V>, names: seq<string>, v: V): (r: map<string, V>)
    ensures forall k :: k in r <==> k in m || k in names
    ensures forall k | k in names :: r[k] == v
    ensures forall k | k in m && k !in names :: r[k] == m[k]
    decreases |names|
  {
    if names == [] then m
    else
      var r := SetAll(m[names[0] := v], names[1..], v);
      assert forall k :: k in names <==> k == names[0] || k in names[1..];
      r
  }

  /** Setting one more name after a list: the loop step of a varargs call. */
  lemma {:induction false} SetAllSnoc<V>(m: map<string, V>, names: seq<string>, name: string, v: V)
    ensures SetAll(m, names + [name], v) == SetAll(m, names, v)[name := v]
    decreases |names|
  {
    if names == [] {
      assert names + [name] == [name];
      assert [name][1..] == [];
    } else {
      assert (names + [name])[0] == names[0];
      assert (names + [name])[1..] == names[1..] + [name];
      SetAllSnoc(m[names[0] := v], names[1..], name, v);
    }
  }

  /** One varargs call after another: on a name both list, the later call's value is the one read. */
  lemma LaterCallWins<V>(m: map<string, V>, first: seq<string>, v: V, second: seq<string>, w: V, k: string)
    requires k in second
    ensures SetAll(SetAll(m, first, v), second, w)[k] == w
  {
  }

  /** Writing the same names twice in a row is writing them once. */
  lemma {:induction false} SetAllIsIdempotent<V>(m: map<string, V>, names: seq<string>, v: V)
    ensures SetAll(SetAll(m, names, v), names, v) == SetAll(m, names, v)
  {
    var once := SetAll(m, names, v);
    var twice := SetAll(once, names, v);
    assert forall k :: k in twice <==> k in once;
    assert forall k | k in twice :: twice[k] == once[k];
  }
}
