/**
 * The fake `FeatureFlagsImpl` behind `Flags` and the `MockFlagsRule` that
 * overrides it: a map from flag name to a nullable `Boolean`, where reading a
 * null or missing value as a `boolean` throws.
 */
module MockFlags {
  import opened Wrappers
  import opened FlagNames

  const FlagName3Key := TestFlagsPackage + "." + "flagName3"
  const FlagName4Key := TestFlagsPackage + "." + "flagName4"

  /** `mFlagMap.get(key)` unboxed to a `boolean`: the null and the missing value both throw. */
  function Unbox(flagMap: map<string, Option<bool>>, key: string): (r: Result<bool>)
    ensures r.Success? <==> key in flagMap && flagMap[key].Some?
    ensures r.Success? ==> r.value == flagMap[key].value
    ensures r.Failure? ==> r.error == NullPointerException
  {
    if key in flagMap && flagMap[key].Some? then Success(flagMap[key].value) else Failure(NullPointerException)
  }

  /** After `setFlag(k, v)` the key reads `v`, and every other key reads as before. */
  lemma SetFlagReadsBack(flagMap: map<string, Option<bool>>, key: string, value: bool, other: string)
    ensures Unbox(flagMap[key := Some(value)], key) == Success(value)
    ensures other != key ==> Unbox(flagMap[key := Some(value)], other) == Unbox(flagMap, other)
  {
  }

  class FeatureFlagsImpl {
    var flagMap: map<string, Option<bool>>

    /** Both known flags are present, with a null value. */
    constructor ()
      ensures flagMap == map[FlagName3Key := None, FlagName4Key := None]
    {
      flagMap := map[FlagName3Key := None, FlagName4Key := None];
    }

    /** `flagName3()`: the stored value, throwing when it is null or missing. */
    function FlagName3(): (r: Result<bool>)
      reads this
      ensures r.Success? <==> FlagName3Key in flagMap && flagMap[FlagName3Key].Some?
      ensures r.Success? ==> r.value == flagMap[FlagName3Key].value
      ensures r.Failure? ==> r.error == NullPointerException
    {
      Unbox(flagMap, FlagName3Key)
    }

    /** `flagName4()`: the stored value, throwing when it is null or missing. */
    function FlagName4(): (r: Result<bool>)
      reads this
      ensures r.Success? <==> FlagName4Key in flagMap && flagMap[FlagName4Key].Some?
      ensures r.Success? ==> r.value == flagMap[FlagName4Key].value
      ensures r.Failure? ==> r.error == NullPointerException
    {
      Unbox(flagMap, FlagName4Key)
    }

    /** `setFlag`: the last write wins. */
    method SetFlag(flag: string, value: bool)
      modifies this
      ensures flagMap == old(flagMap)[flag := Some(value)]
    {
      flagMap := flagMap[flag := Some(value)];
    }

    /** `resetAll`: every entry is removed, so every read throws. */
    method ResetAll()
      modifies this
      ensures flagMap == map[]
      ensures FlagName3().Failure? && FlagName4().Failure?
    {
      flagMap := map[];
    }
  }

  /** A name the mock rule accepts: one with a package prefix. */
  predicate HasPackage(name: string)
  {
    PackageOf(name).Some?
  }

  /** `MockFlagsRule`: overrides the values of the `FeatureFlagsImpl` that `Flags` reads. */
  class MockFlagsRule {
    const flags: FeatureFlagsImpl

    constructor ()
      ensures fresh(flags)
      ensures flags.flagMap == map[FlagName3Key := None, FlagName4Key := None]
    {
      flags := new FeatureFlagsImpl();
    }

    /**
     * `enableFlags` (value true) and `disableFlags` (value false): the names
     * are set one by one; the first name without a package throws
     * `FlagSetException`, the ones before it staying set.
     */
    method SetFlags(names: seq<string>, value: bool) returns (status: Status)
      modifies flags
      ensures var p := AcceptedPrefix(names, HasPackage);
        && flags.flagMap == SetAll(old(flags.flagMap), names[..p], Some(value))
        && (status == Ok <==> p == |names|)
        && (status.Failed? ==> status.message == FlagSetException)
    {
      var i := 0;
      while i < |names|
        invariant 0 <= i <= |names|
        invariant i <= AcceptedPrefix(names, HasPackage)
        invariant flags.flagMap == SetAll(old(flags.flagMap), names[..i], Some(value))
      {
        if !HasPackage(names[i]) {
          return Failed(FlagSetException);
        }
        assert names[..i + 1] == names[..i] + [names[i]];
        SetAllSnoc(old(flags.flagMap), names[..i], names[i], Some(value));
        flags.SetFlag(names[i], value);
        i := i + 1;
      }
      assert names[..i] == names;
      status := Ok;
    }

    /** After each test every override is dropped. */
    method AfterTest()
      modifies flags
      ensures flags.flagMap == map[]
    {
      flags.ResetAll();
    }
  }

  /** The two known keys are qualified names; the bare simple name is not. */
  lemma KnownKeysHavePackage()
    ensures HasPackage(FlagName3Key) && HasPackage(FlagName4Key)
    ensures !HasPackage("flagName3")
    ensures FlagName3Key != FlagName4Key
  {
    PackageOfQualified(TestFlagsPackage, "flagName3");
    PackageOfQualified(TestFlagsPackage, "flagName4");
  }

  /** `setFlagValues` and `flagsShouldResetAfterOneTest`. */
  method SetThenResetClient()
  {
    var rule := new MockFlagsRule();
    KnownKeysHavePackage();
    var status := rule.SetFlags([FlagName3Key], true);
    status := rule.SetFlags([FlagName4Key], false);
    assert rule.flags.FlagName3() == Success(true) && rule.flags.FlagName4() == Success(false);
    rule.AfterTest();
    assert rule.flags.FlagName3().Failure? && rule.flags.FlagName4().Failure?;
  }

  /** `setFlagsAfterOneTest`: a later varargs call overrides an earlier one on every name. */
  method VarargsClient()
  {
    var rule := new MockFlagsRule();
    KnownKeysHavePackage();
    var status := rule.SetFlags([FlagName3Key, FlagName4Key], true);
    assert status == Ok;
    assert rule.flags.FlagName3() == Success(true) && rule.flags.FlagName4() == Success(true);
    status := rule.SetFlags([FlagName3Key, FlagName4Key], false);
    assert rule.flags.FlagName3() == Success(false) && rule.flags.FlagName4() == Success(false);
  }

  /** `invalidFlagName_throwException`. */
  method InvalidNameClient()
  {
    var rule := new MockFlagsRule();
    KnownKeysHavePackage();
    var status := rule.SetFlags(["flagName3"], true);
    assert status == Failed(FlagSetException);
    assert rule.flags.flagMap == map[FlagName3Key := None, FlagName4Key := None];
  }
}
