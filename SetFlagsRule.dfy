/**
 * `SetFlagsRule`, as its test class describes it: a fake feature-flag object
 * holds the overrides; `Flags` reads through the fake once a flag has been
 * set, and the device defaults before that and again after each test.  A fake
 * built with `NULL_DEFAULT` throws on a flag nobody set; one built with
 * `DEVICE_DEFAULT` reads the device default for it.
 */
module SetFlags {
  import opened Wrappers
  import opened FlagNames

  const IllegalArgumentException := "IllegalArgumentException"
  const AssumptionViolatedException := "AssumptionViolatedException"

  /** `Flags.FLAG_FLAG_NAME3` and `Flags.FLAG_FLAG_NAME4`. */
  const FlagFlagName3 := TestFlagsPackage + "." + "flag_name3"
  const FlagFlagName4 := TestFlagsPackage + "." + "flag_name4"

  datatype DefaultInitValueType = NullDefault | DeviceDefault

  /** The two flags `Flags` has accessors for. */
  datatype KnownFlag = FlagName3 | FlagName4

  function Key(f: KnownFlag): string
  {
    match f
    case FlagName3 => FlagFlagName3
    case FlagName4 => FlagFlagName4
  }

  /** What the device build of `Flags` answers when nothing is overridden. */
  function DeviceValue(f: KnownFlag): bool
  {
    match f
    case FlagName3 => false
    case FlagName4 => true
  }

  /** The class arguments `getFakeFeatureFlags` may be handed. */
  datatype FlagsType = FeatureFlagsInterface | FakeFeatureFlagsImplClass | FlagsClass | FeatureFlagsImplClass | OtherInterface(name: string)

  /** A read of the fake: the override if there is one, else what its mode says. */
  function FakeRead(values: map<string, bool>, mode: DefaultInitValueType, f: KnownFlag): (r: Result<bool>)
    ensures Key(f) in values ==> r == Success(values[Key(f)])
    ensures Key(f) !in values && mode == DeviceDefault ==> r == Success(DeviceValue(f))
    ensures Key(f) !in values && mode == NullDefault ==> r == Failure(NullPointerException)
  {
    if Key(f) in values then Success(values[Key(f)])
    else if mode == DeviceDefault then Success(DeviceValue(f))
    else Failure(NullPointerException)
  }

  /** The two modes disagree only on flags nobody set, and then only in that one throws. */
  lemma ModesDifferOnlyOnUnsetFlags(values: map<string, bool>, f: KnownFlag)
    ensures FakeRead(values, NullDefault, f).Failure? <==> Key(f) !in values
    ensures FakeRead(values, NullDefault, f).Success? ==> FakeRead(values, NullDefault, f) == FakeRead(values, DeviceDefault, f)
    ensures FakeRead(values, DeviceDefault, f).Success?
  {
  }

  /** `FakeFeatureFlagsImpl`. */
  class FakeFeatureFlagsImpl {
    const mode: DefaultInitValueType
    var values: map<string, bool>
    var readOnlyFlagSet: set<string>

    constructor (mode: DefaultInitValueType)
      ensures this.mode == mode && values == map[] && readOnlyFlagSet == {}
    {
      this.mode := mode;
      values := map[];
      readOnlyFlagSet := {};
    }

    /** `flagName3()` / `flagName4()` on the fake. */
    function Read(f: KnownFlag): (r: Result<bool>)
      reads this
      ensures Key(f) in values ==> r == Success(values[Key(f)])
      ensures Key(f) !in values && mode == DeviceDefault ==> r == Success(DeviceValue(f))
      ensures Key(f) !in values && mode == NullDefault ==> r == Failure(NullPointerException)
    {
      FakeRead(values, mode, f)
    }

    method SetFlag(name: string, value: bool)
      modifies this
      ensures values == old(values)[name := value] && readOnlyFlagSet == old(readOnlyFlagSet)
    {
      values := values[name := value];
    }

    /** `readOnlyFlagSet.add(name)`. */
    method AddReadOnly(name: string)
      modifies this
      ensures readOnlyFlagSet == old(readOnlyFlagSet) + {name} && values == old(values)
    {
      readOnlyFlagSet := readOnlyFlagSet + {name};
    }

    /** Drops every override. */
    method ResetAll()
      modifies this
      ensures values == map[] && readOnlyFlagSet == old(readOnlyFlagSet)
    {
      values := map[];
    }
  }

  /** A name a set call goes through: a flag of the test package that is not read-only. */
  predicate Accepted(readOnly: set<string>, name: string)
  {
    PackageOf(name) == Some(TestFlagsPackage) && name !in readOnly
  }

  /** How many names a set call gets through before the first one refused. */
  function SetPrefix(readOnly: set<string>, names: seq<string>): (p: nat)
    ensures p <= |names|
    ensures forall i | 0 <= i < p :: Accepted(readOnly, names[i])
    ensures p < |names| ==> !Accepted(readOnly, names[p])
    decreases |names|
  {
    if names == [] || !Accepted(readOnly, names[0]) then 0 else 1 + SetPrefix(readOnly, names[1..])
  }

  /** How a varargs set call ends: the first name refused decides the exception. */
  function SetOutcome(readOnly: set<string>, names: seq<string>): (status: Status)
    ensures status == Ok <==> forall i | 0 <= i < |names| :: Accepted(readOnly, names[i])
    ensures status == Failed(FlagSetException) <==>
      exists p | 0 <= p < |names| :: PackageOf(names[p]) != Some(TestFlagsPackage) &&
        forall i | 0 <= i < p :: Accepted(readOnly, names[i])
  {
    var p := SetPrefix(readOnly, names);
    if p == |names| then Ok
    else if PackageOf(names[p]) != Some(TestFlagsPackage) then Failed(FlagSetException)
    else Failed(AssumptionViolatedException)
  }

  class SetFlagsRule {
    const mode: DefaultInitValueType
    const fake: FakeFeatureFlagsImpl
    /** Whether `Flags` currently reads through the fake. */
    var installed: bool

    constructor (mode: DefaultInitValueType)
      ensures this.mode == mode && fresh(fake) && fake.mode == mode
      ensures fake.values == map[] && fake.readOnlyFlagSet == {} && !installed
    {
      this.mode := mode;
      fake := new FakeFeatureFlagsImpl(mode);
      installed := false;
    }

    /** `Flags.flagName3()` and `Flags.flagName4()` while the rule is active. */
    function Read(f: KnownFlag): (r: Result<bool>)
      reads this, fake
      ensures installed ==> r == fake.Read(f)
      ensures !installed ==> r == Success(DeviceValue(f))
    {
      if installed then fake.Read(f) else Success(DeviceValue(f))
    }

    /**
     * `enableFlags` (value true) and `disableFlags` (value false): the names
     * are set on the fake one by one, and the fake is installed with the first
     * one; a name outside the test package throws `FlagSetException`, a
     * read-only one throws an assumption violation (the test is skipped), the
     * names before it staying set.
     */
    method SetFlags(names: seq<string>, value: bool) returns (status: Status)
      modifies this, fake
      ensures var p := SetPrefix(fake.readOnlyFlagSet, names);
        && fake.values == SetAll(old(fake.values), names[..p], value)
        && installed == (old(installed) || p > 0)
        && status == SetOutcome(fake.readOnlyFlagSet, names)
      ensures fake.readOnlyFlagSet == old(fake.readOnlyFlagSet)
    {
      ghost var ro := fake.readOnlyFlagSet;
      ghost var p := SetPrefix(ro, names);
      var i := 0;
      while i < |names|
        invariant 0 <= i <= p
        invariant fake.readOnlyFlagSet == ro
        invariant fake.values == SetAll(old(fake.values), names[..i], value)
        invariant installed == (old(installed) || i > 0)
      {
        if PackageOf(names[i]) != Some(TestFlagsPackage) {
          assert i == p by { assert !Accepted(ro, names[i]); }
          return Failed(FlagSetException);
        }
        if names[i] in fake.readOnlyFlagSet {
          assert i == p by { assert !Accepted(ro, names[i]); }
          return Failed(AssumptionViolatedException);
        }
        assert names[..i + 1] == names[..i] + [names[i]];
        SetAllSnoc(old(fake.values), names[..i], names[i], value);
        fake.SetFlag(names[i], value);
        installed := true;
        i := i + 1;
      }
      assert names[..i] == names && i == p;
      status := Ok;
    }

    /** `getFakeFeatureFlags`: the one fake, and only for the `FeatureFlags` interface. */
    function GetFakeFeatureFlags(t: FlagsType): (r: Result<FakeFeatureFlagsImpl>)
      ensures r.Success? <==> t == FeatureFlagsInterface
      ensures r.Success? ==> r.value == fake
      ensures r.Failure? ==> r.error == IllegalArgumentException
    {
      if t == FeatureFlagsInterface then Success(fake) else Failure(IllegalArgumentException)
    }

    /** Between tests the overrides are dropped and `Flags` reads the device values again. */
    method AfterTest()
      modifies this, fake
      ensures !installed && fake.values == map[] && fake.readOnlyFlagSet == old(fake.readOnlyFlagSet)
      ensures forall f :: Read(f) == Success(DeviceValue(f))
    {
      fake.ResetAll();
      installed := false;
    }
  }

  /** Both test flag constants are names of the test package. */
  lemma TestFlagsAreAccepted(readOnly: set<string>)
    ensures FlagFlagName3 !in readOnly ==> Accepted(readOnly, FlagFlagName3)
    ensures FlagFlagName4 !in readOnly ==> Accepted(readOnly, FlagFlagName4)
  {
    PackageOfQualified(TestFlagsPackage, "flag_name3");
    PackageOfQualified(TestFlagsPackage, "flag_name4");
  }

  /** `setFlagValues` and `flagsShouldResetAfterOneTest`. */
  method SetFlagValuesClient(mode: DefaultInitValueType)
  {
    var rule := new SetFlagsRule(mode);
    TestFlagsAreAccepted({});
    var status := rule.SetFlags([FlagFlagName3], true);
    status := rule.SetFlags([FlagFlagName4], false);
    assert rule.Read(FlagName3) == Success(true) && rule.Read(FlagName4) == Success(false);
    rule.AfterTest();
    assert rule.Read(FlagName3) == Success(false) && rule.Read(FlagName4) == Success(true);
  }

  /** `setFlagValuesMultipleTimes`: the constant and the spelled-out name address one flag; the last call wins. */
  method MultipleTimesClient(mode: DefaultInitValueType)
  {
    var rule := new SetFlagsRule(mode);
    TestFlagsAreAccepted({});
    var spelled := "android.platform.test.flag.junit.flag_name3";
    assert FlagFlagName3 == spelled;
    var status := rule.SetFlags([FlagFlagName3], true);
    assert rule.Read(FlagName3) == Success(true);
    status := rule.SetFlags([spelled], false);
    assert rule.Read(FlagName3) == Success(false);
    status := rule.SetFlags([spelled], true);
    assert rule.Read(FlagName3) == Success(true);
    status := rule.SetFlags([spelled], false);
    assert rule.Read(FlagName3) == Success(false);
  }

  /** `setFlags` with several flags at once: the rule and a fake obtained afterwards read them. */
  method VarargsClient(mode: DefaultInitValueType)
  {
    var rule := new SetFlagsRule(mode);
    TestFlagsAreAccepted({});
    var status := rule.SetFlags([FlagFlagName3, FlagFlagName4], true);
    assert status == Ok;
    assert rule.Read(FlagName3) == Success(true) && rule.Read(FlagName4) == Success(true);
    var fake := rule.GetFakeFeatureFlags(FeatureFlagsInterface);
    assert fake.value.Read(FlagName3) == Success(true);
  }

  /** `setFlagsAfterOneTest` and `getFakeFeatureFlags_afterSet`: the fake handed out sees later sets. */
  method VarargsThroughFakeClient(mode: DefaultInitValueType)
  {
    var rule := new SetFlagsRule(mode);
    TestFlagsAreAccepted({});
    var fake := rule.GetFakeFeatureFlags(FeatureFlagsInterface);
    var status := rule.SetFlags([FlagFlagName3, FlagFlagName4], false);
    assert status == Ok;
    assert fake.value.Read(FlagName3) == Success(false) && fake.value.Read(FlagName4) == Success(false);
    assert rule.Read(FlagName3) == Success(false) && rule.Read(FlagName4) == Success(false);
  }

  /** `getFakeFeatureFlags_thenSet` with `NULL_DEFAULT`: `Flags` reads through the fake only once a flag is set. */
  method NullDefaultClient()
  {
    var rule := new SetFlagsRule(NullDefault);
    TestFlagsAreAccepted({});
    var fake := rule.GetFakeFeatureFlags(FeatureFlagsInterface);
    assert fake.value.Read(FlagName3) == Failure(NullPointerException);
    assert rule.Read(FlagName3) == Success(false);
    var status := rule.SetFlags([FlagFlagName3], true);
    assert rule.Read(FlagName3) == Success(true) && fake.value.Read(FlagName3) == Success(true);
    assert fake.value.Read(FlagName4).Failure? && rule.Read(FlagName4).Failure?;
    status := rule.SetFlags([FlagFlagName4], false);
    assert rule.Read(FlagName4) == Success(false) && fake.value.Read(FlagName4) == Success(false);
  }

  /** `getFakeFeatureFlags_thenSet` with `DEVICE_DEFAULT`. */
  method DeviceDefaultClient()
  {
    var rule := new SetFlagsRule(DeviceDefault);
    TestFlagsAreAccepted({});
    var fake := rule.GetFakeFeatureFlags(FeatureFlagsInterface);
    assert fake.value.Read(FlagName3) == Success(false) && rule.Read(FlagName3) == Success(false);
    assert fake.value.Read(FlagName4) == Success(true) && rule.Read(FlagName4) == Success(true);
    var status := rule.SetFlags([FlagFlagName3], true);
    status := rule.SetFlags([FlagFlagName4], false);
    assert rule.Read(FlagName3) == Success(true) && fake.value.Read(FlagName3) == Success(true);
    assert rule.Read(FlagName4) == Success(false) && fake.value.Read(FlagName4) == Success(false);
  }

  /** `invalidFlagName_throwException`, `getFakeFeatureFlags_castToWrongType` and `skipReadOnlyOptimizedFlag`. */
  method RefusalsClient(mode: DefaultInitValueType)
  {
    var rule := new SetFlagsRule(mode);
    PackageOfQualified("com.fake.package", "flag_name3");
    assert PackageOf("flagName3").None?;
    var status := rule.SetFlags(["flagName3"], true);
    assert status == Failed(FlagSetException);
    status := rule.SetFlags(["com.fake.package" + "." + "flag_name3"], true);
    assert status == Failed(FlagSetException);
    var wrong := rule.GetFakeFeatureFlags(FakeFeatureFlagsImplClass);
    assert wrong == Failure(IllegalArgumentException);
    wrong := rule.GetFakeFeatureFlags(FlagsClass);
    assert wrong.Failure?;
    var fake := rule.GetFakeFeatureFlags(FeatureFlagsInterface);
    fake.value.AddReadOnly(FlagFlagName3);
    TestFlagsAreAccepted({});
    status := rule.SetFlags([FlagFlagName3], true);
    assert status == Failed(AssumptionViolatedException);
    assert !rule.installed;
  }
}
