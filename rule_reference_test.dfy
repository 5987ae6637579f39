/** The scenarios of the rule-reference tests, as client code whose assertions
    follow from the contracts of `Rule` and `RuleReference` alone. */
module RuleReferenceScenarios {
  import opened Wrappers
  import opened RuleReferences

  const Dummy: Language := Language("dummy")
  const Dummy2: Language := Language("dummy2")

  function DummyVersion(v: string): LanguageVersion
  {
    LanguageVersion(Dummy, v)
  }

  function TestProperty(name: string): PropertyDescriptor
  {
    PropertyDescriptor(name, "Test property", "")
  }

  /** The delegate of the override tests. */
  predicate OverrideTestDelegate(p1: PropertyDescriptor, rule: Rule)
    reads rule
  {
    rule.language == Some(Dummy) && rule.propertyDescriptors == [p1] &&
    rule.minimumLanguageVersion.None? && rule.maximumLanguageVersion.None? &&
    !rule.deprecated && rule.name == "name1" && rule.propertyValues == map[p1 := "value1"] &&
    rule.message == "message1" && rule.description == "description1" &&
    rule.examples == ["example1"] && rule.externalInfoUrl == "externalInfoUrl1" &&
    rule.priority == High
  }

  /** What every overridden reference in the tests must report. */
  predicate OverriddenValuesValidated(p1: PropertyDescriptor, p2: PropertyDescriptor, r: RuleReference)
    reads r, r.rule
  {
    r.Language() == Some(Dummy) &&
    r.MinimumLanguageVersion() == Some(DummyVersion("1.3")) &&
    r.minimumLanguageVersion == Some(DummyVersion("1.3")) &&
    r.MaximumLanguageVersion() == Some(DummyVersion("1.7")) &&
    r.maximumLanguageVersion == Some(DummyVersion("1.7")) &&
    !r.rule.deprecated && r.IsDeprecated() && r.deprecated == Some(true) &&
    r.Name() == "name2" && r.name == Some("name2") &&
    r.GetProperty(p1) == Success("value2") && r.GetProperty(p2) == Success("value3") &&
    p1 in r.PropertyDescriptors() && p2 in r.PropertyDescriptors() &&
    p1 !in r.propertyDescriptors && p2 in r.propertyDescriptors &&
    p1 in r.PropertiesByDescriptor() && p2 in r.PropertiesByDescriptor() &&
    p1 in r.propertyValues && p2 in r.propertyValues &&
    r.Message() == "message2" && r.message == Some("message2") &&
    r.Description() == "description2" && r.description == Some("description2") &&
    r.Examples() == ["example1", "example2"] &&
    r.examples.Some? && |r.examples.value| > 0 && r.examples.value[0] == "example2" &&
    r.ExternalInfoUrl() == "externalInfoUrl2" && r.externalInfoUrl == Some("externalInfoUrl2") &&
    r.Priority() == MediumHigh && r.priority == Some(MediumHigh)
  }

  /** A rule-set reference reads back as it was set. */
  method TestRuleSetReference(delegate: Rule) returns (reference: RuleSetReference, r: RuleReference)
    ensures r.ruleSetReference == Some(reference) && reference == RuleSetReference("somename")
  {
    r := new RuleReference(delegate);
    reference := RuleSetReference("somename");
    r.SetRuleSetReference(reference);
  }

  /** The delegate used by the override tests: its language and its one property. */
  method NewDelegate(p1: PropertyDescriptor) returns (rule: Rule)
    ensures fresh(rule) && rule.Valid() && OverrideTestDelegate(p1, rule)
  {
    rule := new Rule();
    DeclareDelegate(rule, p1);
    DescribeDelegate(rule);
  }

  /** The delegate's language, its name and its one property with its value. */
  method DeclareDelegate(rule: Rule, p1: PropertyDescriptor)
    requires rule.Valid() && rule.language.None?
    requires rule.propertyDescriptors == [] && rule.propertyValues == map[]
    modifies rule`propertyDescriptors, rule`language, rule`name, rule`propertyValues
    ensures rule.Valid()
    ensures rule.language == Some(Dummy) && rule.propertyDescriptors == [p1]
    ensures rule.name == "name1" && rule.propertyValues == map[p1 := "value1"]
  {
    var ok := rule.DefinePropertyDescriptor(p1);
    ok := rule.SetLanguage(Dummy);
    rule.SetName("name1");
    ok := rule.SetProperty(p1, "value1");
  }

  /** The delegate's remaining metadata. */
  method DescribeDelegate(rule: Rule)
    modifies rule`message, rule`description, rule`examples, rule`externalInfoUrl, rule`priority
    ensures rule.message == "message1" && rule.description == "description1"
    ensures rule.examples == old(rule.examples) + ["example1"]
    ensures rule.externalInfoUrl == "externalInfoUrl1" && rule.priority == High
  {
    rule.SetMessage("message1");
    rule.SetDescription("description1");
    rule.AddExample("example1");
    rule.SetExternalInfoUrl("externalInfoUrl1");
    rule.SetPriority(High);
  }

  /** The overrides of the override tests that concern versions and deprecation. */
  method OverrideVersions(r: RuleReference, p2: PropertyDescriptor, setLanguage: bool)
    requires r.rule.language == Some(Dummy) && !r.rule.deprecated
    requires r.rule.minimumLanguageVersion.None? && r.rule.maximumLanguageVersion.None?
    requires !DefinesName(r.PropertyDescriptors(), p2.name)
    requires r.Valid()
    modifies r`propertyDescriptors, r`minimumLanguageVersion, r`maximumLanguageVersion, r`deprecated
    ensures r.Valid()
    ensures r.propertyDescriptors == old(r.propertyDescriptors) + [p2]
    ensures r.minimumLanguageVersion == Some(DummyVersion("1.3"))
    ensures r.maximumLanguageVersion == Some(DummyVersion("1.7"))
    ensures r.deprecated == Some(true)
  {
    var ok := r.DefinePropertyDescriptor(p2);
    if setLanguage {
      ok := r.SetLanguage(Dummy);
      assert ok == Ok;
    }
    ok := r.SetMinimumLanguageVersion(DummyVersion("1.3"));
    ok := r.SetMaximumLanguageVersion(DummyVersion("1.7"));
    r.SetDeprecated(true);
  }

  /** The overrides of the override tests that concern the name and the properties. */
  method OverrideNameAndProperties(r: RuleReference, p1: PropertyDescriptor, p2: PropertyDescriptor)
    requires p1 in r.PropertyDescriptors() && p2 in r.PropertyDescriptors()
    requires "value2" != r.InheritedProperty(p1) && "value3" != r.InheritedProperty(p2)
    requires r.rule.name != "name2"
    requires r.Valid()
    modifies r`name, r`propertyValues
    ensures r.Valid()
    ensures r.name == Some("name2")
    ensures r.propertyValues == old(r.propertyValues)[p1 := "value2"][p2 := "value3"]
  {
    r.SetName("name2");
    var ok := r.SetProperty(p1, "value2");
    ok := r.SetProperty(p2, "value3");
  }

  /** The overrides of the override tests that concern the descriptive metadata. */
  method OverrideMetadata(r: RuleReference)
    requires r.rule.message != "message2"
    requires r.rule.description != "description2" && "example2" !in r.rule.examples
    requires r.rule.externalInfoUrl != "externalInfoUrl2" && r.rule.priority != MediumHigh
    requires r.Valid()
    modifies r`message, r`description, r`examples, r`externalInfoUrl, r`priority
    ensures r.Valid()
    ensures r.message == Some("message2") && r.description == Some("description2")
    ensures r.examples == Some(old(r.examples).GetOr([]) + ["example2"])
    ensures r.externalInfoUrl == Some("externalInfoUrl2") && r.priority == Some(MediumHigh)
  {
    r.SetMessage("message2");
    r.SetDescription("description2");
    r.AddExample("example2");
    r.SetExternalInfoUrl("externalInfoUrl2");
    r.SetPriority(MediumHigh);
  }

  /** Applies the overrides of the override tests to a fresh reference. */
  method NewOverriddenReference(p1: PropertyDescriptor, p2: PropertyDescriptor, setLanguage: bool)
    returns (r: RuleReference)
    requires p1 == TestProperty("property1") && p2 == TestProperty("property2")
    ensures fresh(r) && r.Valid() && OverriddenValuesValidated(p1, p2, r)
  {
    var rule := NewDelegate(p1);
    r := new RuleReference(rule);
    ApplyOverrides(r, p1, p2, setLanguage);
    OverridesReported(p1, p2, r);
  }

  /** The override slots the override tests leave behind. */
  predicate OverrideTestSlots(p1: PropertyDescriptor, p2: PropertyDescriptor, r: RuleReference)
    reads r
  {
    r.minimumLanguageVersion == Some(DummyVersion("1.3")) &&
    r.maximumLanguageVersion == Some(DummyVersion("1.7")) &&
    r.deprecated == Some(true) && r.name == Some("name2") &&
    r.propertyDescriptors == [p2] &&
    r.propertyValues == map[p1 := "value2", p2 := "value3"] &&
    r.message == Some("message2") && r.description == Some("description2") &&
    r.examples == Some(["example2"]) &&
    r.externalInfoUrl == Some("externalInfoUrl2") && r.priority == Some(MediumHigh)
  }

  /** The overrides of the override tests, applied in their order to a reference
      without overrides. */
  method ApplyOverrides(r: RuleReference, p1: PropertyDescriptor, p2: PropertyDescriptor, setLanguage: bool)
    requires p1 == TestProperty("property1") && p2 == TestProperty("property2")
    requires OverrideTestDelegate(p1, r.rule)
    requires r.minimumLanguageVersion.None? && r.maximumLanguageVersion.None? && r.deprecated.None?
    requires r.name.None? && r.message.None? && r.description.None? && r.examples.None?
    requires r.externalInfoUrl.None? && r.priority.None?
    requires r.propertyDescriptors == [] && r.propertyValues == map[]
    requires r.Valid()
    modifies r`propertyDescriptors, r`minimumLanguageVersion, r`maximumLanguageVersion, r`deprecated
    modifies r`name, r`propertyValues, r`message, r`description, r`examples, r`externalInfoUrl, r`priority
    ensures r.Valid() && OverrideTestSlots(p1, p2, r)
  {
    OverrideVersions(r, p2, setLanguage);
    OverrideNameAndProperties(r, p1, p2);
    OverrideMetadata(r);
    assert [] + ["example2"] == ["example2"];
  }

  /** The delegate of the override tests under the override tests' slots: every
      read reports the override, and the slots hold it. */
  lemma OverridesReported(p1: PropertyDescriptor, p2: PropertyDescriptor, r: RuleReference)
    requires p1 == TestProperty("property1") && p2 == TestProperty("property2")
    requires OverrideTestDelegate(p1, r.rule)
    requires OverrideTestSlots(p1, p2, r)
    ensures OverriddenValuesValidated(p1, p2, r)
  {
    assert r.PropertyDescriptors() == [p1, p2];
    assert r.Examples() == ["example1"] + ["example2"];
  }

  /** Overrides are reported both by the reads and by the override slots. */
  method TestOverride() returns (r: RuleReference)
    ensures OverriddenValuesValidated(TestProperty("property1"), TestProperty("property2"), r)
  {
    r := NewOverriddenReference(TestProperty("property1"), TestProperty("property2"), false);
  }

  /** A deep copy reports the same overrides as the reference it copies. */
  method TestDeepCopyOverride() returns (r: RuleReference, c: RuleReference)
    ensures OverriddenValuesValidated(TestProperty("property1"), TestProperty("property2"), c)
    ensures c != r && c.rule == r.rule
  {
    var p1, p2 := TestProperty("property1"), TestProperty("property2");
    r := NewOverriddenReference(p1, p2, true);
    c := r.DeepCopy();
  }

  /** Overriding a slot of a deep copy leaves the original's slot and read alone,
      while both still read through the same delegate. */
  method DeepCopyIndependence(r: RuleReference, v: string) returns (c: RuleReference)
    requires r.Valid()
    ensures fresh(c) && c.rule == r.rule
    ensures c.Name() == v
    ensures r.name == old(r.name) && r.Name() == old(r.Name())
  {
    c := r.DeepCopy();
    c.SetName(v);
  }

  /** The language of a reference cannot change, and versions of another
      language are refused without touching the slots. */
  method TestLanguageOverrideDisallowed()
    returns (r: RuleReference, setLanguage: Outcome, setMax: Outcome, setMin: Outcome)
    ensures setLanguage == Fail(UnsupportedOperation) && r.Language() == Some(Dummy)
    ensures setMax == Fail(IllegalArgument) && r.maximumLanguageVersion == r.rule.maximumLanguageVersion
    ensures setMin == Fail(IllegalArgument) && r.MinimumLanguageVersion() == r.rule.minimumLanguageVersion
  {
    var rule := new Rule();
    var ok := rule.SetLanguage(Dummy);
    r := new RuleReference(rule);
    setLanguage := r.SetLanguage(Dummy2);
    setMax := r.SetMaximumLanguageVersion(LanguageVersion(Dummy2, "1.0"));
    setMin := r.SetMinimumLanguageVersion(LanguageVersion(Dummy2, "1.0"));
  }

  /** The delegate of the no-override test: the override tests' delegate with version bounds. */
  method NewBoundedDelegate(p1: PropertyDescriptor) returns (rule: Rule)
    ensures fresh(rule) && rule.Valid()
    ensures rule.language == Some(Dummy) && rule.propertyDescriptors == [p1]
    ensures rule.minimumLanguageVersion == Some(DummyVersion("1.3"))
    ensures rule.maximumLanguageVersion == Some(DummyVersion("1.7"))
    ensures !rule.deprecated && rule.name == "name1" && rule.propertyValues == map[p1 := "value1"]
    ensures rule.message == "message1" && rule.description == "description1"
    ensures rule.examples == ["example1"] && rule.externalInfoUrl == "externalInfoUrl1"
    ensures rule.priority == High
  {
    rule := NewDelegate(p1);
    var ok := rule.SetMinimumLanguageVersion(DummyVersion("1.3"));
    ok := rule.SetMaximumLanguageVersion(DummyVersion("1.7"));
  }

  /** Writes of the delegate's own versions, deprecation, name and property. */
  method RepeatVersions(r: RuleReference, p1: PropertyDescriptor)
    requires r.rule.language == Some(Dummy) && !r.rule.deprecated && r.rule.name == "name1"
    requires r.rule.minimumLanguageVersion == Some(DummyVersion("1.3"))
    requires r.rule.maximumLanguageVersion == Some(DummyVersion("1.7"))
    requires p1 in r.PropertyDescriptors() && r.InheritedProperty(p1) == "value1"
    requires r.minimumLanguageVersion.None? && r.maximumLanguageVersion.None?
    requires r.deprecated.None? && r.name.None? && p1 !in r.propertyValues
    requires r.Valid()
    modifies r`minimumLanguageVersion, r`maximumLanguageVersion, r`deprecated, r`name, r`propertyValues
    ensures r.minimumLanguageVersion.None? && r.maximumLanguageVersion.None?
    ensures r.Valid()
    ensures r.deprecated.None? && r.name.None? && r.propertyValues == old(r.propertyValues)
    ensures r.GetProperty(p1) == Success("value1")
  {
    var ok := r.SetMinimumLanguageVersion(DummyVersion("1.3"));
    ok := r.SetMaximumLanguageVersion(DummyVersion("1.7"));
    r.SetDeprecated(false);
    r.SetName("name1");
    ok := r.SetProperty(p1, "value1");
  }

  /** Writes of the delegate's own message, description, example, URL and priority. */
  method RepeatMetadata(r: RuleReference)
    requires r.rule.message == "message1" && r.rule.description == "description1"
    requires "example1" in r.rule.examples && r.rule.externalInfoUrl == "externalInfoUrl1"
    requires r.rule.priority == High
    requires r.message.None? && r.description.None? && r.externalInfoUrl.None? && r.priority.None?
    requires r.Valid()
    modifies r`message, r`description, r`examples, r`externalInfoUrl, r`priority
    ensures r.message.None? && r.description.None? && r.externalInfoUrl.None? && r.priority.None?
    ensures r.examples == old(r.examples)
  {
    r.SetMessage("message1");
    r.SetDescription("description1");
    r.AddExample("example1");
    r.SetExternalInfoUrl("externalInfoUrl1");
    r.SetPriority(High);
  }

  /** Writing the delegate's own values records no override. */
  method TestNotOverride() returns (r: RuleReference)
    ensures r.MinimumLanguageVersion() == Some(DummyVersion("1.3")) && r.minimumLanguageVersion.None?
    ensures r.MaximumLanguageVersion() == Some(DummyVersion("1.7")) && r.maximumLanguageVersion.None?
    ensures !r.IsDeprecated() && r.deprecated.None?
    ensures r.Name() == "name1" && r.name.None?
    ensures r.GetProperty(TestProperty("property1")) == Success("value1")
    ensures r.Message() == "message1" && r.message.None?
    ensures r.Description() == "description1" && r.description.None?
    ensures r.Examples() == ["example1"] && r.examples.None?
    ensures r.ExternalInfoUrl() == "externalInfoUrl1" && r.externalInfoUrl.None?
    ensures r.Priority() == High && r.priority.None?
  {
    var p1 := TestProperty("property1");
    var rule := NewBoundedDelegate(p1);
    r := new RuleReference(rule);
    RepeatVersions(r, p1);
    RepeatMetadata(r);
  }
}
