/** The rule-reference override engine: a `RuleReference` wraps a delegate `Rule`
    and holds one optional override slot per metadata field, plus its own
    property descriptors and property values. Reads fall back to the delegate;
    writes record an override only when they would change what the delegate says,
    or when the slot is already overridden. */
module RuleReferences {
  import opened Wrappers

  /** A language, identified by its terse name. */
  datatype Language = Language(terseName: string)

  /** A version of one language. */
  datatype LanguageVersion = LanguageVersion(language: Language, version: string)

  /** Rule priorities, from the most to the least severe. */
  datatype RulePriority = High | MediumHigh | Medium | MediumLow | Low

  /** A string-valued property descriptor: its name is its identity on a rule. */
  datatype PropertyDescriptor = PropertyDescriptor(name: string, description: string, defaultValue: string)

  /** Where a referenced rule was imported from. */
  datatype RuleSetReference = RuleSetReference(ruleSetFileName: string)

  /** The exceptions the setters throw. */
  datatype RuleError = UnsupportedOperation | IllegalArgument

  datatype Outcome = Ok | Fail(error: RuleError)

  datatype Result<T> = Success(value: T) | Failure(error: RuleError)

  /** True if some descriptor in `ds` is called `name`. */
  predicate DefinesName(ds: seq<PropertyDescriptor>, name: string)
  {
    exists i :: 0 <= i < |ds| && ds[i].name == name
  }

  /** The override a setter leaves in a slot, given what the delegate says
      (`None` where the delegate has no value): once a slot is overridden every
      write is kept, and a first write is kept only if it differs from the
      delegate's value. */
  function StoreOverride<T(==)>(slot: Option<T>, inherited: Option<T>, v: T): (r: Option<T>)
    ensures r.Some? ==> r.value == v
    ensures r.None? <==> (slot.None? && inherited == Some(v))
  {
    if slot.Some? || inherited != Some(v) then Some(v) else None
  }

  /** The override slot a property map holds for `k`. */
  function Slot<K, V>(m: map<K, V>, k: K): (r: Option<V>)
    ensures r.Some? <==> k in m
    ensures r.Some? ==> r.value == m[k]
  {
    if k in m then Some(m[k]) else None
  }

  /** `m` with the slot of `k` set to `s`, where `None` leaves `m` as it is. */
  function WithSlot<K, V>(m: map<K, V>, k: K, s: Option<V>): (r: map<K, V>)
    ensures s.Some? ==> r == m[k := s.value]
    ensures s.None? ==> r == m
  {
    if s.Some? then m[k := s.value] else m
  }

  /** A plain rule (the delegate), configured through its setters. */
  class Rule {
    var language: Option<Language>
    var minimumLanguageVersion: Option<LanguageVersion>
    var maximumLanguageVersion: Option<LanguageVersion>
    var deprecated: bool
    var name: string
    var message: string
    var description: string
    var examples: seq<string>
    var externalInfoUrl: string
    var priority: RulePriority
    var propertyDescriptors: seq<PropertyDescriptor>
    var propertyValues: map<PropertyDescriptor, string>

    /** Descriptor names are unique, values are stored only under declared
        descriptors, and version bounds belong to the rule's language. */
    ghost predicate Valid()
      reads this`propertyValues, this`propertyDescriptors, this`language,
            this`minimumLanguageVersion, this`maximumLanguageVersion
    {
      (forall d :: d in propertyValues ==> d in propertyDescriptors) &&
      (forall i, j :: 0 <= i < j < |propertyDescriptors| ==>
         propertyDescriptors[i].name != propertyDescriptors[j].name) &&
      (minimumLanguageVersion.Some? ==> language == Some(minimumLanguageVersion.value.language)) &&
      (maximumLanguageVersion.Some? ==> language == Some(maximumLanguageVersion.value.language))
    }

    constructor ()
      ensures Valid()
      ensures language.None? && minimumLanguageVersion.None? && maximumLanguageVersion.None?
      ensures !deprecated && name == "" && message == "" && description == ""
      ensures examples == [] && externalInfoUrl == "" && priority == Low
      ensures propertyDescriptors == [] && propertyValues == map[]
    {
      language, minimumLanguageVersion, maximumLanguageVersion := None, None, None;
      deprecated := false;
      name, message, description := "", "", "";
      examples, externalInfoUrl, priority := [], "", Low;
      propertyDescriptors, propertyValues := [], map[];
    }

    /** The value of a declared property: its stored value, else its default. */
    function GetProperty(d: PropertyDescriptor): (r: Result<string>)
      reads this
      ensures r.Failure? <==> d !in propertyDescriptors
      ensures r.Success? && d in propertyValues ==> r.value == propertyValues[d]
      ensures r.Success? && d !in propertyValues ==> r.value == d.defaultValue
    {
      if d !in propertyDescriptors then Failure(IllegalArgument)
      else if d in propertyValues then Success(propertyValues[d])
      else Success(d.defaultValue)
    }

    /** The language is fixed once set: setting a different one fails. */
    method SetLanguage(l: Language) returns (r: Outcome)
      requires Valid()
      modifies this`language
      ensures Valid()
      ensures r == (if old(language).Some? && old(language) != Some(l) then Fail(UnsupportedOperation) else Ok)
      ensures language == (if r.Ok? then Some(l) else old(language))
    {
      if language.Some? && language != Some(l) {
        r := Fail(UnsupportedOperation);
      } else {
        r := Ok;
        language := Some(l);
      }
    }

    method SetMinimumLanguageVersion(v: LanguageVersion) returns (r: Outcome)
      requires Valid()
      modifies this`minimumLanguageVersion
      ensures Valid()
      ensures r == (if language == Some(v.language) then Ok else Fail(IllegalArgument))
      ensures minimumLanguageVersion == (if r.Ok? then Some(v) else old(minimumLanguageVersion))
    {
      if language == Some(v.language) {
        r := Ok;
        minimumLanguageVersion := Some(v);
      } else {
        r := Fail(IllegalArgument);
      }
    }

    method SetMaximumLanguageVersion(v: LanguageVersion) returns (r: Outcome)
      requires Valid()
      modifies this`maximumLanguageVersion
      ensures Valid()
      ensures r == (if language == Some(v.language) then Ok else Fail(IllegalArgument))
      ensures maximumLanguageVersion == (if r.Ok? then Some(v) else old(maximumLanguageVersion))
    {
      if language == Some(v.language) {
        r := Ok;
        maximumLanguageVersion := Some(v);
      } else {
        r := Fail(IllegalArgument);
      }
    }

    method SetDeprecated(b: bool)
      modifies this`deprecated
      ensures deprecated == b
    {
      deprecated := b;
    }

    method SetName(v: string)
      modifies this`name
      ensures name == v
    {
      name := v;
    }

    method SetMessage(v: string)
      modifies this`message
      ensures message == v
    {
      message := v;
    }

    method SetDescription(v: string)
      modifies this`description
      ensures description == v
    {
      description := v;
    }

    method AddExample(e: string)
      modifies this`examples
      ensures examples == old(examples) + [e]
    {
      examples := examples + [e];
    }

    method SetExternalInfoUrl(v: string)
      modifies this`externalInfoUrl
      ensures externalInfoUrl == v
    {
      externalInfoUrl := v;
    }

    method SetPriority(p: RulePriority)
      modifies this`priority
      ensures priority == p
    {
      priority := p;
    }

    /** Declares a property; a second descriptor with the same name is rejected. */
    method DefinePropertyDescriptor(d: PropertyDescriptor) returns (r: Outcome)
      requires Valid()
      modifies this`propertyDescriptors
      ensures Valid()
      ensures r == (if DefinesName(old(propertyDescriptors), d.name) then Fail(IllegalArgument) else Ok)
      ensures propertyDescriptors == (if r.Ok? then old(propertyDescriptors) + [d] else old(propertyDescriptors))
    {
      if DefinesName(propertyDescriptors, d.name) {
        r := Fail(IllegalArgument);
      } else {
        r := Ok;
        propertyDescriptors := propertyDescriptors + [d];
      }
    }

    /** Stores a property value; only declared descriptors are accepted. */
    method SetProperty(d: PropertyDescriptor, v: string) returns (r: Outcome)
      requires Valid()
      modifies this`propertyValues
      ensures Valid()
      ensures r == (if d in propertyDescriptors then Ok else Fail(IllegalArgument))
      ensures propertyValues == (if r.Ok? then old(propertyValues)[d := v] else old(propertyValues))
      ensures r.Ok? ==> GetProperty(d) == Success(v)
    {
      if d in propertyDescriptors {
        r := Ok;
        propertyValues := propertyValues[d := v];
      } else {
        r := Fail(IllegalArgument);
      }
    }
  }

  /** A rule imported by reference, with optional local overrides. */
  class RuleReference {
    var rule: Rule
    var ruleSetReference: Option<RuleSetReference>
    var minimumLanguageVersion: Option<LanguageVersion>
    var maximumLanguageVersion: Option<LanguageVersion>
    var deprecated: Option<bool>
    var name: Option<string>
    var message: Option<string>
    var description: Option<string>
    var examples: Option<seq<string>>
    var externalInfoUrl: Option<string>
    var priority: Option<RulePriority>
    /** Descriptors declared on the reference itself. */
    var propertyDescriptors: seq<PropertyDescriptor>
    /** Property values overridden on the reference. */
    var propertyValues: map<PropertyDescriptor, string>

    /** A reference to `delegate` with nothing overridden. */
    constructor (delegate: Rule)
      ensures rule == delegate && ruleSetReference.None?
      ensures minimumLanguageVersion.None? && maximumLanguageVersion.None? && deprecated.None?
      ensures name.None? && message.None? && description.None? && examples.None?
      ensures externalInfoUrl.None? && priority.None?
      ensures propertyDescriptors == [] && propertyValues == map[]
      ensures Valid()
    {
      rule := delegate;
      ruleSetReference := None;
      minimumLanguageVersion, maximumLanguageVersion, deprecated := None, None, None;
      name, message, description, examples := None, None, None, None;
      externalInfoUrl, priority := None, None;
      propertyDescriptors, propertyValues := [], map[];
    }

    /** The overrides make sense for `delegate`: version bounds belong to its
        language, local descriptor names are unique and differ from its own, and
        values are kept only for descriptors one of the two declares. */
    ghost predicate ConsistentWith(delegate: Rule)
      reads this`minimumLanguageVersion, this`maximumLanguageVersion,
            this`propertyDescriptors, this`propertyValues,
            delegate`language, delegate`propertyDescriptors
    {
      (minimumLanguageVersion.Some? ==> delegate.language == Some(minimumLanguageVersion.value.language)) &&
      (maximumLanguageVersion.Some? ==> delegate.language == Some(maximumLanguageVersion.value.language)) &&
      (forall i :: 0 <= i < |propertyDescriptors| ==>
         !DefinesName(delegate.propertyDescriptors, propertyDescriptors[i].name)) &&
      (forall i, j :: 0 <= i < j < |propertyDescriptors| ==>
         propertyDescriptors[i].name != propertyDescriptors[j].name) &&
      (forall d :: d in propertyValues ==> d in delegate.propertyDescriptors || d in propertyDescriptors)
    }

    ghost predicate Valid()
      reads this`rule, this`minimumLanguageVersion, this`maximumLanguageVersion,
            this`propertyDescriptors, this`propertyValues,
            rule`language, rule`propertyDescriptors
    {
      ConsistentWith(rule)
    }

    // Reads: the override if present, else the delegate's value.

    /** The language is always the delegate's. */
    function Language(): (r: Option<Language>)
      reads this, rule
      ensures r == rule.language
    {
      rule.language
    }

    function MinimumLanguageVersion(): (r: Option<LanguageVersion>)
      reads this, rule
      ensures minimumLanguageVersion.Some? ==> r == minimumLanguageVersion
      ensures minimumLanguageVersion.None? ==> r == rule.minimumLanguageVersion
    {
      if minimumLanguageVersion.Some? then minimumLanguageVersion else rule.minimumLanguageVersion
    }

    function MaximumLanguageVersion(): (r: Option<LanguageVersion>)
      reads this, rule
      ensures maximumLanguageVersion.Some? ==> r == maximumLanguageVersion
      ensures maximumLanguageVersion.None? ==> r == rule.maximumLanguageVersion
    {
      if maximumLanguageVersion.Some? then maximumLanguageVersion else rule.maximumLanguageVersion
    }

    function IsDeprecated(): (r: bool)
      reads this, rule
      ensures deprecated.Some? ==> r == deprecated.value
      ensures deprecated.None? ==> r == rule.deprecated
    {
      deprecated.GetOr(rule.deprecated)
    }

    function Name(): (r: string)
      reads this, rule
      ensures name.Some? ==> r == name.value
      ensures name.None? ==> r == rule.name
    {
      name.GetOr(rule.name)
    }

    function Message(): (r: string)
      reads this, rule
      ensures message.Some? ==> r == message.value
      ensures message.None? ==> r == rule.message
    {
      message.GetOr(rule.message)
    }

    function Description(): (r: string)
      reads this, rule
      ensures description.Some? ==> r == description.value
      ensures description.None? ==> r == rule.description
    {
      description.GetOr(rule.description)
    }

    /** The delegate's examples followed by the locally added ones. */
    function Examples(): (r: seq<string>)
      reads this, rule
      ensures |r| == |rule.examples| + |examples.GetOr([])|
      ensures r[..|rule.examples|] == rule.examples
      ensures r[|rule.examples|..] == examples.GetOr([])
    {
      rule.examples + examples.GetOr([])
    }

    function ExternalInfoUrl(): (r: string)
      reads this, rule
      ensures externalInfoUrl.Some? ==> r == externalInfoUrl.value
      ensures externalInfoUrl.None? ==> r == rule.externalInfoUrl
    {
      externalInfoUrl.GetOr(rule.externalInfoUrl)
    }

    function Priority(): (r: RulePriority)
      reads this, rule
      ensures priority.Some? ==> r == priority.value
      ensures priority.None? ==> r == rule.priority
    {
      priority.GetOr(rule.priority)
    }

    /** The delegate's descriptors followed by the locally declared ones. */
    function PropertyDescriptors(): (r: seq<PropertyDescriptor>)
      reads this, rule
      ensures forall d :: d in r <==> d in rule.propertyDescriptors || d in propertyDescriptors
    {
      rule.propertyDescriptors + propertyDescriptors
    }

    /** What a property is worth without a local override: the delegate's stored
        value, else the descriptor's default. */
    function InheritedProperty(d: PropertyDescriptor): (r: string)
      reads this, rule
      ensures d in rule.propertyValues ==> r == rule.propertyValues[d]
      ensures d !in rule.propertyValues ==> r == d.defaultValue
    {
      if d in rule.propertyValues then rule.propertyValues[d] else d.defaultValue
    }

    /** A property's value: the local override first, then the inherited value;
        descriptors neither the delegate nor the reference declares are rejected. */
    function GetProperty(d: PropertyDescriptor): (r: Result<string>)
      reads this, rule
      ensures r.Failure? <==> d !in rule.propertyDescriptors && d !in propertyDescriptors
      ensures r.Success? && d in propertyValues ==> r.value == propertyValues[d]
      ensures r.Success? && d !in propertyValues ==> r.value == InheritedProperty(d)
    {
      if d !in PropertyDescriptors() then Failure(IllegalArgument)
      else if d in propertyValues then Success(propertyValues[d])
      else Success(InheritedProperty(d))
    }

    /** Every declared descriptor with its current value. */
    function PropertiesByDescriptor(): (r: map<PropertyDescriptor, string>)
      reads this, rule
      ensures forall d :: d in r <==> d in PropertyDescriptors()
      ensures forall d :: d in r ==> GetProperty(d) == Success(r[d])
    {
      map d | d in PropertyDescriptors() ::
        if d in propertyValues then propertyValues[d] else InheritedProperty(d)
    }

    // Writes.

    method SetRuleSetReference(reference: RuleSetReference)
      modifies this`ruleSetReference
      ensures ruleSetReference == Some(reference)
    {
      ruleSetReference := Some(reference);
    }

    /** Rebinds the reference to another delegate; the overrides stay, so they
        must make sense for the new delegate. */
    method SetRule(delegate: Rule)
      requires ConsistentWith(delegate)
      modifies this`rule
      ensures rule == delegate
      ensures Valid()
    {
      rule := delegate;
    }

    /** The language of a reference cannot change: only the delegate's own
        language is accepted, and nothing is modified either way. */
    method SetLanguage(l: Language) returns (r: Outcome)
      ensures r == (if rule.language == Some(l) then Ok else Fail(UnsupportedOperation))
    {
      if rule.language == Some(l) {
        r := Ok;
      } else {
        r := Fail(UnsupportedOperation);
      }
    }

    /** A version of a foreign language is rejected and the slot keeps its value. */
    method SetMinimumLanguageVersion(v: LanguageVersion) returns (r: Outcome)
      requires Valid()
      modifies this`minimumLanguageVersion
      ensures Valid()
      ensures r == (if rule.language == Some(v.language) then Ok else Fail(IllegalArgument))
      ensures r.Fail? ==> minimumLanguageVersion == old(minimumLanguageVersion)
      ensures r.Ok? ==> minimumLanguageVersion == StoreOverride(old(minimumLanguageVersion), rule.minimumLanguageVersion, v)
      ensures r.Ok? ==> MinimumLanguageVersion() == Some(v)
    {
      if rule.language != Some(v.language) {
        r := Fail(IllegalArgument);
      } else {
        r := Ok;
        minimumLanguageVersion := StoreOverride(minimumLanguageVersion, rule.minimumLanguageVersion, v);
      }
    }

    method SetMaximumLanguageVersion(v: LanguageVersion) returns (r: Outcome)
      requires Valid()
      modifies this`maximumLanguageVersion
      ensures Valid()
      ensures r == (if rule.language == Some(v.language) then Ok else Fail(IllegalArgument))
      ensures r.Fail? ==> maximumLanguageVersion == old(maximumLanguageVersion)
      ensures r.Ok? ==> maximumLanguageVersion == StoreOverride(old(maximumLanguageVersion), rule.maximumLanguageVersion, v)
      ensures r.Ok? ==> MaximumLanguageVersion() == Some(v)
    {
      if rule.language != Some(v.language) {
        r := Fail(IllegalArgument);
      } else {
        r := Ok;
        maximumLanguageVersion := StoreOverride(maximumLanguageVersion, rule.maximumLanguageVersion, v);
      }
    }

    method SetDeprecated(b: bool)
      requires Valid()
      modifies this`deprecated
      ensures Valid()
      ensures deprecated == StoreOverride(old(deprecated), Some(rule.deprecated), b)
      ensures IsDeprecated() == b
    {
      deprecated := StoreOverride(deprecated, Some(rule.deprecated), b);
    }

    method SetName(v: string)
      requires Valid()
      modifies this`name
      ensures Valid()
      ensures name == StoreOverride(old(name), Some(rule.name), v)
      ensures Name() == v
    {
      name := StoreOverride(name, Some(rule.name), v);
    }

    method SetMessage(v: string)
      requires Valid()
      modifies this`message
      ensures Valid()
      ensures message == StoreOverride(old(message), Some(rule.message), v)
      ensures Message() == v
    {
      message := StoreOverride(message, Some(rule.message), v);
    }

    method SetDescription(v: string)
      requires Valid()
      modifies this`description
      ensures Valid()
      ensures description == StoreOverride(old(description), Some(rule.description), v)
      ensures Description() == v
    {
      description := StoreOverride(description, Some(rule.description), v);
    }

    method SetExternalInfoUrl(v: string)
      requires Valid()
      modifies this`externalInfoUrl
      ensures Valid()
      ensures externalInfoUrl == StoreOverride(old(externalInfoUrl), Some(rule.externalInfoUrl), v)
      ensures ExternalInfoUrl() == v
    {
      externalInfoUrl := StoreOverride(externalInfoUrl, Some(rule.externalInfoUrl), v);
    }

    method SetPriority(p: RulePriority)
      requires Valid()
      modifies this`priority
      ensures Valid()
      ensures priority == StoreOverride(old(priority), Some(rule.priority), p)
      ensures Priority() == p
    {
      priority := StoreOverride(priority, Some(rule.priority), p);
    }

    /** An example the delegate already has is ignored; any other is added locally. */
    method AddExample(e: string)
      requires Valid()
      modifies this`examples
      ensures Valid()
      ensures e in rule.examples ==> examples == old(examples)
      ensures e !in rule.examples ==> examples == Some(old(examples).GetOr([]) + [e])
      ensures Examples() == if e in rule.examples then old(Examples()) else old(Examples()) + [e]
    {
      if e !in rule.examples {
        examples := Some(examples.GetOr([]) + [e]);
      }
    }

    /** Declares a property on the reference; a name already declared on the
        delegate or on the reference is rejected. */
    method DefinePropertyDescriptor(d: PropertyDescriptor) returns (r: Outcome)
      requires Valid()
      modifies this`propertyDescriptors
      ensures Valid()
      ensures r == (if DefinesName(old(PropertyDescriptors()), d.name) then Fail(IllegalArgument) else Ok)
      ensures propertyDescriptors == (if r.Ok? then old(propertyDescriptors) + [d] else old(propertyDescriptors))
    {
      if DefinesName(PropertyDescriptors(), d.name) {
        r := Fail(IllegalArgument);
      } else {
        r := Ok;
        forall i | 0 <= i < |rule.propertyDescriptors|
          ensures rule.propertyDescriptors[i].name != d.name
        {
          assert PropertyDescriptors()[i] == rule.propertyDescriptors[i];
        }
        forall i | 0 <= i < |propertyDescriptors|
          ensures propertyDescriptors[i].name != d.name
        {
          assert PropertyDescriptors()[|rule.propertyDescriptors| + i] == propertyDescriptors[i];
        }
        propertyDescriptors := propertyDescriptors + [d];
      }
    }

    /** Overrides a property value, following the same rule as the metadata slots;
        an undeclared descriptor is rejected. */
    method SetProperty(d: PropertyDescriptor, v: string) returns (r: Outcome)
      requires Valid()
      modifies this`propertyValues
      ensures Valid()
      ensures r == (if d in PropertyDescriptors() then Ok else Fail(IllegalArgument))
      ensures r.Fail? ==> propertyValues == old(propertyValues)
      ensures r.Ok? ==> (propertyValues ==
        WithSlot(old(propertyValues), d, StoreOverride(Slot(old(propertyValues), d), Some(InheritedProperty(d)), v)))
      ensures r.Ok? ==> GetProperty(d) == Success(v)
    {
      if d !in PropertyDescriptors() {
        r := Fail(IllegalArgument);
      } else {
        r := Ok;
        propertyValues := WithSlot(propertyValues, d, StoreOverride(Slot(propertyValues, d), Some(InheritedProperty(d)), v));
      }
    }

    /** A reference holding the same delegate and a copy of every override of `other`. */
    constructor Copy(other: RuleReference)
      requires other.Valid()
      ensures Valid()
      ensures rule == other.rule && ruleSetReference == other.ruleSetReference
      ensures minimumLanguageVersion == other.minimumLanguageVersion
      ensures maximumLanguageVersion == other.maximumLanguageVersion
      ensures deprecated == other.deprecated && name == other.name && message == other.message
      ensures description == other.description && examples == other.examples
      ensures externalInfoUrl == other.externalInfoUrl && priority == other.priority
      ensures propertyDescriptors == other.propertyDescriptors && propertyValues == other.propertyValues
    {
      rule, ruleSetReference := other.rule, other.ruleSetReference;
      minimumLanguageVersion, maximumLanguageVersion := other.minimumLanguageVersion, other.maximumLanguageVersion;
      deprecated, name, message := other.deprecated, other.name, other.message;
      description, examples := other.description, other.examples;
      externalInfoUrl, priority := other.externalInfoUrl, other.priority;
      propertyDescriptors, propertyValues := other.propertyDescriptors, other.propertyValues;
    }

    /** A new reference to the same delegate carrying every override. */
    method DeepCopy() returns (c: RuleReference)
      requires Valid()
      ensures fresh(c) && c.Valid()
      ensures c.rule == rule && c.ruleSetReference == ruleSetReference
      ensures c.minimumLanguageVersion == minimumLanguageVersion
      ensures c.maximumLanguageVersion == maximumLanguageVersion
      ensures c.deprecated == deprecated && c.name == name && c.message == message
      ensures c.description == description && c.examples == examples
      ensures c.externalInfoUrl == externalInfoUrl && c.priority == priority
      ensures c.propertyDescriptors == propertyDescriptors && c.propertyValues == propertyValues
    {
      c := new RuleReference.Copy(this);
    }
  }

  /** The effective version bounds of a consistent reference always belong to
      its language. */
  lemma VersionsInLanguage(r: RuleReference)
    requires r.Valid() && r.rule.Valid()
    ensures r.MinimumLanguageVersion().Some? ==> r.Language() == Some(r.MinimumLanguageVersion().value.language)
    ensures r.MaximumLanguageVersion().Some? ==> r.Language() == Some(r.MaximumLanguageVersion().value.language)
  {
  }

  /** Without a local override, a reference reports a delegate-declared property
      exactly as the delegate does. */
  lemma InheritedIsDelegateValue(r: RuleReference, d: PropertyDescriptor)
    requires d in r.rule.propertyDescriptors && d !in r.propertyValues
    ensures r.GetProperty(d) == r.rule.GetProperty(d)
  {
  }
}
