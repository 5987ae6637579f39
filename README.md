# PMD rule references, sequence property syntax and rule-set snippets

A Dafny model of three pieces of PMD's core.

- **`SeqSyntax`** (module `PropertySyntax`, `seq_syntax.dfy`): the XML syntax of list-valued
  rule properties. `toXml` appends one child element per item, named and filled by the
  item syntax. `fromXml` reads the children back one by one: a child that fails to decode
  is reported and skipped, so the rest of the list survives. `examples` shows the item
  examples inside a `<seq>` element. The DOM element being written is a class whose
  child list the serialiser appends to. The item syntax is an abstract codec, given as
  functions.
- **The rule-reference override engine** (module `RuleReferences`, `rule_reference.dfy`).
  A `RuleReference` wraps a delegate `Rule` and has one optional override slot per
  metadata field, plus its own property descriptors and property values. Reads return
  the override if present and the delegate's value otherwise. A write to a metadata slot,
  a version slot or a property value records an override only when it differs from the
  delegate's value, or when the slot is already overridden. Examples follow their own
  rule: an example the delegate already has is ignored, and any other one is added locally.
  The language cannot be overridden, and a version of a foreign language is rejected.
  Writes made through the reference keep it consistent with its delegate (`Valid`): its
  version overrides belong to the delegate's language, and its own descriptor names are
  unique and differ from the delegate's. A deep copy shares the delegate and copies every slot. The test scenarios are client
  methods in module `RuleReferenceScenarios` (`rule_reference_test.dfy`). Every assertion
  of those tests is proved from the contracts of the two classes alone.
- **The rule-set snippet builders** (module `RulesetSnippets`, `ruleset_snippets.dfy`):
  the string helpers that tests use to build rule-set XML documents. They build tags,
  attribute lists from insertion-ordered maps, line-joined bodies and the fixed
  `<ruleset>` preamble. Most builders are specified through an inverse: for a wrapper,
  `Unwrap` gives back the text between a fixed prefix and suffix; for a body, `Split`
  undoes `String.join`. The rest are pinned down otherwise: `rulesetRef` by equality with
  `ruleRef`, `propertyDefWithValueAttr` by its exact text, and `dummyRuleDefAttrs` by its
  keys and lookups. Map building is proved to keep insertion order.

Shared helpers are in `strings.dfy` (`Join`, `Split`, `Unwrap`, `Count`) and `wrappers.dfy` (`Option`).

## Model

| member | source | states |
|---|---|---|
| PropertySyntax.Element.constructor | pmd-core/src/main/java/net/sourceforge/pmd/properties/internal/SeqSyntax.java:35 | a created element has the given tag name and no children |
| PropertySyntax.Element.AppendChild | pmd-core/src/main/java/net/sourceforge/pmd/properties/internal/SeqSyntax.java:37 | the new child goes after all existing children, which are kept |
| PropertySyntax.SeqSyntax.ElementName | pmd-core/src/main/java/net/sourceforge/pmd/properties/internal/SeqSyntax.java:26-27 | the sequence syntax is registered under the element name `seq` |
| PropertySyntax.SeqSyntax.EncodeItems | pmd-core/src/main/java/net/sourceforge/pmd/properties/internal/SeqSyntax.java:34-38 | the children `toXml` writes: exactly one per item |
| PropertySyntax.SeqSyntax.DecodeChildren | pmd-core/src/main/java/net/sourceforge/pmd/properties/internal/SeqSyntax.java:45-50 | the items `fromXml` keeps: never more than there are children |
| PropertySyntax.SeqSyntax.RejectedChildren | pmd-core/src/main/java/net/sourceforge/pmd/properties/internal/SeqSyntax.java:45-50 | the children `fromXml` reports: never more than there are children |
| PropertySyntax.SeqSyntax.ToXml | pmd-core/src/main/java/net/sourceforge/pmd/properties/internal/SeqSyntax.java:33-39 | the container's children become its old children followed by one encoded child per item, in item order |
| PropertySyntax.SeqSyntax.EncodeItemsConcat | pmd-core/src/main/java/net/sourceforge/pmd/properties/internal/SeqSyntax.java:34-38 | encoding a concatenation gives the concatenation of the encodings, so item order is kept |
| PropertySyntax.SeqSyntax.EncodeItemsAt | pmd-core/src/main/java/net/sourceforge/pmd/properties/internal/SeqSyntax.java:34-38 | exactly one child is written per item; child i has item i's element name and content |
| PropertySyntax.SeqSyntax.FromXml | pmd-core/src/main/java/net/sourceforge/pmd/properties/internal/SeqSyntax.java:42-52 | the result is the decoded children, in document order; the diagnostics are exactly the children that failed to decode |
| PropertySyntax.SeqSyntax.DecodeChildrenConcat | pmd-core/src/main/java/net/sourceforge/pmd/properties/internal/SeqSyntax.java:45-50 | decoding a concatenation of children concatenates the results |
| PropertySyntax.SeqSyntax.RejectedChildrenConcat | pmd-core/src/main/java/net/sourceforge/pmd/properties/internal/SeqSyntax.java:45-50 | the reported children of a concatenation are the concatenation of the reported children |
| PropertySyntax.SeqSyntax.DecodeChildrenMembership | pmd-core/src/main/java/net/sourceforge/pmd/properties/internal/SeqSyntax.java:45-50 | an item is in the result if and only if some child decodes to it |
| PropertySyntax.SeqSyntax.DecodePartition | pmd-core/src/main/java/net/sourceforge/pmd/properties/internal/SeqSyntax.java:45-50 | every child is either kept or reported, never both: the two counts add up to the number of children |
| PropertySyntax.SeqSyntax.DecodeAllIff | pmd-core/src/main/java/net/sourceforge/pmd/properties/internal/SeqSyntax.java:45-50 | the result is never longer than the children, and is as long if and only if every child decodes |
| PropertySyntax.SeqSyntax.RejectedEmptyIff | pmd-core/src/main/java/net/sourceforge/pmd/properties/internal/SeqSyntax.java:45-50 | nothing is reported if and only if every child decodes |
| PropertySyntax.SeqSyntax.PartialFailure | pmd-core/src/main/java/net/sourceforge/pmd/properties/internal/SeqSyntax.java:46-49 | with a malformed middle child among three, the outer items are kept in order and only the middle child is reported |
| PropertySyntax.SeqSyntax.RoundTrip | pmd-core/src/main/java/net/sourceforge/pmd/properties/internal/SeqSyntax.java:33-52 | if the item codec reads back what it writes, reading what `toXml` wrote gives the original list and reports nothing |
| PropertySyntax.SeqSyntax.WriteThenRead | pmd-core/src/main/java/net/sourceforge/pmd/properties/internal/SeqSyntax.java:33-52 | writing a list into a fresh element and reading it back gives the same list, with no diagnostics |
| PropertySyntax.SeqSyntax.Examples | pmd-core/src/main/java/net/sourceforge/pmd/properties/internal/SeqSyntax.java:55-60 | there is exactly one example; between `<seq>` plus a line break and three spaces, and a line break, three spaces and `...</seq>`, it holds the item examples joined by a line break and four spaces |
| Strings.Join | pmd-core/src/main/java/net/sourceforge/pmd/properties/internal/SeqSyntax.java:57 | `String.join`: no parts give the empty string, one part gives itself, and a join always starts with its first part |
| Strings.JoinLength | pmd-core/src/main/java/net/sourceforge/pmd/properties/internal/SeqSyntax.java:57 | a join is as long as its parts plus one separator between each pair of neighbours |
| Strings.JoinSnoc | pmd-core/src/test/java/net/sourceforge/pmd/RulesetFactoryTestBase.java:126-128 | joining one more part appends a separator and that part |
| Strings.Split | pmd-core/src/test/java/net/sourceforge/pmd/RulesetFactoryTestBase.java:162-164 | splitting always gives at least one piece (the inverse used for `String.join`) |
| Strings.SplitJoin | pmd-core/src/test/java/net/sourceforge/pmd/RulesetFactoryTestBase.java:162-164 | splitting a join at its one-character separator gives back the parts, when no part contains it |
| Strings.UnwrapWrap | pmd-core/src/test/java/net/sourceforge/pmd/RulesetFactoryTestBase.java:198-200 | the text wrapped in a prefix and a suffix is recovered exactly by unwrapping |
| Strings.UnwrapSound | pmd-core/src/test/java/net/sourceforge/pmd/RulesetFactoryTestBase.java:198-200 | a string that unwraps is exactly prefix, unwrapped text and suffix |
| RuleReferences.StoreOverride | pmd-core/src/test/java/net/sourceforge/pmd/RuleReferenceTest.java:189-235 | a slot that is kept holds the written value; the slot stays empty if and only if it was empty and the delegate already has that value |
| RuleReferences.Rule.constructor | pmd-core/src/test/java/net/sourceforge/pmd/RuleReferenceTest.java:35 | a new rule has no language, versions, properties or examples and is not deprecated |
| RuleReferences.Rule.GetProperty | pmd-core/src/test/java/net/sourceforge/pmd/RuleReferenceTest.java:34-40 | an undeclared descriptor is rejected; a declared one reads its stored value, or else its default |
| RuleReferences.Rule.SetLanguage | pmd-core/src/test/java/net/sourceforge/pmd/RuleReferenceTest.java:38 | the language is set once; a different language later fails with `UnsupportedOperationException` and changes nothing |
| RuleReferences.Rule.SetMinimumLanguageVersion | pmd-core/src/test/java/net/sourceforge/pmd/RuleReferenceTest.java:179 | a version of the rule's language is stored; any other is rejected with `IllegalArgumentException` and the bound is kept |
| RuleReferences.Rule.SetMaximumLanguageVersion | pmd-core/src/test/java/net/sourceforge/pmd/RuleReferenceTest.java:180 | a version of the rule's language is stored; any other is rejected with `IllegalArgumentException` and the bound is kept |
| RuleReferences.Rule.SetDeprecated | pmd-core/src/test/java/net/sourceforge/pmd/RuleReferenceTest.java:133 | the deprecation flag becomes the given value |
| RuleReferences.Rule.SetName | pmd-core/src/test/java/net/sourceforge/pmd/RuleReferenceTest.java:39 | the name becomes the given value |
| RuleReferences.Rule.SetMessage | pmd-core/src/test/java/net/sourceforge/pmd/RuleReferenceTest.java:41 | the message becomes the given value |
| RuleReferences.Rule.SetDescription | pmd-core/src/test/java/net/sourceforge/pmd/RuleReferenceTest.java:42 | the description becomes the given value |
| RuleReferences.Rule.AddExample | pmd-core/src/test/java/net/sourceforge/pmd/RuleReferenceTest.java:43 | the example is appended after the existing ones |
| RuleReferences.Rule.SetExternalInfoUrl | pmd-core/src/test/java/net/sourceforge/pmd/RuleReferenceTest.java:44 | the URL becomes the given value |
| RuleReferences.Rule.SetPriority | pmd-core/src/test/java/net/sourceforge/pmd/RuleReferenceTest.java:45 | the priority becomes the given value |
| RuleReferences.Rule.DefinePropertyDescriptor | pmd-core/src/test/java/net/sourceforge/pmd/RuleReferenceTest.java:36 | a descriptor whose name is already taken is rejected; any other is appended; descriptor names stay unique |
| RuleReferences.Rule.SetProperty | pmd-core/src/test/java/net/sourceforge/pmd/RuleReferenceTest.java:40 | a value for an undeclared descriptor is rejected; otherwise it is stored and reads back |
| RuleReferences.RuleReference.constructor | pmd-core/src/test/java/net/sourceforge/pmd/RuleReferenceTest.java:48-49 | a new reference to a delegate has no override in any slot and is consistent with it |
| RuleReferences.RuleReference.Language | pmd-core/src/test/java/net/sourceforge/pmd/RuleReferenceTest.java:75-76 | the language is always the delegate's; a reference has no language slot |
| RuleReferences.RuleReference.MinimumLanguageVersion | pmd-core/src/test/java/net/sourceforge/pmd/RuleReferenceTest.java:123-126 | the override if there is one, else the delegate's lower bound |
| RuleReferences.RuleReference.MaximumLanguageVersion | pmd-core/src/test/java/net/sourceforge/pmd/RuleReferenceTest.java:128-131 | the override if there is one, else the delegate's upper bound |
| RuleReferences.RuleReference.IsDeprecated | pmd-core/src/test/java/net/sourceforge/pmd/RuleReferenceTest.java:133-135 | the override if there is one, else the delegate's flag |
| RuleReferences.RuleReference.Name | pmd-core/src/test/java/net/sourceforge/pmd/RuleReferenceTest.java:137-138 | the override if there is one, else the delegate's name |
| RuleReferences.RuleReference.Message | pmd-core/src/test/java/net/sourceforge/pmd/RuleReferenceTest.java:155-156 | the override if there is one, else the delegate's message |
| RuleReferences.RuleReference.Description | pmd-core/src/test/java/net/sourceforge/pmd/RuleReferenceTest.java:158-159 | the override if there is one, else the delegate's description |
| RuleReferences.RuleReference.Examples | pmd-core/src/test/java/net/sourceforge/pmd/RuleReferenceTest.java:161-164 | the delegate's examples come first, in order, followed by the locally added ones |
| RuleReferences.RuleReference.ExternalInfoUrl | pmd-core/src/test/java/net/sourceforge/pmd/RuleReferenceTest.java:166-167 | the override if there is one, else the delegate's URL |
| RuleReferences.RuleReference.Priority | pmd-core/src/test/java/net/sourceforge/pmd/RuleReferenceTest.java:169-170 | the override if there is one, else the delegate's priority |
| RuleReferences.RuleReference.InheritedProperty | pmd-core/src/test/java/net/sourceforge/pmd/RuleReferenceTest.java:219 | without a local override a property is worth the delegate's stored value, else the descriptor's default |
| RuleReferences.InheritedIsDelegateValue | pmd-core/src/test/java/net/sourceforge/pmd/RuleReferenceTest.java:219 | a delegate-declared property without a local override reads exactly as on the delegate |
| RuleReferences.VersionsInLanguage | pmd-core/src/test/java/net/sourceforge/pmd/RuleReferenceTest.java:77-80 | the effective version bounds of a consistent reference always belong to its language |
| RuleReferences.RuleReference.PropertyDescriptors | pmd-core/src/test/java/net/sourceforge/pmd/RuleReferenceTest.java:142-145 | a descriptor is listed if and only if the delegate or the reference declares it |
| RuleReferences.RuleReference.GetProperty | pmd-core/src/test/java/net/sourceforge/pmd/RuleReferenceTest.java:140-141 | an undeclared descriptor is rejected; otherwise the local override wins over the delegate's value or default |
| RuleReferences.RuleReference.PropertiesByDescriptor | pmd-core/src/test/java/net/sourceforge/pmd/RuleReferenceTest.java:146-149 | the keys are exactly the declared descriptors, each mapped to the value `getProperty` returns |
| RuleReferences.RuleReference.SetRuleSetReference | pmd-core/src/test/java/net/sourceforge/pmd/RuleReferenceTest.java:28-29 | the rule-set reference reads back as set |
| RuleReferences.RuleReference.SetRule | pmd-core/src/test/java/net/sourceforge/pmd/RuleReferenceTest.java:49 | the delegate becomes the given rule, and the reference stays consistent with it |
| RuleReferences.RuleReference.SetLanguage | pmd-core/src/test/java/net/sourceforge/pmd/RuleReferenceTest.java:75-76 | only the delegate's own language is accepted; any other fails with `UnsupportedOperationException`; nothing changes either way |
| RuleReferences.RuleReference.SetMinimumLanguageVersion | pmd-core/src/test/java/net/sourceforge/pmd/RuleReferenceTest.java:79-80 | a version of a foreign language is rejected and the slot is left alone; otherwise the store rule applies and the read returns the version |
| RuleReferences.RuleReference.SetMaximumLanguageVersion | pmd-core/src/test/java/net/sourceforge/pmd/RuleReferenceTest.java:77-78 | a version of a foreign language is rejected and the slot is left alone; otherwise the store rule applies and the read returns the version |
| RuleReferences.RuleReference.SetDeprecated | pmd-core/src/test/java/net/sourceforge/pmd/RuleReferenceTest.java:53 | the slot follows the store rule and `isDeprecated` returns the written value |
| RuleReferences.RuleReference.SetName | pmd-core/src/test/java/net/sourceforge/pmd/RuleReferenceTest.java:54 | the slot follows the store rule and `getName` returns the written value |
| RuleReferences.RuleReference.SetMessage | pmd-core/src/test/java/net/sourceforge/pmd/RuleReferenceTest.java:57 | the slot follows the store rule and `getMessage` returns the written value |
| RuleReferences.RuleReference.SetDescription | pmd-core/src/test/java/net/sourceforge/pmd/RuleReferenceTest.java:58 | the slot follows the store rule and `getDescription` returns the written value |
| RuleReferences.RuleReference.SetExternalInfoUrl | pmd-core/src/test/java/net/sourceforge/pmd/RuleReferenceTest.java:60 | the slot follows the store rule and `getExternalInfoUrl` returns the written value |
| RuleReferences.RuleReference.SetPriority | pmd-core/src/test/java/net/sourceforge/pmd/RuleReferenceTest.java:61 | the slot follows the store rule and `getPriority` returns the written value |
| RuleReferences.RuleReference.AddExample | pmd-core/src/test/java/net/sourceforge/pmd/RuleReferenceTest.java:59 | an example the delegate already has changes nothing; any other is appended to the local examples and to the combined list |
| RuleReferences.RuleReference.DefinePropertyDescriptor | pmd-core/src/test/java/net/sourceforge/pmd/RuleReferenceTest.java:50 | a name already declared by the delegate or the reference is rejected; any other descriptor is added locally, so local names stay unique and apart from the delegate's |
| RuleReferences.RuleReference.SetProperty | pmd-core/src/test/java/net/sourceforge/pmd/RuleReferenceTest.java:55-56 | an undeclared descriptor is rejected; otherwise the store rule applies to the value map and the property reads back as written |
| RuleReferences.RuleReference.Copy | pmd-core/src/test/java/net/sourceforge/pmd/RuleReferenceTest.java:115 | the copy has the same delegate and equal contents in every slot, and is consistent like the original |
| RuleReferences.RuleReference.DeepCopy | pmd-core/src/test/java/net/sourceforge/pmd/RuleReferenceTest.java:115 | a new, consistent reference with the same delegate and every override copied |
| RuleReferenceScenarios.TestRuleSetReference | pmd-core/src/test/java/net/sourceforge/pmd/RuleReferenceTest.java:25-30 | the rule-set reference `somename` set on a reference is the one it reports |
| RuleReferenceScenarios.NewDelegate | pmd-core/src/test/java/net/sourceforge/pmd/RuleReferenceTest.java:35-45 | the override tests' delegate has exactly the configured language, name, property value and metadata |
| RuleReferenceScenarios.DeclareDelegate | pmd-core/src/test/java/net/sourceforge/pmd/RuleReferenceTest.java:36-40 | the delegate gets its descriptor, language, name and property value |
| RuleReferenceScenarios.DescribeDelegate | pmd-core/src/test/java/net/sourceforge/pmd/RuleReferenceTest.java:41-45 | the delegate gets its message, description, example, URL and priority |
| RuleReferenceScenarios.OverrideVersions | pmd-core/src/test/java/net/sourceforge/pmd/RuleReferenceTest.java:50-53 | declaring the second property appends it locally; the version bounds 1.3 and 1.7 and the deprecation flag become overrides |
| RuleReferenceScenarios.OverrideNameAndProperties | pmd-core/src/test/java/net/sourceforge/pmd/RuleReferenceTest.java:54-56 | the name slot and both property values become overrides |
| RuleReferenceScenarios.OverrideMetadata | pmd-core/src/test/java/net/sourceforge/pmd/RuleReferenceTest.java:57-61 | message, description, example, URL and priority become overrides |
| RuleReferenceScenarios.ApplyOverrides | pmd-core/src/test/java/net/sourceforge/pmd/RuleReferenceTest.java:50-61 | the override sequence leaves every slot holding its override |
| RuleReferenceScenarios.OverridesReported | pmd-core/src/test/java/net/sourceforge/pmd/RuleReferenceTest.java:118-171 | with that delegate and those slots, every assertion of `validateOverriddenValues` holds |
| RuleReferenceScenarios.NewOverriddenReference | pmd-core/src/test/java/net/sourceforge/pmd/RuleReferenceTest.java:47-63 | a fresh reference with the overrides applied passes `validateOverriddenValues` |
| RuleReferenceScenarios.TestOverride | pmd-core/src/test/java/net/sourceforge/pmd/RuleReferenceTest.java:33-64 | the overridden reference passes `validateOverriddenValues` |
| RuleReferenceScenarios.TestDeepCopyOverride | pmd-core/src/test/java/net/sourceforge/pmd/RuleReferenceTest.java:84-116 | the deep copy of the overridden reference passes `validateOverriddenValues`; it is a distinct object with the same delegate |
| RuleReferenceScenarios.DeepCopyIndependence | pmd-core/src/test/java/net/sourceforge/pmd/RuleReferenceTest.java:115 | renaming a deep copy leaves the original's name slot and name read unchanged |
| RuleReferenceScenarios.TestLanguageOverrideDisallowed | pmd-core/src/test/java/net/sourceforge/pmd/RuleReferenceTest.java:67-81 | a foreign language fails with `UnsupportedOperationException`; foreign versions fail with `IllegalArgumentException`; language and bounds stay the delegate's |
| RuleReferenceScenarios.NewBoundedDelegate | pmd-core/src/test/java/net/sourceforge/pmd/RuleReferenceTest.java:175-187 | the no-override test's delegate additionally has versions 1.3 and 1.7 as bounds |
| RuleReferenceScenarios.RepeatVersions | pmd-core/src/test/java/net/sourceforge/pmd/RuleReferenceTest.java:191-197 | writing the delegate's own bounds, deprecation, name and property value leaves those slots empty |
| RuleReferenceScenarios.RepeatMetadata | pmd-core/src/test/java/net/sourceforge/pmd/RuleReferenceTest.java:198-202 | writing the delegate's own message, description, example, URL and priority leaves those slots empty |
| RuleReferenceScenarios.TestNotOverride | pmd-core/src/test/java/net/sourceforge/pmd/RuleReferenceTest.java:173-236 | every read reports the delegate's value and every override slot is empty |
| RulesetSnippets.XmlName | pmd-core/src/test/java/net/sourceforge/pmd/RulesetFactoryTestBase.java:127 | every attribute name is a non-empty run of lower-case letters, so it needs no quoting |
| RulesetSnippets.XmlNameInjective | pmd-core/src/test/java/net/sourceforge/pmd/RulesetFactoryTestBase.java:127 | distinct schema constants are written under distinct attribute names |
| RulesetSnippets.Keys | pmd-core/src/test/java/net/sourceforge/pmd/RulesetFactoryTestBase.java:126 | the key list has one key per entry, in entry order |
| RulesetSnippets.Lookup | pmd-core/src/test/java/net/sourceforge/pmd/RulesetFactoryTestBase.java:114-123 | a value found for a key is an entry of the map under that key |
| RulesetSnippets.LookupKeys | pmd-core/src/test/java/net/sourceforge/pmd/RulesetFactoryTestBase.java:114-123 | a key has a value if and only if it is one of the map's keys |
| RulesetSnippets.Put | pmd-core/src/test/java/net/sourceforge/pmd/RulesetFactoryTestBase.java:117-120 | `put` adds at most one entry, and the map then holds the new pair |
| RulesetSnippets.PutLookup | pmd-core/src/test/java/net/sourceforge/pmd/RulesetFactoryTestBase.java:117-120 | after `put`, the key maps to the new value and every other key keeps its value |
| RulesetSnippets.PutKeys | pmd-core/src/test/java/net/sourceforge/pmd/RulesetFactoryTestBase.java:117-120 | `put` keeps the key order; a new key is appended last |
| RulesetSnippets.PutFresh | pmd-core/src/test/java/net/sourceforge/pmd/RulesetFactoryTestBase.java:117-120 | putting a new key appends the entry |
| RulesetSnippets.BuildMap | pmd-core/src/test/java/net/sourceforge/pmd/RulesetFactoryTestBase.java:110-123 | building keeps every initial entry and adds at most one entry per put |
| RulesetSnippets.BuildMapKeepsKeys | pmd-core/src/test/java/net/sourceforge/pmd/RulesetFactoryTestBase.java:110-112 | the initial keys stay first, in their order, whatever the callback puts |
| RulesetSnippets.BuildMapFresh | pmd-core/src/test/java/net/sourceforge/pmd/RulesetFactoryTestBase.java:114-123 | puts of pairwise distinct new keys append in put order |
| RulesetSnippets.DummyRuleDefAttrs | pmd-core/src/test/java/net/sourceforge/pmd/RulesetFactoryTestBase.java:114-123 | the dummy rule's keys are name, language, class and message, in that order, holding the mock rule's four values |
| RulesetSnippets.Render | pmd-core/src/test/java/net/sourceforge/pmd/RulesetFactoryTestBase.java:127 | one attribute is its name, `="`, its value and a closing `"`, so the value is recovered between them |
| RulesetSnippets.RenderAll | pmd-core/src/test/java/net/sourceforge/pmd/RulesetFactoryTestBase.java:126-127 | the stream renders one attribute per entry |
| RulesetSnippets.RenderAllConcat | pmd-core/src/test/java/net/sourceforge/pmd/RulesetFactoryTestBase.java:126-127 | rendering is entry by entry, in order |
| RulesetSnippets.RenderAllFour | pmd-core/src/test/java/net/sourceforge/pmd/RulesetFactoryTestBase.java:126-127 | four entries render in their order |
| RulesetSnippets.Attrs | pmd-core/src/test/java/net/sourceforge/pmd/RulesetFactoryTestBase.java:125-129 | no entries give the empty string; one entry gives `key="value"` |
| RulesetSnippets.AttrsSnoc | pmd-core/src/test/java/net/sourceforge/pmd/RulesetFactoryTestBase.java:125-129 | one more entry adds a space and its `key="value"` at the end |
| RulesetSnippets.Body | pmd-core/src/test/java/net/sourceforge/pmd/RulesetFactoryTestBase.java:162-164 | no lines give the empty string; one line gives that line |
| RulesetSnippets.BodyLines | pmd-core/src/test/java/net/sourceforge/pmd/RulesetFactoryTestBase.java:162-164 | splitting a body at line breaks gives back its lines, when no line contains a break |
| RulesetSnippets.RulesetXml | pmd-core/src/test/java/net/sourceforge/pmd/RulesetFactoryTestBase.java:90-98 | the document is the fixed preamble, the body of the contents and `</ruleset>` with a line break |
| RulesetSnippets.RuleRef | pmd-core/src/test/java/net/sourceforge/pmd/RulesetFactoryTestBase.java:100-102 | the reference text sits between `<rule ref="` and `"/>` plus a line break |
| RulesetSnippets.Rule | pmd-core/src/test/java/net/sourceforge/pmd/RulesetFactoryTestBase.java:104-108 | the body sits between `<rule`, the attributes, `>` plus a line break, and `</rule>` |
| RulesetSnippets.DummyRule | pmd-core/src/test/java/net/sourceforge/pmd/RulesetFactoryTestBase.java:110-112 | a dummy rule is a rule whose attributes are the dummy defaults adjusted by the callback |
| RulesetSnippets.DummyRuleKeys | pmd-core/src/test/java/net/sourceforge/pmd/RulesetFactoryTestBase.java:110-123 | whatever the adjustments, the dummy rule's first four attributes are name, language, class and message |
| RulesetSnippets.RulesetRef | pmd-core/src/test/java/net/sourceforge/pmd/RulesetFactoryTestBase.java:132-134 | a rule-set reference is written exactly like a rule reference with a body |
| RulesetSnippets.RuleRefWithBody | pmd-core/src/test/java/net/sourceforge/pmd/RulesetFactoryTestBase.java:136-140 | the body sits between `<rule ref="ref">` plus a line break and `</rule>` plus a line break |
| RulesetSnippets.ExcludePattern | pmd-core/src/test/java/net/sourceforge/pmd/RulesetFactoryTestBase.java:142-144 | the pattern sits between `<exclude-pattern>` and `</exclude-pattern>` |
| RulesetSnippets.ExcludeRule | pmd-core/src/test/java/net/sourceforge/pmd/RulesetFactoryTestBase.java:146-148 | the element is `<exclude`, the single attribute `name="name"`, and ` />` |
| RulesetSnippets.IncludePattern | pmd-core/src/test/java/net/sourceforge/pmd/RulesetFactoryTestBase.java:150-152 | the pattern sits between `<include-pattern>` and `</include-pattern>` |
| RulesetSnippets.Priority | pmd-core/src/test/java/net/sourceforge/pmd/RulesetFactoryTestBase.java:154-156 | the priority sits between `<priority>` and `</priority>` |
| RulesetSnippets.Description | pmd-core/src/test/java/net/sourceforge/pmd/RulesetFactoryTestBase.java:158-160 | the description sits between `<description>` and `</description>` |
| RulesetSnippets.Properties | pmd-core/src/test/java/net/sourceforge/pmd/RulesetFactoryTestBase.java:166-168 | the body sits between `<properties>` plus a line break and `</properties>` |
| RulesetSnippets.PropertyDefWithValueAttr | pmd-core/src/test/java/net/sourceforge/pmd/RulesetFactoryTestBase.java:174-186 | the element is `<property `, then the attributes name, description, type and value in that order, each as `key="value"` and separated by single spaces, then ` />` |
| RulesetSnippets.PropertyWithValueAttrAsWritten | pmd-core/src/test/java/net/sourceforge/pmd/RulesetFactoryTestBase.java:170-172 | as written: the value sits between `<property name='name' value='` and `/>` plus a line break, with no closing apostrophe |
| RulesetSnippets.PropertyWithValueAttrAsWrittenUnbalanced | pmd-core/src/test/java/net/sourceforge/pmd/RulesetFactoryTestBase.java:170-172 | as written, the snippet has three apostrophes for two attribute values, so the value attribute is never closed |
| RulesetSnippets.PropertyWithValueAttr | pmd-core/src/test/java/net/sourceforge/pmd/RulesetFactoryTestBase.java:170-172 | corrected: the value sits between `<property name='name' value='` and `'/>` plus a line break |
| RulesetSnippets.PropertyWithValueAttrBalanced | pmd-core/src/test/java/net/sourceforge/pmd/RulesetFactoryTestBase.java:170-172 | corrected: the snippet has four apostrophes, so both attribute values are opened and closed |
| RulesetSnippets.Tag | pmd-core/src/test/java/net/sourceforge/pmd/RulesetFactoryTestBase.java:188-192 | the body sits between `<t>` plus a line break and `</t>` |
| RulesetSnippets.EmptyTag | pmd-core/src/test/java/net/sourceforge/pmd/RulesetFactoryTestBase.java:194-196 | the attributes sit between `<t ` and ` />` |
| RulesetSnippets.TagOneLine | pmd-core/src/test/java/net/sourceforge/pmd/RulesetFactoryTestBase.java:198-200 | the text sits between `<t>` and `</t>` |

## Left out

- `RuleReference.java`, `AbstractRule`, `MockRule`, `RuleSetReference`, `PropertyDescriptor` and the language registry are not part of this model. The behaviour of `Rule` and `RuleReference` is taken from what `RuleReferenceTest.java` asserts, together with the documented override design.
- Store rule: a setter other than `AddExample` records an override when the value differs from the delegate's, or when the slot is already overridden. This is the reading under which every assertion of `testOverride` and `testNotOverride` holds. The source of `RuleReference` is not at hand to confirm it.
- Clearing an override by writing `null`, and Java `null` in general: `Option` stands for nullable slots, and plain strings that start empty stand for unset delegate fields.
- A reference whose delegate is itself a reference (reference chains). The delegate is always a plain `Rule`.
- `new RuleReference()` with no delegate before `setRule`. A reference is always built with its delegate. `TestRuleSetReference` therefore takes one.
- Typed property values: all property values are strings, as in the tests; descriptor defaults are strings.
- `RuleReferences.Rule.SetLanguage`, and the other delegate setters: `MockRule` and `AbstractRule` are not part of this model. That a second, different language is refused with `UnsupportedOperationException`, and that a version of a foreign language is refused with `IllegalArgumentException`, are assumptions that mirror the reference's behaviour; the tests only set a delegate's language once.
- `RuleReferences.RuleReference.Valid`: the invariant is kept by the reference's own writes only. A write to the shared delegate after references to it exist (for example, the delegate declaring a descriptor name that a reference already declares locally) can break it, and is not modelled: a delegate is assumed to be fully set up before references are built on it.
- `RuleReferences.RuleReference.SetRule`: rebinding requires the existing overrides to be consistent with the new delegate. What happens to a version override or a local descriptor that clashes with a new delegate is not modelled.
- `RulesetSnippets.DummyRule`: the `Consumer<Map<SchemaConstant, String>>` callback is modelled as a sequence of puts over the seven schema constants the builders use. A callback that removes entries, reads the map, or sets any other schema attribute cannot be expressed.
- `dummyLanguage2()`, `DummyLanguageModule` and `PmdContextualizedTest`'s language lookups: languages are values identified by their terse name. The terse names `dummy` and `dummy2` are assumed.
- `SchemaConstants` and `CollectionUtil.buildMap` are not part of this model. The XML names `name`, `language`, `class`, `message`, `description`, `type` and `value` are assumed. `buildMap` is assumed to return an insertion-ordered map, which is what keeps the attribute order of the snippets.
- The DOM (`Document`, `createElement`, text nodes) is reduced to an `Element` class with a child list and an immutable `XmlNode` value per written child. `XmlUtils.getElementChildren`, `expectElement` and the error reporter are reduced to the item codec's `read` function and a list of rejected children. The wording of the diagnostic messages is not modelled.
- `SeqSyntax` over collections other than lists (sets and other `Collection` suppliers): only the list case is modelled, so duplicates and order are those of a list.
- Mockito, the reporter spies, `setup`, `verify*`, `containing`, `loadRuleSetInDir` and the JUnit rules: these are test plumbing with no behaviour to model.
- `FileSelectorTest` and `PmdContextualizedTest` are context only and are not modelled.
- `RulesetSnippets.RulesetXml`: the preamble is kept exactly as written, including the namespace URI `http:www.w3.org/2001/XMLSchema-instance`, which lacks `//`. The model does not judge whether that URI was intended.
- `RulesetSnippets.PropertyDefWithValueAttr`: the attribute texts are not escaped, so arguments containing `"` give malformed XML. The source does the same.

## Findings

| source | as written | input that shows it | evidently intended | confidence | as-written member | corrected member |
|---|---|---|---|---|---|---|
| pmd-core/src/test/java/net/sourceforge/pmd/RulesetFactoryTestBase.java:170-172 | `propertyWithValueAttr` ends the snippet with `valueAttr + "/>\n"`, so the apostrophe that closes the value attribute is missing | `propertyWithValueAttr("p", "v")` gives `<property name='p' value='v/>` and a line break: three apostrophes, so the value attribute runs on | `... value='v'/>` and a line break, with both attribute values quoted | medium, not executed | RulesetSnippets.PropertyWithValueAttrAsWrittenUnbalanced | RulesetSnippets.PropertyWithValueAttrBalanced |
