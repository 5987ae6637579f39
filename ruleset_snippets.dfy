/** Builders for snippets of rule-set XML documents, as used by the rule-set
    loading tests: element and attribute shapes, bodies joined line by line,
    and the fixed rule-set preamble. */
module RulesetSnippets {
  import opened Wrappers
  import opened Strings

  /** The schema attributes the builders write. */
  datatype SchemaConstant =
    | NameAttribute | LanguageAttribute | ClassAttribute | MessageAttribute
    | DescriptionAttribute | TypeAttribute | ValueAttribute

  /** The attribute name the rule-set schema uses for each constant. */
  function XmlName(c: SchemaConstant): (r: string)
    ensures r != []
    ensures forall i :: 0 <= i < |r| ==> 'a' <= r[i] <= 'z'
  {
    match c
    case NameAttribute => "name"
    case LanguageAttribute => "language"
    case ClassAttribute => "class"
    case MessageAttribute => "message"
    case DescriptionAttribute => "description"
    case TypeAttribute => "type"
    case ValueAttribute => "value"
  }

  /** Distinct constants have distinct attribute names. */
  lemma XmlNameInjective(a: SchemaConstant, b: SchemaConstant)
    requires a != b
    ensures XmlName(a) != XmlName(b)
  {
  }

  /** An insertion-ordered map from schema constants to attribute values. */
  type AttrMap = seq<(SchemaConstant, string)>

  function Keys(m: AttrMap): (ks: seq<SchemaConstant>)
    ensures |ks| == |m|
    ensures forall i :: 0 <= i < |m| ==> ks[i] == m[i].0
  {
    if m == [] then [] else [m[0].0] + Keys(m[1..])
  }

  /** The value stored under `k`, if any. */
  function Lookup(m: AttrMap, k: SchemaConstant): (r: Option<string>)
    ensures r.Some? ==> (k, r.value) in m
  {
    if m == [] then None else if m[0].0 == k then Some(m[0].1) else Lookup(m[1..], k)
  }

  /** A key has a value exactly when it is one of the map's keys. */
  lemma {:induction false} LookupKeys(m: AttrMap, k: SchemaConstant)
    ensures Lookup(m, k).Some? <==> k in Keys(m)
  {
    if m != [] {
      assert Keys(m) == [m[0].0] + Keys(m[1..]);
      LookupKeys(m[1..], k);
    }
  }

  predicate DistinctKeys(m: AttrMap)
  {
    forall i, j :: 0 <= i < j < |m| ==> m[i].0 != m[j].0
  }

  /** `Map.put` on an insertion-ordered map: an existing key keeps its position
      and gets the new value; a new key goes last. */
  function Put(m: AttrMap, k: SchemaConstant, v: string): (r: AttrMap)
    ensures |m| <= |r| <= |m| + 1
    ensures (k, v) in r
  {
    if m == [] then [(k, v)]
    else if m[0].0 == k then [(k, v)] + m[1..]
    else [m[0]] + Put(m[1..], k, v)
  }

  /** After a put, the key maps to the new value and every other key is unaffected. */
  lemma {:induction false} PutLookup(m: AttrMap, k: SchemaConstant, v: string, k': SchemaConstant)
    ensures Lookup(Put(m, k, v), k') == if k' == k then Some(v) else Lookup(m, k')
  {
    if m != [] && m[0].0 != k {
      PutLookup(m[1..], k, v, k');
    }
  }

  /** A put keeps the key order; a new key is appended. */
  lemma {:induction false} PutKeys(m: AttrMap, k: SchemaConstant, v: string)
    ensures Keys(Put(m, k, v)) == if k in Keys(m) then Keys(m) else Keys(m) + [k]
  {
    if m != [] {
      assert Keys(m) == [m[0].0] + Keys(m[1..]);
      if m[0].0 != k {
        PutKeys(m[1..], k, v);
        assert Keys(Put(m, k, v)) == [m[0].0] + Keys(Put(m[1..], k, v));
      }
    }
  }

  /** The map a builder callback produces: the puts applied to `initial` in order. */
  function BuildMap(initial: AttrMap, puts: AttrMap): (r: AttrMap)
    ensures |initial| <= |r| <= |initial| + |puts|
    decreases |puts|
  {
    if puts == [] then initial else BuildMap(Put(initial, puts[0].0, puts[0].1), puts[1..])
  }

  /** The keys of the initial map stay first, and in their order, whatever is put. */
  lemma {:induction false} BuildMapKeepsKeys(initial: AttrMap, puts: AttrMap)
    ensures |Keys(initial)| <= |Keys(BuildMap(initial, puts))|
    ensures Keys(BuildMap(initial, puts))[..|Keys(initial)|] == Keys(initial)
    decreases |puts|
  {
    if puts != [] {
      var next := Put(initial, puts[0].0, puts[0].1);
      PutKeys(initial, puts[0].0, puts[0].1);
      BuildMapKeepsKeys(next, puts[1..]);
      assert Keys(next)[..|Keys(initial)|] == Keys(initial);
    }
  }

  /** Putting a key the map does not have appends it. */
  lemma {:induction false} PutFresh(m: AttrMap, k: SchemaConstant, v: string)
    requires k !in Keys(m)
    ensures Put(m, k, v) == m + [(k, v)]
  {
    if m != [] {
      assert Keys(m) == [m[0].0] + Keys(m[1..]);
      assert k != m[0].0 && k !in Keys(m[1..]);
      assert Put(m, k, v) == [m[0]] + Put(m[1..], k, v);
      PutFresh(m[1..], k, v);
      assert [m[0]] + (m[1..] + [(k, v)]) == m + [(k, v)];
    }
  }

  /** Under distinct keys, the first put's key is not among the initial keys. */
  lemma FirstPutFresh(initial: AttrMap, puts: AttrMap)
    requires puts != [] && DistinctKeys(initial + puts)
    ensures puts[0].0 !in Keys(initial)
  {
    var m := initial + puts;
    forall i | 0 <= i < |initial| ensures Keys(initial)[i] != puts[0].0 {
      assert m[i] == initial[i] && m[|initial|] == puts[0];
    }
  }

  lemma MoveFirst(a: AttrMap, b: AttrMap)
    requires b != []
    ensures (a + [b[0]]) + b[1..] == a + b
  {
    assert b == [b[0]] + b[1..];
  }

  /** Puts of keys that are new and pairwise distinct simply append, in order. */
  lemma {:induction false} BuildMapFresh(initial: AttrMap, puts: AttrMap)
    requires DistinctKeys(initial + puts)
    ensures BuildMap(initial, puts) == initial + puts
    decreases |puts|
  {
    if puts != [] {
      FirstPutFresh(initial, puts);
      PutFresh(initial, puts[0].0, puts[0].1);
      var next := initial + [puts[0]];
      MoveFirst(initial, puts);
      BuildMapFresh(next, puts[1..]);
    }
  }

  /** Distinct puts into an empty map give the puts themselves. */
  lemma BuildMapFreshEmpty(puts: AttrMap)
    requires DistinctKeys(puts)
    ensures BuildMap([], puts) == puts
  {
    assert [] + puts == puts;
    BuildMapFresh([], puts);
  }

  /** The puts that build the dummy rule definition's attributes. */
  const DummyRuleDefPuts: AttrMap := [
    (NameAttribute, "MockRuleName"),
    (LanguageAttribute, "dummy"),
    (ClassAttribute, "net.sourceforge.pmd.lang.rule.MockRule"),
    (MessageAttribute, "avoid the mock rule")]

  lemma DummyRuleDefPutsDistinct()
    ensures DistinctKeys(DummyRuleDefPuts)
  {
    var m := DummyRuleDefPuts;
    assert m[0].0 == NameAttribute && m[1].0 == LanguageAttribute;
    assert m[2].0 == ClassAttribute && m[3].0 == MessageAttribute;
  }

  lemma DummyRuleDefPutsKeys()
    ensures Keys(DummyRuleDefPuts) == [NameAttribute, LanguageAttribute, ClassAttribute, MessageAttribute]
  {
    assert DummyRuleDefPuts[1..][1..][1..][1..] == [];
  }

  lemma DummyRuleDefPutsFacts()
    ensures Lookup(DummyRuleDefPuts, NameAttribute) == Some("MockRuleName")
    ensures Lookup(DummyRuleDefPuts, LanguageAttribute) == Some("dummy")
    ensures Lookup(DummyRuleDefPuts, ClassAttribute) == Some("net.sourceforge.pmd.lang.rule.MockRule")
    ensures Lookup(DummyRuleDefPuts, MessageAttribute) == Some("avoid the mock rule")
  {
    var m := DummyRuleDefPuts;
    assert m[1..] == [m[1], m[2], m[3]] && m[1..][1..] == [m[2], m[3]] && m[1..][1..][1..] == [m[3]];
  }

  /** The attributes of the dummy rule definition. */
  function DummyRuleDefAttrs(): (r: AttrMap)
    ensures Keys(r) == [NameAttribute, LanguageAttribute, ClassAttribute, MessageAttribute]
    ensures Lookup(r, NameAttribute) == Some("MockRuleName")
    ensures Lookup(r, LanguageAttribute) == Some("dummy")
    ensures Lookup(r, ClassAttribute) == Some("net.sourceforge.pmd.lang.rule.MockRule")
    ensures Lookup(r, MessageAttribute) == Some("avoid the mock rule")
  {
    DummyRuleDefPutsDistinct();
    DummyRuleDefPutsKeys();
    DummyRuleDefPutsFacts();
    BuildMapFreshEmpty(DummyRuleDefPuts);
    BuildMap([], DummyRuleDefPuts)
  }

  /** One attribute: `key="value"`. */
  function Render(entry: (SchemaConstant, string)): (r: string)
    ensures Unwrap(r, XmlName(entry.0) + "=\"", "\"") == Some(entry.1)
  {
    UnwrapWrap(XmlName(entry.0) + "=\"", entry.1, "\"");
    XmlName(entry.0) + "=\"" + entry.1 + "\""
  }

  function RenderAll(m: AttrMap): (r: seq<string>)
    ensures |r| == |m|
  {
    if m == [] then [] else [Render(m[0])] + RenderAll(m[1..])
  }

  lemma {:induction false} RenderAllConcat(a: AttrMap, b: AttrMap)
    ensures RenderAll(a + b) == RenderAll(a) + RenderAll(b)
  {
    if a == [] {
      assert a + b == b;
    } else {
      assert (a + b)[1..] == a[1..] + b;
      RenderAllConcat(a[1..], b);
    }
  }

  /** The attributes of `m` in entry order, separated by single spaces. */
  function Attrs(m: AttrMap): (r: string)
    ensures m == [] ==> r == ""
    ensures |m| == 1 ==> r == Render(m[0])
  {
    Join(" ", RenderAll(m))
  }

  /** A further entry adds one space and its rendering at the end. */
  lemma AttrsSnoc(m: AttrMap, entry: (SchemaConstant, string))
    requires m != []
    ensures Attrs(m + [entry]) == Attrs(m) + " " + Render(entry)
  {
    RenderAllConcat(m, [entry]);
    assert RenderAll([entry]) == [Render(entry)];
    JoinSnoc(" ", RenderAll(m), Render(entry));
  }

  /** Lines joined by line breaks, without a trailing break. */
  function Body(lines: seq<string>): (r: string)
    ensures lines == [] ==> r == ""
    ensures |lines| == 1 ==> r == lines[0]
  {
    Join("\n", lines)
  }

  /** Cutting a body at its line breaks gives back its lines. */
  lemma BodyLines(lines: seq<string>)
    requires lines != []
    requires forall i :: 0 <= i < |lines| ==> '\n' !in lines[i]
    ensures Split(Body(lines), '\n') == lines
  {
    assert "\n" == ['\n'];
    SplitJoin(lines, '\n');
  }

  const XmlDeclaration: string := "<?xml version=\"1.0\" encoding=\"UTF-8\"?>"

  /** Everything a rule-set document has before its contents. */
  const RulesetPreamble: string :=
    XmlDeclaration + "\n" + "\n"
    + "<ruleset name=\"Custom ruleset\" xmlns=\"http://pmd.sourceforge.net/ruleset/2.0.0\"\n"
    + "    xmlns:xsi=\"http:www.w3.org/2001/XMLSchema-instance\"\n"
    + "    xsi:schemaLocation=\"http://pmd.sourceforge.net/ruleset/2.0.0 https://pmd.sourceforge.io/ruleset_2_0_0.xsd\">\n"
    + "    <description>Ruleset which references a empty ruleset</description>\n" + "\n"

  /** A whole rule-set document around `contents`. */
  function RulesetXml(contents: seq<string>): (r: string)
    ensures Unwrap(r, RulesetPreamble, "</ruleset>\n") == Some(Body(contents))
  {
    var body := Body(contents);
    UnwrapWrap(RulesetPreamble, body, "</ruleset>\n");
    RulesetPreamble + body + "</ruleset>\n"
  }

  /** A reference with no body: `<rule ref="ref"/>` and a line break. */
  function RuleRef(ref: string): (r: string)
    ensures Unwrap(r, "<rule ref=\"", "\"/>\n") == Some(ref)
  {
    UnwrapWrap("<rule ref=\"", ref, "\"/>\n");
    "<rule ref=\"" + ref + "\"/>\n"
  }

  /** A reference whose body overrides parts of the referenced rule. */
  function RuleRefWithBody(ref: string, body: seq<string>): (r: string)
    ensures Unwrap(r, "<rule ref=\"" + ref + "\">\n", "</rule>\n") == Some(Body(body))
  {
    var open := "<rule ref=\"" + ref + "\">\n";
    UnwrapWrap(open, Body(body), "</rule>\n");
    open + Body(body) + "</rule>\n"
  }

  /** A rule-set reference is written exactly like a rule reference. */
  function RulesetRef(ref: string, body: seq<string>): (r: string)
    ensures r == RuleRefWithBody(ref, body)
  {
    RuleRefWithBody(ref, body)
  }

  /** A rule defined in place, with its attributes and body. */
  function Rule(attrs: AttrMap, body: seq<string>): (r: string)
    ensures Unwrap(r, "<rule " + Attrs(attrs) + ">\n", "</rule>") == Some(Body(body))
  {
    var open := "<rule " + Attrs(attrs) + ">\n";
    UnwrapWrap(open, Body(body), "</rule>");
    open + Body(body) + "</rule>"
  }

  /** The dummy rule definition, after `puts` adjusted its attributes. */
  function DummyRule(puts: AttrMap, body: seq<string>): (r: string)
    ensures Unwrap(r, "<rule " + Attrs(BuildMap(DummyRuleDefAttrs(), puts)) + ">\n", "</rule>") == Some(Body(body))
  {
    Rule(BuildMap(DummyRuleDefAttrs(), puts), body)
  }

  /** Whatever the adjustments, the dummy rule's attributes start with the four
      default keys, in their order. */
  lemma DummyRuleKeys(puts: AttrMap)
    ensures |Keys(BuildMap(DummyRuleDefAttrs(), puts))| >= 4 &&
            Keys(BuildMap(DummyRuleDefAttrs(), puts))[..4] ==
            [NameAttribute, LanguageAttribute, ClassAttribute, MessageAttribute]
  {
    BuildMapKeepsKeys(DummyRuleDefAttrs(), puts);
  }

  /** `<t>` and a line break, the body, then `</t>`. */
  function Tag(tagName: string, body: seq<string>): (r: string)
    ensures Unwrap(r, "<" + tagName + ">\n", "</" + tagName + ">") == Some(Body(body))
  {
    var open, close := "<" + tagName + ">\n", "</" + tagName + ">";
    UnwrapWrap(open, Body(body), close);
    open + Body(body) + close
  }

  /** A self-closing element with attributes: `<t attrs />`. */
  function EmptyTag(tagName: string, attrs: AttrMap): (r: string)
    ensures Unwrap(r, "<" + tagName + " ", " />") == Some(Attrs(attrs))
  {
    var open := "<" + tagName + " ";
    UnwrapWrap(open, Attrs(attrs), " />");
    open + Attrs(attrs) + " />"
  }

  /** `<t>text</t>` on one line. */
  function TagOneLine(tagName: string, text: string): (r: string)
    ensures Unwrap(r, "<" + tagName + ">", "</" + tagName + ">") == Some(text)
  {
    var open, close := "<" + tagName + ">", "</" + tagName + ">";
    UnwrapWrap(open, text, close);
    open + text + close
  }

  function ExcludePattern(pattern: string): (r: string)
    ensures Unwrap(r, "<exclude-pattern>", "</exclude-pattern>") == Some(pattern)
  {
    TagOneLine("exclude-pattern", pattern)
  }

  function IncludePattern(pattern: string): (r: string)
    ensures Unwrap(r, "<include-pattern>", "</include-pattern>") == Some(pattern)
  {
    TagOneLine("include-pattern", pattern)
  }

  function Priority(prio: string): (r: string)
    ensures Unwrap(r, "<priority>", "</priority>") == Some(prio)
  {
    TagOneLine("priority", prio)
  }

  function Description(description: string): (r: string)
    ensures Unwrap(r, "<description>", "</description>") == Some(description)
  {
    assert "<" + "description" + ">" == "<description>";
    assert "</" + "description" + ">" == "</description>";
    TagOneLine("description", description)
  }

  /** Excluding one rule of a referenced rule-set: `<exclude name="name" />`. */
  function ExcludeRule(name: string): (r: string)
    ensures Unwrap(r, "<exclude ", " />") == Some("name=\"" + name + "\"")
  {
    var attrs := BuildMap([], [(NameAttribute, name)]);
    BuildMapFreshEmpty([(NameAttribute, name)]);
    assert XmlName(NameAttribute) + "=\"" == "name=\"";
    assert "<" + "exclude" + " " == "<exclude ";
    EmptyTag("exclude", attrs)
  }

  function Properties(body: seq<string>): (r: string)
    ensures Unwrap(r, "<properties>\n", "</properties>") == Some(Body(body))
  {
    assert "<" + "properties" + ">\n" == "<properties>\n";
    assert "</" + "properties" + ">" == "</properties>";
    Tag("properties", body)
  }

  /** The puts of a property definition, in declaration order. */
  function PropertyDefPuts(name: string, description: string, propertyType: string, valueAttr: string): (m: AttrMap)
    ensures Keys(m) == [NameAttribute, DescriptionAttribute, TypeAttribute, ValueAttribute]
  {
    [(NameAttribute, name), (DescriptionAttribute, description),
     (TypeAttribute, propertyType), (ValueAttribute, valueAttr)]
  }

  /** A map keyed by the four property attributes has distinct keys. */
  lemma PropertyKeysDistinct(m: AttrMap)
    requires Keys(m) == [NameAttribute, DescriptionAttribute, TypeAttribute, ValueAttribute]
    ensures DistinctKeys(m)
  {
    assert m[0].0 == NameAttribute && m[1].0 == DescriptionAttribute;
    assert m[2].0 == TypeAttribute && m[3].0 == ValueAttribute;
  }

  /** Four entries render one after the other. */
  lemma RenderAllFour(a: (SchemaConstant, string), b: (SchemaConstant, string),
                      c: (SchemaConstant, string), d: (SchemaConstant, string))
    ensures RenderAll([a, b, c, d]) == [Render(a), Render(b), Render(c), Render(d)]
  {
    var m := [a, b, c, d];
    assert m[1..] == [b, c, d] && m[1..][1..] == [c, d] && m[1..][1..][1..] == [d];
    assert [d][1..] == [];
    calc {
      RenderAll(m);
      [Render(a)] + RenderAll([b, c, d]);
      [Render(a)] + ([Render(b)] + RenderAll([c, d]));
      [Render(a)] + ([Render(b)] + ([Render(c)] + RenderAll([d])));
    }
  }

  /** The four property attributes render as `key="value"` pairs, in order. */
  lemma PropertyDefRendered(name: string, description: string, propertyType: string, valueAttr: string)
    ensures RenderAll(PropertyDefPuts(name, description, propertyType, valueAttr))
            == ["name=\"" + name + "\"", "description=\"" + description + "\"",
                "type=\"" + propertyType + "\"", "value=\"" + valueAttr + "\""]
  {
    RenderAllFour((NameAttribute, name), (DescriptionAttribute, description),
                  (TypeAttribute, propertyType), (ValueAttribute, valueAttr));
    assert XmlName(NameAttribute) + "=\"" == "name=\"";
    assert XmlName(DescriptionAttribute) + "=\"" == "description=\"";
    assert XmlName(TypeAttribute) + "=\"" == "type=\"";
    assert XmlName(ValueAttribute) + "=\"" == "value=\"";
  }

  /** The four property attributes, built from no defaults, read as four pairs. */
  lemma PropertyDefAttrs(name: string, description: string, propertyType: string, valueAttr: string)
    ensures Attrs(BuildMap([], PropertyDefPuts(name, description, propertyType, valueAttr)))
            == Join(" ", ["name=\"" + name + "\"", "description=\"" + description + "\"",
                          "type=\"" + propertyType + "\"", "value=\"" + valueAttr + "\""])
  {
    var puts := PropertyDefPuts(name, description, propertyType, valueAttr);
    PropertyKeysDistinct(puts);
    BuildMapFreshEmpty(puts);
    PropertyDefRendered(name, description, propertyType, valueAttr);
  }

  /** A property definition with all four attributes, in declaration order. */
  function PropertyDefWithValueAttr(name: string, description: string, propertyType: string, valueAttr: string): (r: string)
    ensures r == "<property " + Join(" ", [
              "name=\"" + name + "\"", "description=\"" + description + "\"",
              "type=\"" + propertyType + "\"", "value=\"" + valueAttr + "\""]) + " />"
  {
    var attrs := BuildMap([], PropertyDefPuts(name, description, propertyType, valueAttr));
    var r := EmptyTag("property", attrs);
    UnwrapSound(r, "<property ", " />");
    PropertyDefAttrs(name, description, propertyType, valueAttr);
    r
  }

  /** A property with a value attribute, as the test helper writes it: the closing
      quote of the value attribute is missing. */
  function PropertyWithValueAttrAsWritten(name: string, valueAttr: string): (r: string)
    ensures Unwrap(r, "<property name='" + name + "' value='", "/>\n") == Some(valueAttr)
  {
    UnwrapWrap("<property name='" + name + "' value='", valueAttr, "/>\n");
    "<property name='" + name + "' value='" + valueAttr + "/>\n"
  }

  /** With quote-free arguments the as-written snippet has three apostrophes, so
      its value attribute is never closed and the element is not well-formed. */
  lemma PropertyWithValueAttrAsWrittenUnbalanced(name: string, valueAttr: string)
    requires '\'' !in name && '\'' !in valueAttr
    ensures Count(PropertyWithValueAttrAsWritten(name, valueAttr), '\'') == 3
  {
    SnippetQuotes(name, valueAttr, "/>\n");
    CountAbsent("/>\n", '\'');
  }

  /** A property with a value attribute, both attributes quoted. */
  function PropertyWithValueAttr(name: string, valueAttr: string): (r: string)
    ensures Unwrap(r, "<property name='" + name + "' value='", "'/>\n") == Some(valueAttr)
  {
    var open := "<property name='" + name + "' value='";
    UnwrapWrap(open, valueAttr, "'/>\n");
    open + valueAttr + "'/>\n"
  }

  /** With quote-free arguments the corrected snippet has four apostrophes: both
      attribute values are opened and closed. */
  lemma PropertyWithValueAttrBalanced(name: string, valueAttr: string)
    requires '\'' !in name && '\'' !in valueAttr
    ensures Count(PropertyWithValueAttr(name, valueAttr), '\'') == 4
  {
    SnippetQuotes(name, valueAttr, "'/>\n");
    assert "'/>\n" == "'" + "/>\n";
    CountConcat("'", "/>\n", '\'');
    CountOne('\'');
    CountAbsent("/>\n", '\'');
  }

  /** The head of a property snippet holds exactly three apostrophes. */
  lemma SnippetQuotes(name: string, valueAttr: string, tail: string)
    requires '\'' !in name && '\'' !in valueAttr
    ensures Count("<property name='" + name + "' value='" + valueAttr + tail, '\'')
            == 3 + Count(tail, '\'')
  {
    assert "<property name='" == "<property name=" + "'";
    assert "' value='" == "'" + " value=" + "'";
    QuotePieces("<property name=", name, " value=", valueAttr, tail);
  }

  /** Three single apostrophes around quote-free pieces. */
  lemma QuotePieces(p1: string, name: string, p2: string, valueAttr: string, tail: string)
    requires '\'' !in p1 && '\'' !in p2 && '\'' !in name && '\'' !in valueAttr
    ensures Count(p1 + "'" + name + ("'" + p2 + "'") + valueAttr + tail, '\'')
            == 3 + Count(tail, '\'')
  {
    var q := "'";
    CountOne('\'');
    CountAbsent(p1, '\'');
    CountAbsent(p2, '\'');
    CountAbsent(name, '\'');
    CountAbsent(valueAttr, '\'');
    CountConcat(p1, q, '\'');
    CountConcat(p1 + q, name, '\'');
    CountConcat(q, p2, '\'');
    CountConcat(q + p2, q, '\'');
    CountConcat(p1 + q + name, q + p2 + q, '\'');
    CountConcat(p1 + q + name + (q + p2 + q), valueAttr, '\'');
    CountConcat(p1 + q + name + (q + p2 + q) + valueAttr, tail, '\'');
  }

  lemma CountOne(c: char)
    ensures Count([c], c) == 1
  {
    assert [c][1..] == [];
  }
}
