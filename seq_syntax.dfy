/** The sequence serialiser of the typed property system: a list-valued property
    is written as one child element per item, each child named and filled by the
    item's own syntax, and read back child by child so that one malformed item is
    skipped instead of failing the whole list. */
module PropertySyntax {
  import opened Wrappers
  import opened Strings

  /** An XML element as a value: its tag name and what was written inside it. */
  datatype XmlNode = XmlNode(name: string, content: XmlContent)

  /** The inside of an element: text and child elements, in document order. */
  datatype XmlContent = XmlContent(text: string, children: seq<XmlNode>)

  /** A DOM element that serialisers write into; only its element children are modelled. */
  class Element {
    var tagName: string
    var children: seq<XmlNode>

    constructor (tagName: string)
      ensures this.tagName == tagName && children == []
    {
      this.tagName := tagName;
      children := [];
    }

    /** `appendChild`: the new child goes after the existing ones. */
    method AppendChild(child: XmlNode)
      modifies this`children
      ensures children == old(children) + [child]
    {
      children := children + [child];
    }
  }

  /** The item-level syntax a sequence syntax delegates to, as an abstract codec.
      `read` is the item check followed by the item's own decoding: it yields
      `None` exactly when decoding the child reports an error. */
  datatype ItemSyntax<!T> = ItemSyntax(
    writeElementName: T -> string,
    write: T -> XmlContent,
    read: XmlNode -> Option<T>,
    examples: seq<string>)
  {
    /** The child element written for one item. */
    function Encode(v: T): XmlNode
    {
      XmlNode(writeElementName(v), write(v))
    }

    /** The codec reads back each of the given items from the child it writes for it. */
    ghost predicate RoundTripsOn(value: seq<T>)
    {
      forall i :: 0 <= i < |value| ==> read(Encode(value[i])) == Some(value[i])
    }
  }

  /** `SeqSyntax` over a list collection: the empty-collection supplier is the empty list. */
  datatype SeqSyntax<!T> = SeqSyntax(itemSyntax: ItemSyntax<T>)
  {
    /** The fixed element name passed to the base syntax on construction. */
    function ElementName(): (r: string)
      ensures r == "seq"
    {
      "seq"
    }

    /** The children `toXml` appends for `value`: one per item, in order. */
    function EncodeItems(value: seq<T>): (r: seq<XmlNode>)
      ensures |r| == |value|
    {
      if value == [] then [] else [itemSyntax.Encode(value[0])] + EncodeItems(value[1..])
    }

    /** The items `fromXml` keeps: the children that decode, in document order. */
    function DecodeChildren(children: seq<XmlNode>): (r: seq<T>)
      ensures |r| <= |children|
    {
      if children == [] then []
      else
        match itemSyntax.read(children[0])
        case Some(v) => [v] + DecodeChildren(children[1..])
        case None => DecodeChildren(children[1..])
    }

    /** The children `fromXml` reports and skips, in document order. */
    function RejectedChildren(children: seq<XmlNode>): (r: seq<XmlNode>)
      ensures |r| <= |children|
    {
      if children == [] then []
      else if itemSyntax.read(children[0]).None? then [children[0]] + RejectedChildren(children[1..])
      else RejectedChildren(children[1..])
    }

    /** `toXml`: appends one child per item after the container's existing children. */
    method ToXml(container: Element, value: seq<T>)
      modifies container`children
      ensures container.children == old(container.children) + EncodeItems(value)
    {
      var i := 0;
      while i < |value|
        invariant 0 <= i <= |value|
        invariant container.children == old(container.children) + EncodeItems(value[..i])
      {
        var item := XmlNode(itemSyntax.writeElementName(value[i]), itemSyntax.write(value[i]));
        EncodeItemsConcat(value[..i], [value[i]]);
        assert value[..i + 1] == value[..i] + [value[i]];
        container.AppendChild(item);
        i := i + 1;
      }
      assert value[..i] == value;
    }

    /** `fromXml`: starts from the empty list and adds every child that decodes;
        each child that does not is returned as one diagnostic. */
    method FromXml(element: Element) returns (result: seq<T>, errors: seq<XmlNode>)
      ensures result == DecodeChildren(element.children)
      ensures errors == RejectedChildren(element.children)
    {
      result, errors := [], [];
      var children := element.children;
      var i := 0;
      while i < |children|
        invariant 0 <= i <= |children|
        invariant result == DecodeChildren(children[..i])
        invariant errors == RejectedChildren(children[..i])
      {
        var child := children[i];
        DecodeChildrenConcat(children[..i], [child]);
        RejectedChildrenConcat(children[..i], [child]);
        assert children[..i + 1] == children[..i] + [child];
        var item := itemSyntax.read(child);
        if item.Some? {
          result := result + [item.value];
        } else {
          errors := errors + [child];
        }
        i := i + 1;
      }
      assert children[..i] == children;
    }

    /** `examples`: a single snippet showing the item examples inside `<seq>`. */
    function Examples(): (r: seq<string>)
      ensures |r| == 1
      ensures Unwrap(r[0], "<seq>\n   ", "\n   ...</seq>") == Some(Join("\n    ", itemSyntax.examples))
    {
      var joined := Join("\n    ", itemSyntax.examples);
      var snippet := "<seq>\n" + "   " + joined + "\n" + "   ..." + "</seq>";
      assert snippet == "<seq>\n   " + joined + "\n   ...</seq>";
      UnwrapWrap("<seq>\n   ", joined, "\n   ...</seq>");
      [snippet]
    }

    lemma {:induction false} EncodeItemsConcat(a: seq<T>, b: seq<T>)
      ensures EncodeItems(a + b) == EncodeItems(a) + EncodeItems(b)
    {
      if a == [] {
        assert a + b == b;
      } else {
        assert (a + b)[1..] == a[1..] + b;
        EncodeItemsConcat(a[1..], b);
      }
    }

    /** `toXml` writes exactly one child per item, and the i-th child is item i's. */
    lemma {:induction false} EncodeItemsAt(value: seq<T>, i: nat)
      requires i < |value|
      ensures |EncodeItems(value)| == |value|
      ensures EncodeItems(value)[i].name == itemSyntax.writeElementName(value[i])
      ensures EncodeItems(value)[i].content == itemSyntax.write(value[i])
    {
      if i > 0 {
        EncodeItemsAt(value[1..], i - 1);
      } else if |value| > 1 {
        EncodeItemsAt(value[1..], 0);
      }
    }

    /** Decoding distributes over concatenation: document order is preserved. */
    lemma {:induction false} DecodeChildrenConcat(a: seq<XmlNode>, b: seq<XmlNode>)
      ensures DecodeChildren(a + b) == DecodeChildren(a) + DecodeChildren(b)
    {
      if a == [] {
        assert a + b == b;
      } else {
        assert (a + b)[1..] == a[1..] + b;
        DecodeChildrenConcat(a[1..], b);
      }
    }

    lemma {:induction false} RejectedChildrenConcat(a: seq<XmlNode>, b: seq<XmlNode>)
      ensures RejectedChildren(a + b) == RejectedChildren(a) + RejectedChildren(b)
    {
      if a == [] {
        assert a + b == b;
      } else {
        assert (a + b)[1..] == a[1..] + b;
        RejectedChildrenConcat(a[1..], b);
      }
    }

    /** An item is in the result exactly when some child decodes to it. */
    lemma {:induction false} DecodeChildrenMembership(children: seq<XmlNode>, v: T)
      ensures v in DecodeChildren(children) <==>
              exists i :: 0 <= i < |children| && itemSyntax.read(children[i]) == Some(v)
    {
      if children != [] {
        DecodeChildrenMembership(children[1..], v);
        if exists i :: 0 <= i < |children[1..]| && itemSyntax.read(children[1..][i]) == Some(v) {
          var i :| 0 <= i < |children[1..]| && itemSyntax.read(children[1..][i]) == Some(v);
          assert itemSyntax.read(children[i + 1]) == Some(v);
        }
        if exists i :: 0 <= i < |children| && itemSyntax.read(children[i]) == Some(v) {
          var i :| 0 <= i < |children| && itemSyntax.read(children[i]) == Some(v);
          if i > 0 {
            assert itemSyntax.read(children[1..][i - 1]) == Some(v);
          }
        }
      }
    }

    /** Every child is either kept (decoded) or reported, never both and never neither. */
    lemma {:induction false} DecodePartition(children: seq<XmlNode>)
      ensures |DecodeChildren(children)| + |RejectedChildren(children)| == |children|
    {
      if children != [] {
        DecodePartition(children[1..]);
      }
    }

    /** The result has as many items as there are children exactly when every child decodes. */
    lemma {:induction false} DecodeAllIff(children: seq<XmlNode>)
      ensures |DecodeChildren(children)| <= |children|
      ensures |DecodeChildren(children)| == |children| <==>
              forall i :: 0 <= i < |children| ==> itemSyntax.read(children[i]).Some?
    {
      DecodePartition(children);
      RejectedEmptyIff(children);
    }

    lemma {:induction false} RejectedEmptyIff(children: seq<XmlNode>)
      ensures RejectedChildren(children) == [] <==>
              forall i :: 0 <= i < |children| ==> itemSyntax.read(children[i]).Some?
    {
      if children != [] {
        RejectedEmptyIff(children[1..]);
        if forall i :: 0 <= i < |children| ==> itemSyntax.read(children[i]).Some? {
          assert forall i :: 0 <= i < |children[1..]| ==> itemSyntax.read(children[1..][i]).Some? by {
            forall i | 0 <= i < |children[1..]| ensures itemSyntax.read(children[1..][i]).Some? {
              assert children[1..][i] == children[i + 1];
            }
          }
        }
        if RejectedChildren(children) == [] {
          forall i | 0 <= i < |children| ensures itemSyntax.read(children[i]).Some? {
            if i > 0 {
              assert children[i] == children[1..][i - 1];
            }
          }
        }
      }
    }

    /** Round trip: when the item codec reads back what it writes for each item, decoding the
        children `toXml` writes returns the original list and reports nothing. */
    lemma {:induction false} RoundTrip(value: seq<T>)
      requires itemSyntax.RoundTripsOn(value)
      ensures DecodeChildren(EncodeItems(value)) == value
      ensures RejectedChildren(EncodeItems(value)) == []
    {
      if value != [] {
        assert forall i :: 0 <= i < |value[1..]| ==> value[1..][i] == value[i + 1];
        RoundTrip(value[1..]);
        assert itemSyntax.read(itemSyntax.Encode(value[0])) == Some(value[0]);
        assert EncodeItems(value)[1..] == EncodeItems(value[1..]);
      }
    }

    /** Three children of which the middle one is malformed: the first and last
        items are kept, and only the middle child is reported. */
    lemma PartialFailure(c1: XmlNode, c2: XmlNode, c3: XmlNode, v1: T, v3: T)
      requires itemSyntax.read(c1) == Some(v1)
      requires itemSyntax.read(c2) == None
      requires itemSyntax.read(c3) == Some(v3)
      ensures DecodeChildren([c1, c2, c3]) == [v1, v3]
      ensures RejectedChildren([c1, c2, c3]) == [c2]
    {
      assert [c1, c2, c3][1..] == [c2, c3];
      assert [c2, c3][1..] == [c3];
      assert [c3][1..] == [];
      assert DecodeChildren([c3]) == [v3];
      assert DecodeChildren([c2, c3]) == [v3];
      assert RejectedChildren([c3]) == [];
      assert RejectedChildren([c2, c3]) == [c2];
    }

    /** Writing a list into a fresh element and reading that element back yields
        the list, with no diagnostics, when the item codec round-trips. */
    method WriteThenRead(value: seq<T>) returns (result: seq<T>, errors: seq<XmlNode>)
      requires itemSyntax.RoundTripsOn(value)
      ensures result == value && errors == []
    {
      var container := new Element(ElementName());
      ToXml(container, value);
      assert container.children == EncodeItems(value);
      result, errors := FromXml(container);
      RoundTrip(value);
    }
  }
}
