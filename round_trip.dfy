/**
 * How the decoder and the encoder fit together. Converting a parsed tree
 * to an array and writing the array back out gives the tree's children
 * again, each leaf's text in a CDATA section, as long as the tree has no
 * repeated sibling names, no attributes on inner elements and no CDATA
 * opener in its texts. The root's own tag is not written back. Repeated
 * names do not survive: they come back as one element around the list's
 * entries, where a string entry is written under its index (`<0>`, `<1>`,
 * ...) and an array entry is written with no wrapper of its own.
 */
module XmlRoundTrip {
  import opened Wrappers
  import opened Text
  import opened Assoc
  import opened XmlValue
  import opened XmlDecode
  import opened XmlEncode

  /** An element as the encoder would write it: a leaf's text goes in a CDATA section. */
  function Render(e: Element): string
    decreases e, |e.children| + 1
  {
    if e.children == [] then OpenTag(e.name) + CdataOpen + e.text + CdataClose + CloseTag(e.name)
    else OpenTag(e.name) + RenderChildren(e, |e.children|) + CloseTag(e.name)
  }

  /** The first `n` children of `e`, rendered one after the other. */
  function RenderChildren(e: Element, n: nat): string
    requires n <= |e.children|
    decreases e, n
  {
    if n == 0 then "" else RenderChildren(e, n - 1) + Render(e.children[n - 1])
  }

  /**
   * A tree the two directions agree on: inner elements carry no attributes,
   * sibling names are distinct and not numeric (no XML name is), and leaf
   * texts hold no CDATA opener.
   */
  ghost predicate Plain(e: Element)
    decreases e
  {
    && (e.children == [] ==> !Contains(e.text, CdataOpen))
    && (e.children != [] ==> e.attributes == [])
    && (forall i, j :: 0 <= i < j < |e.children| ==> e.children[i].name != e.children[j].name)
    && (forall i :: 0 <= i < |e.children| ==> !IsNumeric(e.children[i].name) && Plain(e.children[i]))
  }

  /** Converting and writing back a plain tree gives its children, rendered. */
  lemma {:induction false} RoundTrip(e: Element)
    requires Plain(e) && e.children != []
    ensures Encode(ToValue(e)) == RenderChildren(e, |e.children|)
    decreases e, |e.children| + 1
  {
    var kvs := Converted(e, |e.children|);
    NoMerging(e, |e.children|);
    assert ToValue(e) == Map(kvs);
    RoundTripPrefix(e, |e.children|);
  }

  /** The first `n` entries of a plain element's array render as its first `n` children. */
  lemma {:induction false} RoundTripPrefix(e: Element, n: nat)
    requires Plain(e) && e.children != [] && n <= |e.children|
    ensures EncodePrefix(Map(Converted(e, |e.children|)), n) == RenderChildren(e, n)
    decreases e, n
  {
    if n > 0 {
      var kvs := Converted(e, |e.children|);
      var c := e.children[n - 1];
      RoundTripPrefix(e, n - 1);
      EncodePrefixStep(Map(kvs), n - 1);
      ConvertedAt(e, |e.children|, n - 1);
      assert kvs[n - 1] == (c.name, ToValue(c));
      assert Plain(c) && !IsNumeric(c.name);
      RoundTripEntry(e, c);
    }
  }

  /** One child's entry renders as the child. */
  lemma {:induction false} RoundTripEntry(e: Element, c: Element)
    requires c < e && Plain(c)
    requires !IsNumeric(c.name)
    ensures EncodeEntry(c.name, IsNumeric(c.name), ToValue(c)) == Render(c)
    decreases e, 0
  {
    if c.children == [] {
      UnwrapsNothing(c.text);
    } else {
      RoundTrip(c);
    }
  }

  /** With distinct sibling names, grouping keeps every child as its own entry, in order. */
  lemma {:induction false} NoMerging(e: Element, n: nat)
    requires n <= |e.children|
    requires forall i, j :: 0 <= i < j < |e.children| ==> e.children[i].name != e.children[j].name
    ensures Group(AttributesPart([]), Converted(e, n)) == Converted(e, n)
    decreases n
  {
    if n > 0 {
      var prefix := Converted(e, n - 1);
      var c := e.children[n - 1];
      NoMerging(e, n - 1);
      assert Lookup(prefix, c.name).None? by {
        forall j | 0 <= j < n - 1
          ensures prefix[j].0 != c.name
        {
          ConvertedAt(e, n - 1, j);
        }
      }
      LastOfAppend(prefix, (c.name, ToValue(c)));
      AddFresh(prefix, c.name, ToValue(c));
    }
  }

  /** Adding a child under a name not yet present appends it. */
  lemma AddFresh(es: seq<(string, Value)>, name: string, v: Value)
    requires Lookup(es, name).None?
    ensures AddChild(es, name, v) == es + [(name, v)]
  {
    PutNew(es, name, v);
  }

  lemma LastOfAppend<T>(s: seq<T>, x: T)
    ensures (s + [x])[..|s|] == s && (s + [x])[|s|] == x
  {
  }

  /** Two `item` leaves, `a` then `b`, under one root. */
  const Repeated: Element := Element("r", [], "", [Element("item", [], "a", []), Element("item", [], "b", [])])

  /** The two `item` leaves are gathered into one list under one key. */
  lemma RepeatedNamesMerge()
    ensures ToValue(Repeated) == Map([("item", List([Leaf("a"), Leaf("b")]))])
  {
    var e := Repeated;
    UnwrapsNothing("a");
    UnwrapsNothing("b");
    var kvs := Converted(e, 2);
    assert kvs == [("item", Leaf("a")), ("item", Leaf("b"))] by {
      ConvertedAt(e, 2, 0);
      ConvertedAt(e, 2, 1);
    }
    var g1 := Group([], kvs[..1]);
    assert g1 == [("item", Leaf("a"))] by {
      assert kvs[..1][..0] == [];
      AddFresh([], "item", Leaf("a"));
    }
    assert Lookup(g1, "item") == Some(Leaf("a"));
    assert Merged(Lookup(g1, "item"), Leaf("b")) == List([Leaf("a"), Leaf("b")]);
  }

  /** The gathered list is written back as one `item` element around entries `0` and `1`. */
  lemma RepeatedNamesNest()
    ensures Encode(ToValue(Repeated)) != RenderChildren(Repeated, |Repeated.children|)
  {
    RepeatedNamesMerge();
    var list := List([Leaf("a"), Leaf("b")]);
    NameIsNotNumeric("item");
    EncodeNamedEntry("item", list);
    ListStartsWithEntryZero(list);
    CharAfterTag("item", Encode(list), CloseTag("item"));
    CharAfterTag("item", CdataOpen + "a" + CdataClose + CloseTag("item"), Render(Repeated.children[1]));
    assert RenderChildren(Repeated, 2) == Render(Repeated.children[0]) + Render(Repeated.children[1]);
  }

  /**
   * A list of two arrays is written as the two arrays one after the other:
   * their numeric indices give them no wrapper.
   */
  lemma ListOfArrays(a: Value, b: Value)
    requires !a.Leaf? && !b.Leaf?
    ensures Encode(List([a, b])) == Encode(a) + Encode(b)
  {
    var list := List([a, b]);
    DecimalIsNumeric(0);
    DecimalIsNumeric(1);
    EncodePrefixStep(list, 0);
    EncodePrefixStep(list, 1);
    assert EncodePrefix(list, 0) == "";
  }

  /** Such a list under a name is one element holding both arrays' output, with nothing between them. */
  lemma RepeatedArraysJoin(name: string, a: Value, b: Value)
    requires !a.Leaf? && !b.Leaf? && !IsNumeric(name)
    ensures Encode(Map([(name, List([a, b]))])) == OpenTag(name) + Encode(a) + Encode(b) + CloseTag(name)
  {
    EncodeNamedEntry(name, List([a, b]));
    ListOfArrays(a, b);
  }

  /** A list's output opens with the element of its first index, `0`. */
  lemma ListStartsWithEntryZero(list: Value)
    requires list.List? && |list.items| > 0 && list.items[0].Leaf?
    ensures |Encode(list)| > 1 && Encode(list)[1] == '0'
  {
    var first := EncodeEntry(NatToString(0), true, list.items[0]);
    assert EncodePrefix(list, 1) == first;
    assert first[..2] == "<0";
    PrefixKept(list, 1, |list.items|);
  }

  /** Later entries only add to the output. */
  lemma {:induction false} PrefixKept(v: Value, m: nat, n: nat)
    requires !v.Leaf? && m <= n <= Count(v)
    ensures EncodePrefix(v, m) <= EncodePrefix(v, n)
    decreases n
  {
    if m < n {
      PrefixKept(v, m, n - 1);
    }
  }

  /** The first character after an element's opening tag. */
  lemma CharAfterTag(name: string, inner: string, rest: string)
    requires |inner| > 1
    ensures (OpenTag(name) + inner + rest)[|name| + 3] == inner[1]
  {
  }
}
