/**
 * `XMLHelpers::xmlToArray` and `XMLHelpers::parseXmlToArray`: a parsed
 * element becomes a string when it has no child elements, and otherwise an
 * associative array with its attributes under `@attributes` followed by its
 * children, where repeated child names are gathered into a list.
 *
 * SimpleXML itself is not modelled: `ParseXmlToArray` receives the parser as
 * a function from the cleaned text to an element tree, or to nothing when
 * the text is not well-formed.
 */
module XmlDecode {
  import opened Wrappers
  import opened Text
  import opened Assoc
  import opened XmlValue
  import XmlClean

  const CdataOpen: string := "<![CDATA["
  const CdataClose: string := "]]>"
  const AttributesKey: string := "@attributes"

  /** A leaf's text, replaced by the inside of its first CDATA section when it holds one. */
  function UnwrapCdata(text: string): string
  {
    match FirstGroup(text, CdataOpen, CdataClose)
    case Some(inner) => inner
    case None => text
  }

  /** `$array['@attributes'][$key] = (string) $value` for every attribute in turn. */
  function AttributeEntries(attrs: seq<(string, string)>): seq<(string, Value)>
  {
    if attrs == [] then []
    else
      var n := |attrs| - 1;
      Put(AttributeEntries(attrs[..n]), attrs[n].0, Leaf(attrs[n].1))
  }

  /** What the attribute loop leaves in `$array`: nothing, or the single entry `@attributes`. */
  function AttributesPart(attrs: seq<(string, string)>): seq<(string, Value)>
  {
    if |attrs| > 0 then [(AttributesKey, Map(AttributeEntries(attrs)))] else []
  }

  /**
   * What a repeated name stores: the new value itself the first time, then
   * a list of all values. Element names never start with a digit, so a
   * stored array holds offset 0 exactly when it is such a list.
   */
  function Merged(prev: Option<Value>, v: Value): Value
  {
    match prev
    case None => v
    case Some(p) => if p.List? && |p.items| > 0 then List(p.items + [v]) else List([p, v])
  }

  /** One turn of the children loop. */
  function AddChild(es: seq<(string, Value)>, name: string, v: Value): seq<(string, Value)>
  {
    Put(es, name, Merged(Lookup(es, name), v))
  }

  /** `$array` after the children loop has run over `kvs`, starting from `base`. */
  function Group(base: seq<(string, Value)>, kvs: seq<(string, Value)>): seq<(string, Value)>
    decreases |kvs|
  {
    if kvs == [] then base
    else
      var n := |kvs| - 1;
      AddChild(Group(base, kvs[..n]), kvs[n].0, kvs[n].1)
  }

  /** The first `n` children, each paired with its name. */
  function Converted(e: Element, n: nat): (kvs: seq<(string, Value)>)
    requires n <= |e.children|
    ensures |kvs| == n
    decreases e, n
  {
    if n == 0 then [] else Converted(e, n - 1) + [(e.children[n - 1].name, ToValue(e.children[n - 1]))]
  }

  /** `xmlToArray`: a string for an element without child elements (its attributes are dropped), an array otherwise. */
  function ToValue(e: Element): (r: Value)
    ensures r.Leaf? <==> e.children == []
    ensures !r.List?
    decreases e, |e.children| + 1
  {
    if e.children == [] then Leaf(UnwrapCdata(e.text))
    else Map(Group(AttributesPart(e.attributes), Converted(e, |e.children|)))
  }

  /** The attribute loop of `xmlToArray`. */
  method CollectAttributes(attrs: seq<(string, string)>) returns (arr: seq<(string, Value)>)
    ensures arr == AttributesPart(attrs)
  {
    arr := [];
    var i := 0;
    while i < |attrs|
      invariant 0 <= i <= |attrs|
      invariant arr == if i == 0 then [] else [(AttributesKey, Map(AttributeEntries(attrs[..i])))]
    {
      var (key, value) := attrs[i];
      var current := if i == 0 then [] else arr[0].1.entries;
      assert Put(current, key, Leaf(value)) == AttributeEntries(attrs[..i + 1]) by {
        assert attrs[..i + 1][..i] == attrs[..i];
      }
      arr := Put(arr, AttributesKey, Map(Put(current, key, Leaf(value))));
      i := i + 1;
    }
    assert attrs[..|attrs|] == attrs;
  }

  /** The conversion as `xmlToArray` performs it, loop for loop. */
  method XmlToArray(e: Element) returns (r: Value)
    ensures r == ToValue(e)
    decreases e
  {
    var arr := CollectAttributes(e.attributes);
    if |e.children| == 0 {
      return Leaf(UnwrapCdata(e.text));
    }
    var j := 0;
    while j < |e.children|
      invariant 0 <= j <= |e.children|
      invariant arr == Group(AttributesPart(e.attributes), Converted(e, j))
    {
      var child := e.children[j];
      var childValue := XmlToArray(child);
      ghost var before := arr;
      match Lookup(arr, child.name) {
        case Some(prev) =>
          var items := if prev.List? && |prev.items| > 0 then prev.items else [prev];
          assert List(items + [childValue]) == Merged(Some(prev), childValue);
          arr := Put(arr, child.name, List(items + [childValue]));
        case None =>
          arr := Put(arr, child.name, childValue);
      }
      assert arr == AddChild(before, child.name, childValue);
      GroupStep(AttributesPart(e.attributes), e, j);
      j := j + 1;
    }
    return Map(arr);
  }

  /** One more child adds one more turn of the children loop. */
  lemma GroupStep(base: seq<(string, Value)>, e: Element, j: nat)
    requires j < |e.children|
    ensures Group(base, Converted(e, j + 1)) == AddChild(Group(base, Converted(e, j)), e.children[j].name, ToValue(e.children[j]))
  {
    var kvs := Converted(e, j + 1);
    assert kvs[..j] == Converted(e, j) && kvs[j] == (e.children[j].name, ToValue(e.children[j]));
  }

  /** The message `parseXmlToArray` throws when SimpleXML rejects the text. */
  const Unparsable: string := "Failed to parse XML string"

  /**
   * `parseXmlToArray`: clean the text, parse it, convert the root. A parse
   * failure throws; a root without child elements converts to a string,
   * which the declared `array` return type refuses with a `TypeError`.
   */
  function ParseXmlToArray(raw: string, parse: string -> Option<Element>): (r: Result<Value, Throwable>)
    ensures r.Ok? <==> parse(XmlClean.CleanXmlString(raw)).Some? && parse(XmlClean.CleanXmlString(raw)).value.children != []
    ensures r.Ok? ==> r.value.Map? && r.value == ToValue(parse(XmlClean.CleanXmlString(raw)).value)
    ensures r.Err? && r.error.Exception? <==> parse(XmlClean.CleanXmlString(raw)).None?
    ensures r.Err? && r.error.Exception? ==> r.error.message == Unparsable
  {
    match parse(XmlClean.CleanXmlString(raw))
    case None => Err(Exception(Unparsable))
    case Some(root) =>
      var v := ToValue(root);
      if v.Map? then Ok(v) else Err(TypeError)
  }

  // ---------------------------------------------------------------------
  // CDATA unwrapping.

  /** A text that is one CDATA section whose body holds no `]]>` comes out as the body. */
  lemma UnwrapsSection(x: string)
    requires !Contains(x + "]]", CdataClose)
    ensures UnwrapCdata(CdataOpen + x + CdataClose) == x
  {
    var s := CdataOpen + x + CdataClose;
    assert s == "" + CdataOpen + x + CdataClose + "";
    assert x + CdataClose[..|CdataClose| - 1] == x + "]]";
    assert !Contains("" + CdataOpen[..|CdataOpen| - 1], CdataOpen);
    FirstGroupAt(s, CdataOpen, CdataClose, "", x, "");
  }

  /** A text without a CDATA opener is kept as it is. */
  lemma UnwrapsNothing(text: string)
    requires !Contains(text, CdataOpen)
    ensures UnwrapCdata(text) == text
  {
  }

  // ---------------------------------------------------------------------
  // Attributes.

  /** The attribute entries have distinct names, and exactly the names of the attributes. */
  lemma {:induction false} AttributeNames(attrs: seq<(string, string)>)
    ensures DistinctKeys(AttributeEntries(attrs))
    ensures forall k :: Lookup(AttributeEntries(attrs), k).Some? <==> Lookup(attrs, k).Some?
  {
    if attrs != [] {
      var n := |attrs| - 1;
      var prefix := AttributeEntries(attrs[..n]);
      AttributeNames(attrs[..n]);
      PutDistinct(prefix, attrs[n].0, Leaf(attrs[n].1));
      forall k
        ensures Lookup(AttributeEntries(attrs), k).Some? <==> Lookup(attrs, k).Some?
      {
        PutLookup(prefix, attrs[n].0, Leaf(attrs[n].1), k);
        LookupLast(attrs, k);
      }
    }
  }

  /** Attributes with distinct names, as XML requires, come out in document order with their values. */
  lemma {:induction false} AttributesInOrder(attrs: seq<(string, string)>)
    requires DistinctKeys(attrs)
    ensures |AttributeEntries(attrs)| == |attrs|
    ensures forall i :: 0 <= i < |attrs| ==> AttributeEntries(attrs)[i] == (attrs[i].0, Leaf(attrs[i].1))
  {
    if attrs != [] {
      var n := |attrs| - 1;
      var prefix := AttributeEntries(attrs[..n]);
      assert DistinctKeys(attrs[..n]);
      AttributesInOrder(attrs[..n]);
      AttributeNames(attrs[..n]);
      assert Lookup(attrs[..n], attrs[n].0).None?;
      PutNew(prefix, attrs[n].0, Leaf(attrs[n].1));
      assert AttributeEntries(attrs) == prefix + [(attrs[n].0, Leaf(attrs[n].1))];
    }
  }

  // ---------------------------------------------------------------------
  // Grouping of children by name.

  /** The values stored under `k` in `kvs`, in order. */
  function ValuesOf(kvs: seq<(string, Value)>, k: string): (vs: seq<Value>)
    ensures |vs| <= |kvs|
  {
    if kvs == [] then []
    else
      var n := |kvs| - 1;
      ValuesOf(kvs[..n], k) + (if kvs[n].0 == k then [kvs[n].1] else [])
  }

  /** What a name looks up to after grouping its values: nothing, the value itself, or the list of them. */
  function Gathered(vs: seq<Value>): Option<Value>
  {
    if |vs| == 0 then None else if |vs| == 1 then Some(vs[0]) else Some(List(vs))
  }

  /** One turn of the children loop, seen from the name it adds. */
  lemma AddChildLookup(g: seq<(string, Value)>, name: string, v: Value, vs: seq<Value>)
    requires Lookup(g, name) == Gathered(vs)
    requires |vs| == 1 ==> !vs[0].List?
    ensures Lookup(AddChild(g, name, v), name) == Gathered(vs + [v])
  {
    var w := Merged(Lookup(g, name), v);
    PutLookup(g, name, w, name);
    if |vs| == 1 {
      assert w == List([vs[0], v]);
      assert [vs[0], v] == vs + [v];
    }
  }

  /**
   * A name met once maps to its value, a name met twice or more maps to the
   * list of all its values in document order, provided no value is itself a
   * list (which `ToValue` never produces).
   */
  lemma {:induction false} GroupLookup(base: seq<(string, Value)>, kvs: seq<(string, Value)>, k: string)
    requires Lookup(base, k).None?
    requires forall i :: 0 <= i < |kvs| ==> !kvs[i].1.List?
    ensures Lookup(Group(base, kvs), k) == Gathered(ValuesOf(kvs, k))
    decreases |kvs|
  {
    if kvs != [] {
      var n := |kvs| - 1;
      var prefix := kvs[..n];
      var (name, v) := kvs[n];
      GroupLookup(base, prefix, k);
      var g := Group(base, prefix);
      var vs := ValuesOf(prefix, k);
      assert Group(base, kvs) == AddChild(g, name, v);
      if name == k {
        assert ValuesOf(kvs, k) == vs + [v];
        if |vs| == 1 {
          ValueAmong(prefix, k, 0);
        }
        AddChildLookup(g, name, v, vs);
      } else {
        assert ValuesOf(kvs, k) == vs;
        PutLookup(g, name, Merged(Lookup(g, name), v), k);
      }
    }
  }

  /** Every value gathered under `k` is one of the values of `kvs`, so none is a list. */
  lemma {:induction false} ValueAmong(kvs: seq<(string, Value)>, k: string, i: nat)
    requires forall j :: 0 <= j < |kvs| ==> !kvs[j].1.List?
    requires i < |ValuesOf(kvs, k)|
    ensures !ValuesOf(kvs, k)[i].List?
    decreases |kvs|
  {
    var n := |kvs| - 1;
    var prefix := kvs[..n];
    if i < |ValuesOf(prefix, k)| {
      ValueAmong(prefix, k, i);
    }
  }

  /** A name that no child carries keeps what `base` had for it. */
  lemma {:induction false} GroupUntouched(base: seq<(string, Value)>, kvs: seq<(string, Value)>, k: string)
    requires forall i :: 0 <= i < |kvs| ==> kvs[i].0 != k
    ensures Lookup(Group(base, kvs), k) == Lookup(base, k)
    decreases |kvs|
  {
    if kvs != [] {
      var n := |kvs| - 1;
      var g := Group(base, kvs[..n]);
      GroupUntouched(base, kvs[..n], k);
      PutLookup(g, kvs[n].0, Merged(Lookup(g, kvs[n].0), kvs[n].1), k);
    }
  }

  /** `ks` followed by the names of `names` not seen before, each at its first occurrence. */
  function FirstSeen(ks: seq<string>, names: seq<string>): (r: seq<string>)
    ensures |ks| <= |r| && r[..|ks|] == ks
  {
    if names == [] then ks
    else
      var n := |names| - 1;
      var prev := FirstSeen(ks, names[..n]);
      if names[n] in prev then prev else prev + [names[n]]
  }

  /** Keys come in the order of first occurrence, those of `base` first. */
  lemma {:induction false} GroupKeys(base: seq<(string, Value)>, kvs: seq<(string, Value)>)
    ensures Keys(Group(base, kvs)) == FirstSeen(Keys(base), Keys(kvs))
    decreases |kvs|
  {
    if kvs != [] {
      var n := |kvs| - 1;
      var (name, v) := kvs[n];
      var g := Group(base, kvs[..n]);
      var w := Merged(Lookup(g, name), v);
      GroupKeys(base, kvs[..n]);
      assert Keys(kvs)[..n] == Keys(kvs[..n]) && Keys(kvs)[n] == name;
      KeysLookup(g, name);
      PutKeys(g, name, w);
      assert Group(base, kvs) == Put(g, name, w);
    }
  }

  /** Grouping never repeats a key. */
  lemma {:induction false} GroupDistinct(base: seq<(string, Value)>, kvs: seq<(string, Value)>)
    requires DistinctKeys(base)
    ensures DistinctKeys(Group(base, kvs))
    decreases |kvs|
  {
    if kvs != [] {
      var n := |kvs| - 1;
      var g := Group(base, kvs[..n]);
      GroupDistinct(base, kvs[..n]);
      PutDistinct(g, kvs[n].0, Merged(Lookup(g, kvs[n].0), kvs[n].1));
    }
  }

  // ---------------------------------------------------------------------
  // The conversion of an element, stated on its children.

  /** The `i`-th converted child is the name and the conversion of the `i`-th child. */
  lemma {:induction false} ConvertedAt(e: Element, n: nat, i: nat)
    requires i < n <= |e.children|
    ensures Converted(e, n)[i] == (e.children[i].name, ToValue(e.children[i]))
    decreases n
  {
    if i < n - 1 {
      ConvertedAt(e, n - 1, i);
    }
  }

  /** The converted children named `k`, in document order. */
  function ChildValues(cs: seq<Element>, k: string): seq<Value>
  {
    if cs == [] then []
    else
      var n := |cs| - 1;
      ChildValues(cs[..n], k) + (if cs[n].name == k then [ToValue(cs[n])] else [])
  }

  /** No child of that name, no values. */
  lemma {:induction false} NoChildNamed(cs: seq<Element>, k: string)
    requires forall i :: 0 <= i < |cs| ==> cs[i].name != k
    ensures ChildValues(cs, k) == []
  {
    if cs != [] {
      NoChildNamed(cs[..|cs| - 1], k);
    }
  }

  lemma {:induction false} ValuesOfConverted(e: Element, n: nat, k: string)
    requires n <= |e.children|
    ensures ValuesOf(Converted(e, n), k) == ChildValues(e.children[..n], k)
    decreases n
  {
    if n > 0 {
      ValuesOfConverted(e, n - 1, k);
      assert Converted(e, n)[..n - 1] == Converted(e, n - 1);
      assert e.children[..n][..n - 1] == e.children[..n - 1];
    }
  }

  /**
   * In the array of an element with children, a child name maps to the one
   * child of that name, to the list of all of them when there are several,
   * and is absent when there is none.
   */
  lemma ChildLookup(e: Element, k: string)
    requires e.children != [] && k != AttributesKey
    ensures Get(ToValue(e), k) == Gathered(ChildValues(e.children, k))
  {
    var kvs := Converted(e, |e.children|);
    ValuesOfConverted(e, |e.children|, k);
    assert e.children[..|e.children|] == e.children;
    forall i | 0 <= i < |kvs|
      ensures !kvs[i].1.List?
    {
      ConvertedAt(e, |e.children|, i);
    }
    GroupLookup(AttributesPart(e.attributes), kvs, k);
  }

  /**
   * The attributes of an element with children sit under `@attributes`,
   * and that entry comes first; an element without attributes has no such
   * entry. Element names cannot contain `@`.
   */
  lemma AttributesLookup(e: Element)
    requires e.children != []
    requires forall i :: 0 <= i < |e.children| ==> e.children[i].name != AttributesKey
    ensures Get(ToValue(e), AttributesKey) == if e.attributes == [] then None else Some(Map(AttributeEntries(e.attributes)))
    ensures e.attributes != [] ==> ToValue(e).entries[0].0 == AttributesKey
  {
    var base := AttributesPart(e.attributes);
    var kvs := Converted(e, |e.children|);
    forall i | 0 <= i < |kvs|
      ensures kvs[i].0 != AttributesKey
    {
      ConvertedAt(e, |e.children|, i);
    }
    GroupUntouched(base, kvs, AttributesKey);
    GroupKeys(base, kvs);
    if e.attributes != [] {
      var ks := Keys(Group(base, kvs));
      assert Keys(base) == [AttributesKey];
      assert ks[..1] == [AttributesKey];
    }
  }
}
