/** XML documents as Python's `xml.etree.ElementTree` holds them: an
    element has a tag, attributes in the order they were set, an optional
    text and an ordered list of child elements. */
module XmlTree {
  import opened Text

  datatype Element = Element(tag: string, attributes: seq<(string, string)>, text: Option<string>, children: seq<Element>)

  /** `ET.Element(tag)`, and what `ET.SubElement(parent, tag)` appends. */
  function NewElement(tag: string): Element {
    Element(tag, [], None, [])
  }

  /** An element with a tag and a text and nothing else. */
  function TextElement(tag: string, text: string): Element {
    Element(tag, [], Some(text), [])
  }

  /** `find(tag)`: the position of the first child with that tag. */
  function FindChild(children: seq<Element>, tag: string): (r: Option<nat>)
    ensures r.Some? ==> r.value < |children| && children[r.value].tag == tag
    ensures r.Some? ==> forall j :: 0 <= j < r.value ==> children[j].tag != tag
    ensures r.None? ==> forall j :: 0 <= j < |children| ==> children[j].tag != tag
  {
    if children == [] then None
    else if children[0].tag == tag then Some(0)
    else match FindChild(children[1..], tag)
      case None => None
      case Some(i) => Some(i + 1)
  }

  /** The first child with the tag is the one `find` returns. */
  lemma FindChildFirst(children: seq<Element>, i: nat, tag: string)
    requires i < |children| && children[i].tag == tag
    requires forall j :: 0 <= j < i ==> children[j].tag != tag
    ensures FindChild(children, tag) == Some(i)
  {
  }

  /** Appending children does not move the first match. */
  lemma FindChildPrefix(a: seq<Element>, b: seq<Element>, tag: string)
    requires FindChild(a, tag).Some?
    ensures FindChild(a + b, tag) == FindChild(a, tag)
  {
    forall j | 0 <= j < |a| ensures (a + b)[j] == a[j] { }
  }

  /** Appending one child to a list without a match. */
  lemma FindChildSnoc(a: seq<Element>, c: Element, tag: string)
    requires FindChild(a, tag).None?
    ensures FindChild(a + [c], tag) == if c.tag == tag then Some(|a|) else None
  {
    forall j | 0 <= j < |a| ensures (a + [c])[j] == a[j] { }
    assert (a + [c])[|a|] == c;
  }

  /** Putting an element back where it was changes nothing. */
  lemma UpdateSame(children: seq<Element>, i: nat)
    requires i < |children|
    ensures children[i := children[i]] == children
  {
  }

  /** A child appended under a tag no child has yet is the one found. */
  lemma AppendChildFound(e: Element, c: Element)
    requires FindChild(e.children, c.tag).None?
    ensures OnlyChanges(e, e.(children := e.children + [c]), c.tag)
    ensures Child(e.(children := e.children + [c]), c.tag) == Some(c)
  {
    FindChildSnoc(e.children, c, c.tag);
    assert (e.children + [c])[|e.children|] == c;
  }

  /** Replacing a child by one with the same tag does not move any match. */
  lemma {:induction false} FindChildSameTag(a: seq<Element>, i: nat, c: Element, tag: string)
    requires i < |a| && c.tag == a[i].tag
    ensures FindChild(a[i := c], tag) == FindChild(a, tag)
    decreases |a|
  {
    if i == 0 {
      assert a[i := c][1..] == a[1..];
    } else {
      assert a[i := c][1..] == a[1..][i - 1 := c];
      FindChildSameTag(a[1..], i - 1, c, tag);
    }
  }

  /** `e.find(tag)`. */
  function Child(e: Element, tag: string): (r: Option<Element>)
    ensures r.Some? ==> r.value in e.children && r.value.tag == tag
  {
    match FindChild(e.children, tag)
    case None => None
    case Some(i) => Some(e.children[i])
  }

  /** `e.find(tag).text`, absent also when there is no such child. */
  function ChildText(e: Element, tag: string): Option<string> {
    match Child(e, tag)
    case None => None
    case Some(c) => c.text
  }

  /** `ET.SubElement(e, tag)`: a new empty child at the end. */
  function SubElement(e: Element, tag: string): Element {
    e.(children := e.children + [NewElement(tag)])
  }

  /** `e.find(tag)`, or `ET.SubElement(e, tag)` when that finds nothing:
      the element that now has such a child, and where that child is. */
  function FindOrCreate(e: Element, tag: string): (r: (Element, nat))
    ensures r.1 < |r.0.children| && FindChild(r.0.children, tag) == Some(r.1)
    ensures r.0.tag == e.tag && r.0.attributes == e.attributes && r.0.text == e.text
    ensures |e.children| <= |r.0.children| <= |e.children| + 1
    ensures r.0.children[..|e.children|] == e.children
    ensures FindChild(e.children, tag).Some? ==> r == (e, FindChild(e.children, tag).value)
    ensures FindChild(e.children, tag).None? ==> r.0.children[r.1] == NewElement(tag)
    ensures OnlyChanges(e, r.0, tag)
  {
    match FindChild(e.children, tag)
    case Some(i) => (e, i)
    case None =>
      FindChildSnoc(e.children, NewElement(tag), tag);
      (SubElement(e, tag), |e.children|)
  }

  /** Replacing the child at position `i` by one with the same tag. */
  function ReplaceChild(e: Element, i: nat, c: Element): (r: Element)
    requires i < |e.children| && c.tag == e.children[i].tag
    ensures OnlyChanges(e, r, c.tag)
    ensures |r.children| == |e.children| && r.children[i] == c
    ensures FindChild(r.children, c.tag) == FindChild(e.children, c.tag)
  {
    FindChildSameTag(e.children, i, c, c.tag);
    e.(children := e.children[i := c])
  }

  /** `e` and `r` differ at most in the children tagged `tag`, and in
      children appended with that tag. */
  predicate OnlyChanges(e: Element, r: Element, tag: string) {
    r.tag == e.tag && r.attributes == e.attributes && r.text == e.text &&
    |e.children| <= |r.children| &&
    (forall j :: 0 <= j < |e.children| ==> r.children[j].tag == e.children[j].tag) &&
    (forall j :: 0 <= j < |e.children| && e.children[j].tag != tag ==> r.children[j] == e.children[j]) &&
    (forall j :: |e.children| <= j < |r.children| ==> r.children[j].tag == tag)
  }

  lemma OnlyChangesTrans(a: Element, b: Element, c: Element, tag: string)
    requires OnlyChanges(a, b, tag) && OnlyChanges(b, c, tag)
    ensures OnlyChanges(a, c, tag)
  {
  }

  /** A child with another tag is found where it was. */
  lemma OnlyChangesKeeps(e: Element, r: Element, tag: string, other: string)
    requires OnlyChanges(e, r, tag) && other != tag
    ensures Child(r, other) == Child(e, other)
  {
    match FindChild(e.children, other)
    case Some(k) =>
      FindChildFirst(r.children, k, other);
    case None =>
      assert forall j :: 0 <= j < |r.children| ==> r.children[j].tag != other;
  }

  /** `[c.text for c in e.findall(tag)]` over a list of children. */
  function Texts(children: seq<Element>, tag: string): (r: seq<Option<string>>)
    ensures |r| <= |children|
  {
    if children == [] then []
    else (if children[0].tag == tag then [children[0].text] else []) + Texts(children[1..], tag)
  }

  lemma {:induction false} TextsAppend(a: seq<Element>, b: seq<Element>, tag: string)
    ensures Texts(a + b, tag) == Texts(a, tag) + Texts(b, tag)
  {
    if a == [] {
      assert a + b == b;
    } else {
      var head := if a[0].tag == tag then [a[0].text] else [];
      assert (a + b)[0] == a[0];
      assert (a + b)[1..] == a[1..] + b;
      TextsAppend(a[1..], b, tag);
      assert Texts(a + b, tag) == head + (Texts(a[1..], tag) + Texts(b, tag));
      assert Texts(a, tag) == head + Texts(a[1..], tag);
    }
  }

  /** `[d.text for d in e.findall('.//' + tag)]`: the texts of every
      element below `e` with that tag, in document order. */
  function Descendants(e: Element, tag: string): seq<Option<string>>
    decreases e, 1
  {
    DescendantsFrom(e, 0, tag)
  }

  function DescendantsFrom(e: Element, i: nat, tag: string): seq<Option<string>>
    requires i <= |e.children|
    decreases e, 0, |e.children| - i
  {
    if i == |e.children| then []
    else
      var c := e.children[i];
      (if c.tag == tag then [c.text] else []) + Descendants(c, tag) + DescendantsFrom(e, i + 1, tag)
  }
}
