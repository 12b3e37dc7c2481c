/**
  The parsed XML element tree the parser consumes, and the two tree queries the
  parser relies on: flattening all text below an element (`_get_all_text`) and
  finding direct children by tag (`findall` / `find`).
 */
module Xml {
  import opened Wrappers

  /** One element of the parsed document: its tag, attributes, direct text (None when
      the element has no text before its first child) and children in document order. */
  datatype Element = Element(tag: string, attrib: map<string, string>, text: Option<string>, children: seq<Element>)

  /** The elements `element.iter()` yields: the element itself, then its descendants in pre-order. */
  function Iter(e: Element): (r: seq<Element>)
    ensures |r| >= 1 && r[0] == e
    decreases e, 1
  {
    [e] + IterAll(e.children)
  }

  function IterAll(cs: seq<Element>): seq<Element>
    decreases cs, 0
  {
    if cs == [] then [] else Iter(cs[0]) + IterAll(cs[1..])
  }

  /** The direct text of one element, the empty string when it has none. */
  function TextOf(e: Element): string {
    if e.text.Some? then e.text.value else ""
  }

  /** The texts of a sequence of elements, concatenated in order. */
  function Concat(es: seq<Element>): string {
    if es == [] then "" else Concat(es[..|es| - 1]) + TextOf(es[|es| - 1])
  }

  /** The text of an element and of everything below it, defined on the tree itself:
      own text first, then each child's subtree in order. */
  function AllText(e: Element): string
    decreases e, 1
  {
    TextOf(e) + AllTextOf(e.children)
  }

  function AllTextOf(cs: seq<Element>): string
    decreases cs, 0
  {
    if cs == [] then "" else AllText(cs[0]) + AllTextOf(cs[1..])
  }

  lemma ConcatSnoc(es: seq<Element>, e: Element)
    ensures Concat(es + [e]) == Concat(es) + TextOf(e)
  {
    assert (es + [e])[..|es|] == es;
  }

  lemma {:induction false} ConcatAppend(a: seq<Element>, b: seq<Element>)
    ensures Concat(a + b) == Concat(a) + Concat(b)
    decreases |b|
  {
    if b == [] {
      assert a + b == a;
    } else {
      var b', last := b[..|b| - 1], b[|b| - 1];
      assert a + b == (a + b') + [last];
      ConcatAppend(a, b');
      ConcatSnoc(a + b', last);
      var x, y, z := Concat(a), Concat(b'), TextOf(last);
      assert Concat(b) == y + z;
      assert (x + y) + z == x + (y + z);
    }
  }

  /** The pre-order walk that `iter()` performs collects exactly the tree's text. */
  lemma {:induction false} AllTextIsPreorder(e: Element)
    ensures Concat(Iter(e)) == AllText(e)
    decreases e, 1
  {
    assert Concat([e]) == TextOf(e) by {
      assert [e][..0] == [];
    }
    ConcatAppend([e], IterAll(e.children));
    AllTextOfIsPreorder(e.children);
  }

  lemma {:induction false} AllTextOfIsPreorder(cs: seq<Element>)
    ensures Concat(IterAll(cs)) == AllTextOf(cs)
    decreases cs, 0
  {
    if cs != [] {
      ConcatAppend(Iter(cs[0]), IterAll(cs[1..]));
      AllTextIsPreorder(cs[0]);
      AllTextOfIsPreorder(cs[1..]);
    }
  }

  lemma {:induction false} ConcatWithoutText(es: seq<Element>)
    requires forall c :: c in es ==> c.text.None?
    ensures Concat(es) == ""
    decreases |es|
  {
    if es != [] {
      ConcatWithoutText(es[..|es| - 1]);
    }
  }

  /** A tree in which no element carries text flattens to the empty string. */
  lemma AllTextWithoutText(e: Element)
    requires forall c :: c in Iter(e) ==> c.text.None?
    ensures AllText(e) == ""
  {
    AllTextIsPreorder(e);
    ConcatWithoutText(Iter(e));
  }

  /** `_get_all_text`: appends the text of every element `iter()` yields, skipping None. */
  method GetAllText(e: Element) returns (s: string)
    ensures s == AllText(e)
  {
    var nodes := Iter(e);
    s := "";
    var i := 0;
    while i < |nodes|
      invariant 0 <= i <= |nodes|
      invariant s == Concat(nodes[..i])
    {
      var c := nodes[i];
      assert nodes[..i + 1][..i] == nodes[..i];
      if c.text.Some? {
        s := s + c.text.value;
      }
      i := i + 1;
    }
    assert nodes[..i] == nodes;
    AllTextIsPreorder(e);
  }

  /** Number of elements of `cs` whose tag is `tag`. */
  function Count(cs: seq<Element>, tag: string): nat {
    if cs == [] then 0 else (if cs[0].tag == tag then 1 else 0) + Count(cs[1..], tag)
  }

  lemma {:induction false} CountSnoc(cs: seq<Element>, c: Element, tag: string)
    ensures Count(cs + [c], tag) == Count(cs, tag) + (if c.tag == tag then 1 else 0)
    decreases |cs|
  {
    if cs == [] {
      assert [c][1..] == [];
    } else {
      assert (cs + [c])[1..] == cs[1..] + [c];
      CountSnoc(cs[1..], c, tag);
    }
  }

  /** The elements of `cs` whose tag is `tag`, in order. */
  function Filter(cs: seq<Element>, tag: string): seq<Element> {
    if cs == [] then []
    else Filter(cs[..|cs| - 1], tag) + (if cs[|cs| - 1].tag == tag then [cs[|cs| - 1]] else [])
  }

  /** Filtering keeps as many elements as carry the tag, only such elements, and each
      of them at its rank among them. */
  lemma {:induction false} FilterSpec(cs: seq<Element>, tag: string)
    ensures |Filter(cs, tag)| == Count(cs, tag)
    ensures forall c :: c in Filter(cs, tag) ==> c.tag == tag && c in cs
    ensures forall j :: 0 <= j < |cs| && cs[j].tag == tag ==>
              Count(cs[..j], tag) < |Filter(cs, tag)| && Filter(cs, tag)[Count(cs[..j], tag)] == cs[j]
    decreases |cs|
  {
    if cs != [] {
      var init := cs[..|cs| - 1];
      var last := cs[|cs| - 1];
      assert cs == init + [last];
      CountSnoc(init, last, tag);
      FilterSpec(init, tag);
      var r, r' := Filter(cs, tag), Filter(init, tag);
      assert r == r' + (if last.tag == tag then [last] else []);
      forall j | 0 <= j < |cs| && cs[j].tag == tag
        ensures Count(cs[..j], tag) < |r| && r[Count(cs[..j], tag)] == cs[j]
      {
        if j < |init| {
          assert cs[..j] == init[..j];
          assert r[Count(init[..j], tag)] == r'[Count(init[..j], tag)];
        } else {
          assert cs[..j] == init;
        }
      }
    }
  }

  /** `element.findall(tag)`: the direct children with that tag, in document order. */
  function FindAll(e: Element, tag: string): seq<Element> {
    Filter(e.children, tag)
  }

  /** `findall(tag)` yields as many elements as children carry the tag, only children
      with that tag, and each such child at its rank among them. */
  lemma FindAllSpec(e: Element, tag: string)
    ensures |FindAll(e, tag)| == Count(e.children, tag)
    ensures forall c :: c in FindAll(e, tag) ==> c.tag == tag && c in e.children
    ensures forall j :: 0 <= j < |e.children| && e.children[j].tag == tag ==>
              Count(e.children[..j], tag) < |FindAll(e, tag)|
              && FindAll(e, tag)[Count(e.children[..j], tag)] == e.children[j]
  {
    FilterSpec(e.children, tag);
  }

  /** `element.find(tag)`: the first direct child with that tag, None when there is none. */
  function FindFirst(e: Element, tag: string): (r: Option<Element>)
    ensures r.None? <==> forall c :: c in e.children ==> c.tag != tag
    ensures r.Some? ==> r.value.tag == tag && exists j :: FirstAt(e.children, tag, j, r.value)
  {
    FirstTagged(e.children, tag)
  }

  /** `c` sits at index `j` of `cs` and no element before it carries `tag`. */
  predicate FirstAt(cs: seq<Element>, tag: string, j: int, c: Element) {
    0 <= j < |cs| && cs[j] == c && forall i :: 0 <= i < j ==> cs[i].tag != tag
  }

  function FirstTagged(cs: seq<Element>, tag: string): (r: Option<Element>)
    ensures r.None? <==> forall c :: c in cs ==> c.tag != tag
    ensures r.Some? ==> r.value.tag == tag && exists j :: FirstAt(cs, tag, j, r.value)
  {
    if cs == [] then None
    else if cs[0].tag == tag then assert FirstAt(cs, tag, 0, cs[0]); Some(cs[0])
    else
      var r := FirstTagged(cs[1..], tag);
      assert r.Some? ==> forall j :: FirstAt(cs[1..], tag, j, r.value) ==> FirstAt(cs, tag, j + 1, r.value);
      r
  }

  /** `find` returns the first of what `findall` returns. */
  lemma FindFirstIsHeadOfFindAll(e: Element, tag: string)
    ensures FindFirst(e, tag) == if FindAll(e, tag) == [] then None else Some(FindAll(e, tag)[0])
  {
    var cs := e.children;
    var r := FindFirst(e, tag);
    FindAllSpec(e, tag);
    if r.Some? {
      var j :| FirstAt(cs, tag, j, r.value);
      CountNone(cs[..j], tag);
      assert Count(cs[..j], tag) == 0;
    } else {
      assert forall i :: 0 <= i < |cs| ==> cs[i] in cs;
      CountNone(cs, tag);
    }
  }

  lemma {:induction false} CountNone(cs: seq<Element>, tag: string)
    requires forall i :: 0 <= i < |cs| ==> cs[i].tag != tag
    ensures Count(cs, tag) == 0
    decreases |cs|
  {
    if cs != [] {
      CountNone(cs[1..], tag);
    }
  }
}
