/**
 * An XML document after parsing, as ElementTree presents it: a tag, the
 * attributes, the text before the first child, and the children in document
 * order.  Parsing itself is not modelled; where the code parses text, the
 * parsed tree (or the parse failure) is an input.
 */
module XmlTree {
  import opened Wrappers

  datatype Element = Element(tag: string, attrib: map<string, string>, text: Option<string>, children: seq<Element>)

  /** `attrib.get(name)`. */
  function Attr(e: Element, name: string): Option<string>
  {
    if name in e.attrib then Some(e.attrib[name]) else None
  }

  /** The elements of a forest and all their descendants, in document order. */
  function Forest(cs: seq<Element>): seq<Element>
    decreases cs
  {
    if cs == [] then [] else [cs[0]] + Forest(cs[0].children) + Forest(cs[1..])
  }

  /** Every element below `e`, in document order (what `.//` ranges over). */
  function Descendants(e: Element): seq<Element>
  {
    Forest(e.children)
  }

  /** `e.findall(".//" + tag)`: the descendants with that tag, in document order. */
  function FindAll(e: Element, tag: string): (r: seq<Element>)
    ensures forall x :: x in r <==> x in Descendants(e) && x.tag == tag
  {
    TagFilter(Descendants(e), tag)
  }

  function TagFilter(xs: seq<Element>, tag: string): (r: seq<Element>)
    ensures forall x :: x in r <==> x in xs && x.tag == tag
    ensures |r| <= |xs|
  {
    if xs == [] then []
    else (if xs[0].tag == tag then [xs[0]] else []) + TagFilter(xs[1..], tag)
  }

  /** The elements reached from the forest `cs` by following child steps with the tags of `path`, in document order. */
  function PathMatches(cs: seq<Element>, path: seq<string>): (r: seq<Element>)
    ensures path != [] ==> forall x :: x in r ==> x.tag == path[|path| - 1]
    decreases cs
  {
    if cs == [] || path == [] then []
    else
      var c := cs[0];
      (if c.tag != path[0] then [] else if |path| == 1 then [c] else PathMatches(c.children, path[1..]))
      + PathMatches(cs[1..], path)
  }

  /** `e.find("./" + "/".join(path))`: the first element along the path, or None. */
  function FindPath(e: Element, path: seq<string>): Option<Element>
  {
    var m := PathMatches(e.children, path);
    if m == [] then None else Some(m[0])
  }

  /** `e.find(".//" + tag)`: the first descendant with that tag, or None. */
  function FindFirst(e: Element, tag: string): (r: Option<Element>)
    ensures r.None? <==> forall x :: x in Descendants(e) ==> x.tag != tag
    ensures r.Some? ==> r.value in Descendants(e) && r.value.tag == tag
  {
    var m := FindAll(e, tag);
    if m == [] then None
    else
      assert m[0] in m;
      Some(m[0])
  }

  /** A path of one step finds exactly the children with that tag. */
  lemma {:induction false} OneStepIsChildren(cs: seq<Element>, tag: string)
    ensures PathMatches(cs, [tag]) == TagFilter(cs, tag)
    decreases cs
  {
    if cs != [] {
      OneStepIsChildren(cs[1..], tag);
    }
  }
}
