/** An abstract XML element tree.  It stands both for the element classes of the
    `musicxml` library that the builder instantiates and for the ElementTree nodes
    the merger parses; serialisation and parsing themselves are not modelled. */
module XmlTree {

  import opened Wrappers

  /** The text content of an element, as given to the library's `value_` argument. */
  datatype Value = NoValue | IntValue(i: int) | Text(s: string)

  datatype Element = Element(tag: string, attrs: map<string, string>, value: Value, children: seq<Element>)

  /** An element with neither attributes nor children. */
  function Leaf(tag: string, v: Value): Element {
    Element(tag, map[], v, [])
  }

  /** An element with children only. */
  function Node(tag: string, children: seq<Element>): Element {
    Element(tag, map[], NoValue, children)
  }

  /** The element with `extra` appended to its children (`add_child` / `append`):
      the tag, attributes and text are kept, the old children stay in front and
      `extra` follows them; appending nothing changes nothing. */
  function WithChildren(e: Element, extra: seq<Element>): (r: Element)
    ensures r.tag == e.tag && r.attrs == e.attrs && r.value == e.value
    ensures |r.children| == |e.children| + |extra|
    ensures r.children[..|e.children|] == e.children && r.children[|e.children|..] == extra
    ensures extra == [] ==> r == e
  {
    e.(children := e.children + extra)
  }

  /** Appending to the children of a plain node gives the node of all the children. */
  lemma NodeWithChildren(tag: string, children: seq<Element>, extra: seq<Element>)
    ensures WithChildren(Node(tag, children), extra) == Node(tag, children + extra)
  {
  }

  /** Index of the first element of `cs` whose tag is `tag` (ElementTree's `find`,
      the library's `get_children_of_type`). */
  function FirstWithTag(cs: seq<Element>, tag: string): (r: Option<nat>)
    ensures r.Some? ==> r.value < |cs| && cs[r.value].tag == tag
    ensures r.Some? ==> forall j :: 0 <= j < r.value ==> cs[j].tag != tag
    ensures r.None? ==> forall j :: 0 <= j < |cs| ==> cs[j].tag != tag
  {
    if cs == [] then None
    else if cs[0].tag == tag then Some(0)
    else match FirstWithTag(cs[1..], tag)
      case None => None
      case Some(k) => Some(k + 1)
  }

  /** The child with tag `tag`, the first one if there are several. */
  function Child(e: Element, tag: string): Option<Element> {
    match FirstWithTag(e.children, tag)
    case None => None
    case Some(k) => Some(e.children[k])
  }

  /** The child at `k` is the one `Child` finds when no earlier child has its tag. */
  lemma ChildAt(e: Element, k: nat, tag: string)
    requires k < |e.children| && e.children[k].tag == tag
    requires forall j :: 0 <= j < k ==> e.children[j].tag != tag
    ensures Child(e, tag) == Some(e.children[k])
    ensures ChildValue(e, tag) == Some(e.children[k].value)
  {
  }

  /** `ChildAt` for a child `body[i]` of children laid out as `front + body + back`. */
  lemma ChildInRun(e: Element, front: seq<Element>, body: seq<Element>, back: seq<Element>, i: nat, tag: string)
    requires e.children == front + body + back
    requires i < |body| && body[i].tag == tag
    requires forall j :: 0 <= j < |front| ==> front[j].tag != tag
    requires forall j :: 0 <= j < i ==> body[j].tag != tag
    ensures Child(e, tag) == Some(body[i])
    ensures ChildValue(e, tag) == Some(body[i].value)
  {
    var o := |front|;
    assert e.children[o + i] == body[i];
    forall j | 0 <= j < o + i ensures e.children[j].tag != tag {
      if j >= o { assert e.children[j] == body[j - o]; } else { assert e.children[j] == front[j]; }
    }
    ChildAt(e, o + i, tag);
  }

  lemma FirstWithTagAt(cs: seq<Element>, k: nat, tag: string)
    requires k < |cs| && cs[k].tag == tag
    requires forall j :: 0 <= j < k ==> cs[j].tag != tag
    ensures FirstWithTag(cs, tag) == Some(k)
  {
  }

  /** An element in front without the tag moves the first one with it up by one. */
  lemma FirstWithTagShift(c: Element, w: seq<Element>, tag: string)
    requires c.tag != tag
    ensures FirstWithTag([c] + w, tag) == match FirstWithTag(w, tag) case None => None case Some(j) => Some(j + 1)
  {
    assert ([c] + w)[1..] == w;
  }

  /** The text content of the child with tag `tag`. */
  function ChildValue(e: Element, tag: string): Option<Value> {
    match Child(e, tag)
    case None => None
    case Some(c) => Some(c.value)
  }

  /** The elements of `cs` whose tag is `tag`, in order (ElementTree's `findall`). */
  function WithTag(cs: seq<Element>, tag: string): seq<Element> {
    if cs == [] then []
    else (if cs[0].tag == tag then [cs[0]] else []) + WithTag(cs[1..], tag)
  }

  /** The elements of `cs` whose tag is not `tag`, in order. */
  function WithoutTag(cs: seq<Element>, tag: string): seq<Element> {
    if cs == [] then []
    else (if cs[0].tag != tag then [cs[0]] else []) + WithoutTag(cs[1..], tag)
  }

  /** `WithTag` keeps exactly the elements with the tag, `WithoutTag` exactly the others. */
  lemma {:induction false} WithTagMembers(cs: seq<Element>, tag: string)
    ensures forall x :: x in WithTag(cs, tag) <==> x in cs && x.tag == tag
    ensures forall x :: x in WithoutTag(cs, tag) <==> x in cs && x.tag != tag
    ensures |WithTag(cs, tag)| <= |cs|
  {
    if cs != [] {
      WithTagMembers(cs[1..], tag);
      assert cs == [cs[0]] + cs[1..];
    }
  }

  /** Number of elements of `cs` with tag `tag`. */
  function CountTag(cs: seq<Element>, tag: string): nat {
    if cs == [] then 0
    else (if cs[0].tag == tag then 1 else 0) + CountTag(cs[1..], tag)
  }

  lemma {:induction false} CountTagConcat(a: seq<Element>, b: seq<Element>, tag: string)
    ensures CountTag(a + b, tag) == CountTag(a, tag) + CountTag(b, tag)
  {
    if a != [] {
      assert (a + b)[1..] == a[1..] + b;
      CountTagConcat(a[1..], b, tag);
    } else {
      assert a + b == b;
    }
  }

  lemma {:induction false} CountTagAbsent(cs: seq<Element>, tag: string)
    requires forall j :: 0 <= j < |cs| ==> cs[j].tag != tag
    ensures CountTag(cs, tag) == 0
  {
    if cs != [] {
      CountTagAbsent(cs[1..], tag);
    }
  }

  /** One element of `cs` carries `tag`, at `k`. */
  lemma CountTagOnce(cs: seq<Element>, k: nat, tag: string)
    requires k < |cs| && cs[k].tag == tag
    requires forall j :: 0 <= j < |cs| && j != k ==> cs[j].tag != tag
    ensures CountTag(cs, tag) == 1
  {
    assert cs == cs[..k] + [cs[k]] + cs[k + 1..];
    CountTagConcat(cs[..k] + [cs[k]], cs[k + 1..], tag);
    CountTagConcat(cs[..k], [cs[k]], tag);
    CountTagAbsent(cs[..k], tag);
    CountTagAbsent(cs[k + 1..], tag);
  }

  /** Every element below the forest `cs`, in document order (pre-order), the
      elements of `cs` included. */
  function Preorder(cs: seq<Element>): seq<Element>
    decreases cs
  {
    if cs == [] then []
    else [cs[0]] + Preorder(cs[0].children) + Preorder(cs[1..])
  }

  /** The descendants of `e` in document order, `e` excluded (the `.//` axis). */
  function Descendants(e: Element): seq<Element> {
    Preorder(e.children)
  }

  lemma PreorderCons(e: Element, rest: seq<Element>)
    ensures Preorder([e] + rest) == [e] + Preorder(e.children) + Preorder(rest)
  {
    assert ([e] + rest)[1..] == rest;
  }

  lemma PreorderSingle(e: Element)
    ensures Preorder([e]) == [e] + Preorder(e.children)
  {
    assert [e][1..] == [];
  }

  /** Elements without children are their own pre-order traversal. */
  lemma {:induction false} PreorderLeaves(cs: seq<Element>)
    requires forall k :: 0 <= k < |cs| ==> cs[k].children == []
    ensures Preorder(cs) == cs
  {
    if cs != [] {
      PreorderLeaves(cs[1..]);
      assert Preorder(cs[0].children) == [];
    }
  }

  lemma WithTagConcat(a: seq<Element>, b: seq<Element>, tag: string)
    ensures WithTag(a + b, tag) == WithTag(a, tag) + WithTag(b, tag)
    ensures WithoutTag(a + b, tag) == WithoutTag(a, tag) + WithoutTag(b, tag)
  {
    WithTagConcatKept(a, b, tag);
    WithTagConcatDropped(a, b, tag);
  }

  lemma {:induction false} WithTagConcatKept(a: seq<Element>, b: seq<Element>, tag: string)
    ensures WithTag(a + b, tag) == WithTag(a, tag) + WithTag(b, tag)
  {
    if a == [] {
      assert a + b == b;
    } else {
      assert (a + b)[0] == a[0] && (a + b)[1..] == a[1..] + b;
      WithTagConcatKept(a[1..], b, tag);
      var h := if a[0].tag == tag then [a[0]] else [];
      assert WithTag(a + b, tag) == h + (WithTag(a[1..], tag) + WithTag(b, tag));
      AppendAssoc(h, WithTag(a[1..], tag), WithTag(b, tag));
    }
  }

  lemma {:induction false} WithTagConcatDropped(a: seq<Element>, b: seq<Element>, tag: string)
    ensures WithoutTag(a + b, tag) == WithoutTag(a, tag) + WithoutTag(b, tag)
  {
    if a == [] {
      assert a + b == b;
    } else {
      assert (a + b)[0] == a[0] && (a + b)[1..] == a[1..] + b;
      WithTagConcatDropped(a[1..], b, tag);
      var h := if a[0].tag != tag then [a[0]] else [];
      assert WithoutTag(a + b, tag) == h + (WithoutTag(a[1..], tag) + WithoutTag(b, tag));
      AppendAssoc(h, WithoutTag(a[1..], tag), WithoutTag(b, tag));
    }
  }

  /** `findall` finds as many elements as carry the tag. */
  lemma {:induction false} WithTagCount(cs: seq<Element>, tag: string)
    ensures |WithTag(cs, tag)| == CountTag(cs, tag)
  {
    if cs != [] {
      WithTagCount(cs[1..], tag);
    }
  }

  lemma {:induction false} WithTagAbsent(cs: seq<Element>, tag: string)
    requires forall j :: 0 <= j < |cs| ==> cs[j].tag != tag
    ensures WithTag(cs, tag) == [] && WithoutTag(cs, tag) == cs && CountTag(cs, tag) == 0
  {
    if cs != [] {
      WithTagAbsent(cs[1..], tag);
      assert cs == [cs[0]] + cs[1..];
    }
  }

  lemma {:induction false} CountTagZero(cs: seq<Element>, tag: string)
    ensures CountTag(cs, tag) == 0 <==> FirstWithTag(cs, tag).None?
  {
    if cs != [] {
      CountTagZero(cs[1..], tag);
    }
  }

  /** The element with `tag` alone finds itself and nothing else. */
  lemma WithTagSingle(e: Element, tag: string)
    requires e.tag == tag
    ensures WithTag([e], tag) == [e] && WithoutTag([e], tag) == [] && CountTag([e], tag) == 1
  {
    assert [e][1..] == [];
  }

  /** Removing the first element with `tag` (ElementTree's `remove` of that child)
      keeps the others in order and leaves one element with the tag fewer. */
  lemma RemoveFirstWithTag(cs: seq<Element>, k: nat, tag: string)
    requires FirstWithTag(cs, tag) == Some(k)
    ensures WithTag(cs, tag) != [] && WithTag(cs, tag)[0] == cs[k]
    ensures WithTag(cs[..k] + cs[k + 1..], tag) == WithTag(cs, tag)[1..]
    ensures WithoutTag(cs[..k] + cs[k + 1..], tag) == WithoutTag(cs, tag)
  {
    var front, back := cs[..k], cs[k + 1..];
    assert cs == (front + [cs[k]]) + back;
    WithTagAbsent(front, tag);
    WithTagSingle(cs[k], tag);
    WithTagConcat(front + [cs[k]], back, tag);
    WithTagConcat(front, [cs[k]], tag);
    WithTagConcat(front, back, tag);
    assert WithTag(front + [cs[k]], tag) == [cs[k]] by {
      assert WithTag(front + [cs[k]], tag) == [] + [cs[k]];
    }
    assert WithoutTag(front + [cs[k]], tag) == WithoutTag(front, tag) by {
      assert WithoutTag(front + [cs[k]], tag) == WithoutTag(front, tag) + [];
    }
    assert WithTag(front + back, tag) == WithTag(back, tag) by {
      assert WithTag(front + back, tag) == [] + WithTag(back, tag);
    }
  }

  /** Nothing has the tag once `findall` finds nothing. */
  lemma WithTagNone(cs: seq<Element>, tag: string)
    requires WithTag(cs, tag) == []
    ensures WithoutTag(cs, tag) == cs
  {
    WithTagCount(cs, tag);
    CountTagZero(cs, tag);
    WithTagAbsent(cs, tag);
  }

  /** Something has the tag when `findall` finds something. */
  lemma WithTagSome(cs: seq<Element>, tag: string)
    requires WithTag(cs, tag) != []
    ensures FirstWithTag(cs, tag).Some?
  {
    WithTagCount(cs, tag);
    CountTagZero(cs, tag);
  }

  /** Every element carries `tag`. */
  predicate AllTagged(cs: seq<Element>, tag: string) {
    forall k :: 0 <= k < |cs| ==> cs[k].tag == tag
  }

  lemma {:induction false} WithTagTagged(cs: seq<Element>, tag: string)
    ensures AllTagged(WithTag(cs, tag), tag)
    ensures forall k :: 0 <= k < |WithoutTag(cs, tag)| ==> WithoutTag(cs, tag)[k].tag != tag
  {
    if cs != [] {
      WithTagTagged(cs[1..], tag);
    }
  }

  /** Elements that all carry `tag` are what `findall` finds. */
  lemma {:induction false} AllTaggedWithTag(cs: seq<Element>, tag: string)
    requires AllTagged(cs, tag)
    ensures WithTag(cs, tag) == cs && WithoutTag(cs, tag) == []
  {
    if cs != [] {
      AllTaggedWithTag(cs[1..], tag);
      assert cs == [cs[0]] + cs[1..];
    }
  }

  /** Dropping the elements with one tag does not change which element with
      another tag comes first. */
  lemma {:induction false} FirstWithTagWithout(cs: seq<Element>, tag: string, other: string)
    requires tag != other && FirstWithTag(cs, tag).Some?
    ensures FirstWithTag(WithoutTag(cs, other), tag).Some?
    ensures WithoutTag(cs, other)[FirstWithTag(WithoutTag(cs, other), tag).value] == cs[FirstWithTag(cs, tag).value]
  {
    var w := WithoutTag(cs[1..], other);
    if cs[0].tag == tag {
      assert WithoutTag(cs, other) == [cs[0]] + w;
      FirstWithTagAt([cs[0]] + w, 0, tag);
    } else {
      var k := FirstWithTag(cs[1..], tag).value;
      assert FirstWithTag(cs, tag) == Some(k + 1);
      FirstWithTagWithout(cs[1..], tag, other);
      var j := FirstWithTag(w, tag).value;
      if cs[0].tag == other {
        assert WithoutTag(cs, other) == w by {
          assert WithoutTag(cs, other) == [] + w;
          assert [] + w == w;
        }
        assert cs[1..][k] == cs[k + 1];
      } else {
        assert WithoutTag(cs, other) == [cs[0]] + w;
        FirstWithTagShift(cs[0], w, tag);
        assert ([cs[0]] + w)[j + 1] == w[j];
        assert cs[1..][k] == cs[k + 1];
      }
    }
  }

  /** Concatenation regroups freely. */
  lemma AppendAssoc<T>(a: seq<T>, b: seq<T>, c: seq<T>)
    ensures a + b + c == a + (b + c)
  {
  }
}
