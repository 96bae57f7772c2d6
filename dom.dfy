/** The part of the DOM (as JSDOM builds it) that the extractor touches: a tree of text
    and element nodes, CSS selectors of the shapes the extractor uses, `querySelector`,
    `querySelectorAll`, `getAttribute`, `textContent` and `Element.remove()`.
    Parsing HTML into this tree is JSDOM's business and is a parameter of the extractor. */
module Dom {
  import opened Wrappers
  import JsString

  /** A DOM node. `tag` is the lower-case local name (what `tagName.toLowerCase()` gives);
      `attrs` maps attribute names to values; comments and doctypes are not represented. */
  datatype Node = Text(text: string) | Element(tag: string, attrs: map<string, string>, children: seq<Node>)

  /** One simple selector: `tag`, `.class`, `#id` or `[name="value"]`. */
  datatype Simple = Tag(name: string) | Class(name: string) | Id(name: string) | Attr(name: string, value: string)

  /** A compound selector such as `meta[property="og:image"]`: all parts must hold. */
  type Compound = seq<Simple>

  /** A complex selector: a compound alone, or `ancestor target` (descendant combinator). */
  datatype Selector = Select(target: Compound) | Within(ancestor: Compound, target: Compound)

  /** `element.getAttribute(name)`; `None` is `null`. */
  function GetAttribute(n: Node, name: string): Option<string>
  {
    if n.Element? && name in n.attrs then Some(n.attrs[name]) else None
  }

  /** The HTML standard's ASCII whitespace: tab, line feed, form feed, carriage return
      and space. */
  predicate IsAsciiSpace(c: char)
  {
    c == '\t' || c == '\n' || c == '\U{000C}' || c == '\r' || c == ' '
  }

  /** The tokens of a `class` attribute: its maximal runs of characters that are not
      ASCII whitespace. A no-break space or any other non-ASCII space is part of a token. */
  function ClassNames(s: string): (cs: seq<string>)
    ensures forall k :: 0 <= k < |cs| ==> cs[k] != [] && JsString.Without(cs[k], IsAsciiSpace)
    decreases |s|
  {
    if s == [] then []
    else if IsAsciiSpace(s[0]) then ClassNames(s[1..])
    else
      var n := JsString.PieceLength(s, IsAsciiSpace);
      [s[..n]] + ClassNames(s[n..])
  }

  /** A non-empty text without ASCII whitespace is a single class name. */
  lemma ClassNamesOfToken(s: string)
    requires s != [] && JsString.Without(s, IsAsciiSpace)
    ensures ClassNames(s) == [s]
  {
    assert JsString.PieceLength(s, IsAsciiSpace) == |s|;
    assert s[..|s|] == s && s[|s|..] == [];
  }

  /** A no-break space does not separate class names: two names joined by U+00A0 are one
      class, so neither of them alone matches a class selector through it. */
  lemma NoBreakSpaceJoinsClasses(a: string, b: string)
    requires a != [] && JsString.Without(a, IsAsciiSpace) && JsString.Without(b, IsAsciiSpace)
    ensures ClassNames(a + "\U{00A0}" + b) == [a + "\U{00A0}" + b]
  {
    var s := a + "\U{00A0}" + b;
    assert JsString.Without(s, IsAsciiSpace) by {
      forall i | 0 <= i < |s| ensures !IsAsciiSpace(s[i]) {
        if i < |a| {
          assert s[i] == a[i];
        } else if i > |a| {
          assert s[i] == b[i - |a| - 1];
        }
      }
    }
    ClassNamesOfToken(s);
  }

  predicate MatchesSimple(s: Simple, n: Node)
    requires n.Element?
  {
    match s
    case Tag(t) => n.tag == t
    case Class(c) => "class" in n.attrs && c in ClassNames(n.attrs["class"])
    case Id(i) => "id" in n.attrs && n.attrs["id"] == i
    case Attr(k, v) => k in n.attrs && n.attrs[k] == v
  }

  predicate MatchesCompound(c: Compound, n: Node)
  {
    n.Element? && forall i :: 0 <= i < |c| ==> MatchesSimple(c[i], n)
  }

  /** Matching looks at the tag and the attributes only, never at the children. */
  lemma MatchIgnoresChildren(c: Compound, tag: string, attrs: map<string, string>, a: seq<Node>, b: seq<Node>)
    ensures MatchesCompound(c, Element(tag, attrs, a)) == MatchesCompound(c, Element(tag, attrs, b))
  {
  }

  /** An element together with the chain of its element ancestors, outermost first. */
  datatype Located = Located(ancestors: seq<Node>, node: Node)

  predicate Matches(sel: Selector, loc: Located)
  {
    match sel
    case Select(t) => MatchesCompound(t, loc.node)
    case Within(a, t) =>
      MatchesCompound(t, loc.node) &&
      exists i :: 0 <= i < |loc.ancestors| && MatchesCompound(a, loc.ancestors[i])
  }

  /** A selector list `s1, s2, ...` matches when one of its members does. */
  predicate MatchesAny(sels: seq<Selector>, loc: Located)
  {
    exists i :: 0 <= i < |sels| && Matches(sels[i], loc)
  }

  /** Every element of a forest in document (pre-)order, with its ancestors. */
  function Preorder(nodes: seq<Node>, ancestors: seq<Node>): (r: seq<Located>)
    ensures forall k :: 0 <= k < |r| ==> r[k].node.Element?
    decreases nodes
  {
    if nodes == [] then []
    else
      var here := match nodes[0]
        case Text(_) => []
        case Element(_, _, ch) => [Located(ancestors, nodes[0])] + Preorder(ch, ancestors + [nodes[0]]);
      here + Preorder(nodes[1..], ancestors)
  }

  function KeepMatching(locs: seq<Located>, sels: seq<Selector>): (r: seq<Located>)
    ensures forall k :: 0 <= k < |r| ==> r[k] in locs && MatchesAny(sels, r[k])
    ensures forall k :: 0 <= k < |locs| && MatchesAny(sels, locs[k]) ==> locs[k] in r
    ensures (forall k :: 0 <= k < |locs| ==> !MatchesAny(sels, locs[k])) ==> r == []
  {
    if locs == [] then []
    else if MatchesAny(sels, locs[0]) then [locs[0]] + KeepMatching(locs[1..], sels)
    else KeepMatching(locs[1..], sels)
  }

  /** `document.querySelectorAll(sels)`: the matching elements in document order. */
  function QueryAll(nodes: seq<Node>, sels: seq<Selector>): seq<Located>
  {
    KeepMatching(Preorder(nodes, []), sels)
  }

  /** `document.querySelector(sels)`: the first matching element, or `null`. */
  function QueryFirst(nodes: seq<Node>, sels: seq<Selector>): Option<Located>
  {
    var all := QueryAll(nodes, sels);
    if all == [] then None else Some(all[0])
  }

  /** `element.querySelectorAll(sels)`: matching descendants of the element (not the
      element itself), in document order. */
  function QueryAllWithin(loc: Located, sels: seq<Selector>): seq<Located>
  {
    if loc.node.Element? then KeepMatching(Preorder(loc.node.children, loc.ancestors + [loc.node]), sels)
    else []
  }

  /** `element.querySelector(sels)`. */
  function QueryFirstWithin(loc: Located, sels: seq<Selector>): Option<Located>
  {
    var all := QueryAllWithin(loc, sels);
    if all == [] then None else Some(all[0])
  }

  /** `node.textContent`: the text of every descendant text node, in order. */
  function TextContent(n: Node): string
  {
    match n
    case Text(s) => s
    case Element(_, _, ch) => TextOfAll(ch)
  }

  function TextOfAll(nodes: seq<Node>): string
    decreases nodes
  {
    if nodes == [] then ""
    else
      (match nodes[0] case Text(s) => s case Element(_, _, ch) => TextOfAll(ch)) + TextOfAll(nodes[1..])
  }

  // ---------------------------------------------------------------------------
  // Element.remove() on every match of a selector
  // ---------------------------------------------------------------------------

  /** `parent.querySelectorAll(c).forEach((el) => el.remove())` on the children of a
      parent: every matching element goes, with everything inside it. */
  function Prune(nodes: seq<Node>, c: Compound): (r: seq<Node>)
    ensures |r| <= |nodes|
    decreases nodes
  {
    if nodes == [] then []
    else
      var head := match nodes[0]
        case Text(_) => [nodes[0]]
        case Element(t, a, ch) => if MatchesCompound(c, nodes[0]) then [] else [Element(t, a, Prune(ch, c))];
      head + Prune(nodes[1..], c)
  }

  /** Removing the matches of each selector of a list in turn. */
  function PruneAll(nodes: seq<Node>, cs: seq<Compound>): seq<Node>
  {
    if cs == [] then nodes else Prune(PruneAll(nodes, cs[..|cs| - 1]), cs[|cs| - 1])
  }

  /** No element anywhere in the forest matches `c`. */
  predicate Free(nodes: seq<Node>, c: Compound)
    decreases nodes
  {
    nodes == [] ||
    ((match nodes[0]
      case Text(_) => true
      case Element(_, _, ch) => !MatchesCompound(c, nodes[0]) && Free(ch, c)) &&
     Free(nodes[1..], c))
  }

  lemma FreeConcat(a: seq<Node>, b: seq<Node>, c: Compound)
    requires Free(a, c) && Free(b, c)
    ensures Free(a + b, c)
    decreases a
  {
    if a != [] {
      assert (a + b)[0] == a[0];
      assert (a + b)[1..] == a[1..] + b;
      FreeConcat(a[1..], b, c);
    } else {
      assert a + b == b;
    }
  }

  /** After removal, nothing matching the selector is left. */
  lemma {:induction false} PruneRemovesAll(nodes: seq<Node>, c: Compound)
    ensures Free(Prune(nodes, c), c)
    decreases nodes
  {
    if nodes != [] {
      PruneRemovesAll(nodes[1..], c);
      var head := match nodes[0]
        case Text(_) => [nodes[0]]
        case Element(t, a, ch) => if MatchesCompound(c, nodes[0]) then [] else [Element(t, a, Prune(ch, c))];
      match nodes[0] {
        case Text(_) =>
        case Element(t, a, ch) =>
          PruneRemovesAll(ch, c);
          MatchIgnoresChildren(c, t, a, ch, Prune(ch, c));
      }
      assert Free(head, c);
      FreeConcat(head, Prune(nodes[1..], c), c);
    }
  }

  /** Removal never brings back what an earlier removal took out. */
  lemma {:induction false} PruneKeepsFree(nodes: seq<Node>, c: Compound, other: Compound)
    requires Free(nodes, other)
    ensures Free(Prune(nodes, c), other)
    decreases nodes
  {
    if nodes != [] {
      PruneKeepsFree(nodes[1..], c, other);
      var head := match nodes[0]
        case Text(_) => [nodes[0]]
        case Element(t, a, ch) => if MatchesCompound(c, nodes[0]) then [] else [Element(t, a, Prune(ch, c))];
      match nodes[0] {
        case Text(_) =>
        case Element(t, a, ch) =>
          PruneKeepsFree(ch, c, other);
          MatchIgnoresChildren(other, t, a, ch, Prune(ch, c));
      }
      assert Free(head, other);
      FreeConcat(head, Prune(nodes[1..], c), other);
    }
  }

  /** After removing the matches of every selector of a list, none of them matches
      anything any more. */
  lemma {:induction false} PruneAllRemovesAll(nodes: seq<Node>, cs: seq<Compound>)
    ensures forall k :: 0 <= k < |cs| ==> Free(PruneAll(nodes, cs), cs[k])
  {
    if cs != [] {
      var init := cs[..|cs| - 1];
      PruneAllRemovesAll(nodes, init);
      PruneRemovesAll(PruneAll(nodes, init), cs[|cs| - 1]);
      forall k | 0 <= k < |cs| - 1 ensures Free(PruneAll(nodes, cs), cs[k]) {
        assert cs[k] == init[k];
        PruneKeepsFree(PruneAll(nodes, init), cs[|cs| - 1], cs[k]);
      }
    }
  }

  /** In a forest free of `c`, no element listed in document order matches `c`. */
  lemma {:induction false} FreePreorder(nodes: seq<Node>, ancestors: seq<Node>, c: Compound)
    requires Free(nodes, c)
    ensures forall k :: 0 <= k < |Preorder(nodes, ancestors)| ==>
              !MatchesCompound(c, Preorder(nodes, ancestors)[k].node)
    decreases nodes
  {
    if nodes != [] {
      FreePreorder(nodes[1..], ancestors, c);
      match nodes[0]
      case Text(_) =>
      case Element(_, _, ch) =>
        FreePreorder(ch, ancestors + [nodes[0]], c);
    }
  }

  /** A selector that every match of which also matches `c` finds nothing in a forest
      free of `c`. */
  lemma QueryAllOfFree(nodes: seq<Node>, c: Compound, t: Compound)
    requires Free(nodes, c)
    requires forall n :: MatchesCompound(t, n) ==> MatchesCompound(c, n)
    ensures QueryAll(nodes, [Select(t)]) == []
  {
    FreePreorder(nodes, [], c);
    var locs := Preorder(nodes, []);
    forall k | 0 <= k < |locs| ensures !MatchesAny([Select(t)], locs[k]) {
      assert !MatchesCompound(c, locs[k].node);
    }
  }

  /** Removing what is not there changes nothing. */
  lemma {:induction false} PruneOfFree(nodes: seq<Node>, c: Compound)
    requires Free(nodes, c)
    ensures Prune(nodes, c) == nodes
    decreases nodes
  {
    if nodes != [] {
      PruneOfFree(nodes[1..], c);
      match nodes[0] {
        case Text(_) =>
        case Element(_, _, ch) => PruneOfFree(ch, c);
      }
      assert nodes == [nodes[0]] + nodes[1..];
    }
  }

  lemma {:induction false} PruneAllOfFree(nodes: seq<Node>, cs: seq<Compound>)
    requires forall j :: 0 <= j < |cs| ==> Free(nodes, cs[j])
    ensures PruneAll(nodes, cs) == nodes
  {
    if cs != [] {
      var init := cs[..|cs| - 1];
      forall j | 0 <= j < |init| ensures Free(nodes, init[j]) {
        assert init[j] == cs[j];
      }
      PruneAllOfFree(nodes, init);
      PruneOfFree(nodes, cs[|cs| - 1]);
    }
  }

  /** Below every element of a forest free of `c`, the forest is free of `c` too. */
  lemma {:induction false} FreeBelow(nodes: seq<Node>, ancestors: seq<Node>, c: Compound, k: nat)
    requires Free(nodes, c) && k < |Preorder(nodes, ancestors)|
    ensures Free(Preorder(nodes, ancestors)[k].node.children, c)
    decreases nodes
  {
    match nodes[0]
    case Text(_) =>
      assert Preorder(nodes, ancestors) == Preorder(nodes[1..], ancestors);
      FreeBelow(nodes[1..], ancestors, c, k);
    case Element(_, _, ch) =>
      var inner := Preorder(ch, ancestors + [nodes[0]]);
      var here := [Located(ancestors, nodes[0])] + inner;
      assert Preorder(nodes, ancestors) == here + Preorder(nodes[1..], ancestors);
      if k == 0 {
      } else if k < |here| {
        assert here[k] == inner[k - 1];
        FreeBelow(ch, ancestors + [nodes[0]], c, k - 1);
      } else {
        FreeBelow(nodes[1..], ancestors, c, k - |here|);
      }
  }
}
