/**
 * The locator generators of the content script (`getXPath`, `getCSSSelector`,
 * content.ts). A page is a tree of nodes; an element is addressed by the path
 * of `childNodes` indices that leads to it from the root, and two elements are
 * the same object exactly when their paths are equal. The root of a tree is
 * either `document.documentElement` or the top of a detached subtree, whose
 * `parentNode` is null.
 */
module Locators {
  import opened Types
  import opened Seqs
  import opened Strings

  /** A DOM node: an element with the attributes the generators read, or any other node (text, comment). */
  datatype Node =
    | Element(tagName: string, id: string, className: string, name: Option<string>, children: seq<Node>)
    | Other

  /** A node tree; `inDocument` says whether its root is `document.documentElement`. */
  datatype Tree = Tree(root: Node, inDocument: bool)

  /** The node at path `p` below `n`, if the path leads anywhere. */
  function At(n: Node, p: seq<nat>): Option<Node>
  {
    if p == [] then Some(n)
    else
      var q := At(n, p[..|p| - 1]);
      if q.Some? && q.value.Element? && p[|p| - 1] < |q.value.children| then Some(q.value.children[p[|p| - 1]])
      else None
  }

  predicate IsElementAt(n: Node, p: seq<nat>)
  {
    At(n, p).Some? && At(n, p).value.Element?
  }

  /** Number of element siblings before index `i` of `cs` whose tag name is `tag`. */
  function SameTagBefore(cs: seq<Node>, i: nat, tag: string): nat
    requires i <= |cs|
  {
    if i == 0 then 0
    else SameTagBefore(cs, i - 1, tag) + (if cs[i - 1].Element? && cs[i - 1].tagName == tag then 1 else 0)
  }

  /** The `[k]` of an element: one more than the preceding element siblings with its tag name. */
  function Position(cs: seq<Node>, i: nat): nat
    requires i < |cs| && cs[i].Element?
  {
    SameTagBefore(cs, i, cs[i].tagName) + 1
  }

  predicate IsBodyNode(c: Node)
  {
    c.Element? && (c.tagName == "BODY" || c.tagName == "FRAMESET")
  }

  /** `document.body`: the index of the root's first `body` or `frameset` child, or -1. */
  function BodyIndex(root: Node): int
  {
    if root.Element? then FirstWhere(root.children, IsBodyNode) else -1
  }

  /** `getXPath(element)` for the element at path `p` of tree `t`. */
  function XPath(t: Tree, p: seq<nat>): string
    requires IsElementAt(t.root, p)
    decreases |p|
  {
    if t.inDocument && p == [] then "/html"
    else if t.inDocument && |p| == 1 && p[0] == BodyIndex(t.root) then "/html/body"
    else if p == [] then ""
    else
      var parent := p[..|p| - 1];
      var cs := At(t.root, parent).value.children;
      var tag := cs[p[|p| - 1]].tagName;
      if t.inDocument && parent == [] then "/html/" + Lower(tag)
      else ChildPath(XPath(t, parent), tag, Position(cs, p[|p| - 1]))
  }

  /** The template literals of the general case, chosen by the truthiness of the parent's path. */
  function ChildPath(parentPath: string, tag: string, position: nat): string
  {
    if parentPath != "" then parentPath + "/" + Lower(tag) + "[" + NatToString(position) + "]"
    else "/" + Lower(tag) + "[" + NatToString(position) + "]"
  }

  // ---------------------------------------------------------------------------
  // The loops of getXPath

  /**
   * `Array.from(parent.childNodes).filter((node) => node.nodeType === Node.ELEMENT_NODE)`,
   * each sibling given by its index among the child nodes: in order, and all of them.
   */
  function ElementIndices(cs: seq<Node>): (r: seq<nat>)
    ensures forall k :: 0 <= k < |r| ==> r[k] < |cs| && cs[r[k]].Element?
    ensures forall i :: 0 <= i < |cs| && cs[i].Element? ==> i in r
    ensures forall k, l :: 0 <= k < l < |r| ==> r[k] < r[l]
  {
    if cs == [] then []
    else
      var n := |cs| - 1;
      var r := ElementIndices(cs[..n]);
      assert forall k :: 0 <= k < |r| ==> cs[..n][r[k]] == cs[r[k]];
      assert forall i :: 0 <= i < n ==> cs[..n][i] == cs[i];
      r + (if cs[n].Element? then [n] else [])
  }

  /** Indices holding no element do not change the count. */
  lemma {:induction false} SameTagGap(cs: seq<Node>, a: nat, b: nat, tag: string)
    requires a <= b <= |cs|
    requires forall x :: a <= x < b ==> !cs[x].Element?
    ensures SameTagBefore(cs, b, tag) == SameTagBefore(cs, a, tag)
    decreases b - a
  {
    if a < b {
      SameTagGap(cs, a, b - 1, tag);
    }
  }

  /** An index strictly between two neighbours of an increasing sequence is not in it. */
  lemma SortedGap(sibs: seq<nat>, j: nat, x: nat)
    requires forall k, l :: 0 <= k < l < |sibs| ==> sibs[k] < sibs[l]
    requires j + 1 < |sibs| && sibs[j] < x < sibs[j + 1]
    ensures x !in sibs
  {
    forall k | 0 <= k < |sibs|
      ensures sibs[k] != x
    {
      if k < j {
        assert sibs[k] < sibs[j];
      } else if k > j + 1 {
        assert sibs[j + 1] < sibs[k];
      }
    }
  }

  /** An index below the first entry of an increasing sequence is not in it. */
  lemma SortedBelow(sibs: seq<nat>, x: nat)
    requires forall k, l :: 0 <= k < l < |sibs| ==> sibs[k] < sibs[l]
    requires sibs != [] && x < sibs[0]
    ensures x !in sibs
  {
    forall k | 0 < k < |sibs|
      ensures sibs[k] != x
    {
      assert sibs[0] < sibs[k];
    }
  }

  /** From one element sibling to the next, the count grows by the first one's match. */
  lemma SameTagNext(cs: seq<Node>, sibs: seq<nat>, j: nat, tag: string)
    requires sibs == ElementIndices(cs) && j + 1 < |sibs|
    ensures SameTagBefore(cs, sibs[j + 1], tag) ==
      SameTagBefore(cs, sibs[j], tag) + (if cs[sibs[j]].tagName == tag then 1 else 0)
  {
    forall x | sibs[j] + 1 <= x < sibs[j + 1]
      ensures !cs[x].Element?
    {
      SortedGap(sibs, j, x);
    }
    SameTagGap(cs, sibs[j] + 1, sibs[j + 1], tag);
  }

  /** No element sibling precedes the first one. */
  lemma SameTagFirst(cs: seq<Node>, sibs: seq<nat>, tag: string)
    requires sibs == ElementIndices(cs) && sibs != []
    ensures SameTagBefore(cs, sibs[0], tag) == 0
  {
    forall x | 0 <= x < sibs[0]
      ensures !cs[x].Element?
    {
      SortedBelow(sibs, x);
    }
    SameTagGap(cs, 0, sibs[0], tag);
  }

  /**
   * The sibling search of `getXPath`: find the element among its parent's
   * element children, then count the same-tag ones before it.
   */
  method SiblingPosition(cs: seq<Node>, i: nat) returns (position: nat)
    requires i < |cs| && cs[i].Element?
    ensures position == Position(cs, i)
  {
    var siblings := ElementIndices(cs);
    var k := 0;
    while siblings[k] != i
      invariant 0 <= k < |siblings| && i in siblings[k..]
      decreases |siblings| - k
    {
      k := k + 1;
    }
    var tag := cs[i].tagName;
    var sameTagCount := 0;
    SameTagFirst(cs, siblings, tag);
    for j := 0 to k
      invariant sameTagCount == SameTagBefore(cs, siblings[j], tag)
    {
      SameTagNext(cs, siblings, j, tag);
      if cs[siblings[j]].tagName == tag {
        sameTagCount := sameTagCount + 1;
      }
    }
    position := sameTagCount + 1;
  }

  /**
   * `getXPath`: the special cases, then the element's position among its
   * siblings and the parent's path computed recursively.
   */
  method GetXPath(t: Tree, p: seq<nat>) returns (path: string)
    requires IsElementAt(t.root, p)
    ensures path == XPath(t, p)
    decreases |p|
  {
    if t.inDocument && p == [] {
      return "/html";
    }
    if t.inDocument && |p| == 1 && p[0] == BodyIndex(t.root) {
      return "/html/body";
    }
    if p == [] {
      return "";
    }
    var parentPath := p[..|p| - 1];
    var i := p[|p| - 1];
    var cs := At(t.root, parentPath).value.children;
    var element := cs[i];
    if t.inDocument && parentPath == [] {
      return "/html/" + Lower(element.tagName);
    }
    var position := SiblingPosition(cs, i);
    var parentXPath := GetXPath(t, parentPath);
    if parentXPath != "" {
      path := parentXPath + "/" + Lower(element.tagName) + "[" + NatToString(position) + "]";
    } else {
      path := "/" + Lower(element.tagName) + "[" + NatToString(position) + "]";
    }
  }

  // ---------------------------------------------------------------------------
  // What a generated path denotes

  /** One location step `/tag[pos]`: the `pos`-th child element named `tag`. */
  datatype LocStep = LocStep(tag: string, pos: nat)

  /** The steps leading from the root to the element at `p`, one per level. */
  function StepsTo(n: Node, p: seq<nat>): (ss: seq<LocStep>)
    requires IsElementAt(n, p)
    ensures |ss| == |p|
  {
    if p == [] then []
    else
      var parent := p[..|p| - 1];
      var cs := At(n, parent).value.children;
      StepsTo(n, parent) + [LocStep(cs[p[|p| - 1]].tagName, Position(cs, p[|p| - 1]))]
  }

  function RenderStep(s: LocStep): string
  {
    "/" + Lower(s.tag) + "[" + NatToString(s.pos) + "]"
  }

  function Render(ss: seq<LocStep>): string
  {
    if ss == [] then "" else Render(ss[..|ss| - 1]) + RenderStep(ss[|ss| - 1])
  }

  /** Child `j` of `cs` is the element step `s` names. */
  predicate ChildMatches(cs: seq<Node>, j: nat, s: LocStep)
  {
    j < |cs| && cs[j].Element? && cs[j].tagName == s.tag && SameTagBefore(cs, j, s.tag) + 1 == s.pos
  }

  /** Following `steps` from `n`, level by level, can end at path `q`. */
  predicate Selects(n: Node, steps: seq<LocStep>, q: seq<nat>)
    decreases |q|
  {
    |q| == |steps| &&
    (q == [] ||
      var m := |q| - 1;
      Selects(n, steps[..m], q[..m]) && IsElementAt(n, q[..m]) && ChildMatches(At(n, q[..m]).value.children, q[m], steps[m]))
  }

  lemma {:induction false} SameTagBeforeMono(cs: seq<Node>, a: nat, b: nat, tag: string)
    requires a <= b <= |cs|
    ensures SameTagBefore(cs, a, tag) <= SameTagBefore(cs, b, tag)
    decreases b - a
  {
    if a < b {
      SameTagBeforeMono(cs, a, b - 1, tag);
    }
  }

  /** Passing an element named `tag` raises the count. */
  lemma SameTagStrict(cs: seq<Node>, a: nat, b: nat, tag: string)
    ensures a < b <= |cs| && cs[a].Element? && cs[a].tagName == tag ==>
      SameTagBefore(cs, a, tag) < SameTagBefore(cs, b, tag)
  {
    if a < b <= |cs| {
      SameTagBeforeMono(cs, a + 1, b, tag);
    }
  }

  /** Tag name and position single out one element among its siblings. */
  lemma PositionUnique(cs: seq<Node>, i: nat, j: nat, tag: string)
    requires i < |cs| && j < |cs|
    requires cs[i].Element? && cs[i].tagName == tag && cs[j].Element? && cs[j].tagName == tag
    requires SameTagBefore(cs, i, tag) == SameTagBefore(cs, j, tag)
    ensures i == j
  {
    SameTagStrict(cs, i, j, tag);
    SameTagStrict(cs, j, i, tag);
  }

  lemma {:induction false} SelectsOwnPath(n: Node, p: seq<nat>)
    requires IsElementAt(n, p)
    ensures Selects(n, StepsTo(n, p), p)
  {
    if p != [] {
      var m := |p| - 1;
      SelectsOwnPath(n, p[..m]);
      assert StepsTo(n, p)[..m] == StepsTo(n, p[..m]);
    }
  }

  lemma {:induction false} SelectsOnlyOwnPath(n: Node, p: seq<nat>, q: seq<nat>)
    requires IsElementAt(n, p) && Selects(n, StepsTo(n, p), q)
    ensures q == p
  {
    if p != [] {
      var m := |p| - 1;
      assert StepsTo(n, p)[..m] == StepsTo(n, p[..m]);
      SelectsOnlyOwnPath(n, p[..m], q[..m]);
      var cs := At(n, p[..m]).value.children;
      PositionUnique(cs, q[m], p[m], cs[p[m]].tagName);
      assert q == q[..m] + [q[m]] && p == p[..m] + [p[m]];
    }
  }

  /** The steps of an element's path lead to that element and to no other. */
  lemma StepsSelectExactly(n: Node, p: seq<nat>, q: seq<nat>)
    requires IsElementAt(n, p)
    ensures Selects(n, StepsTo(n, p), q) <==> q == p
  {
    SelectsOwnPath(n, p);
    if Selects(n, StepsTo(n, p), q) {
      SelectsOnlyOwnPath(n, p, q);
    }
  }

  lemma RenderSnoc(ss: seq<LocStep>, s: LocStep)
    ensures Render(ss + [s]) == Render(ss) + RenderStep(s)
  {
    assert (ss + [s])[..|ss|] == ss;
  }

  /** A document element's path is never empty; only a detached root gets `""`. */
  lemma XPathEmptyIff(t: Tree, p: seq<nat>)
    requires IsElementAt(t.root, p)
    ensures XPath(t, p) == "" <==> !t.inDocument && p == []
  {
  }

  /** Below the special cases, a level adds one positioned step to the parent's path. */
  lemma XPathStep(t: Tree, p: seq<nat>)
    requires IsElementAt(t.root, p) && p != [] && !(t.inDocument && |p| == 1)
    ensures var m := |p| - 1;
      && IsElementAt(t.root, p[..m])
      && var cs := At(t.root, p[..m]).value.children;
         XPath(t, p) == XPath(t, p[..m]) + RenderStep(LocStep(cs[p[m]].tagName, Position(cs, p[m])))
  {
    var m := |p| - 1;
    var cs := At(t.root, p[..m]).value.children;
    ChildPathIsStep(XPath(t, p[..m]), cs[p[m]].tagName, Position(cs, p[m]));
  }

  /** Both template literals are the parent's path followed by the step: the truthiness test changes nothing. */
  lemma ChildPathIsStep(parentPath: string, tag: string, position: nat)
    ensures ChildPath(parentPath, tag, position) == parentPath + RenderStep(LocStep(tag, position))
  {
    var name := Lower(tag);
    var index := NatToString(position);
    if parentPath != "" {
      TemplateStep(parentPath, name, index);
    } else {
      assert parentPath + RenderStep(LocStep(tag, position)) == RenderStep(LocStep(tag, position));
    }
  }

  /** `${parentPath}/${name}[${index}]` is the parent's path followed by the step. */
  lemma TemplateStep(parentPath: string, name: string, index: string)
    ensures parentPath + "/" + name + "[" + index + "]" == parentPath + ("/" + name + "[" + index + "]")
  {
    ConcatAssoc(parentPath, "/", name);
    ConcatAssoc(parentPath, "/" + name, "[");
    ConcatAssoc(parentPath, "/" + name + "[", index);
    ConcatAssoc(parentPath, "/" + name + "[" + index, "]");
  }

  lemma PrefixOfPrefix<T>(s: seq<T>, m: nat, k: nat)
    requires k <= m <= |s|
    ensures s[..m][..k] == s[..k]
  {
  }

  lemma TailSnoc<T>(s: seq<T>, x: T)
    requires |s| >= 1
    ensures (s + [x])[1..] == s[1..] + [x]
  {
  }

  lemma ConcatAssoc(a: string, b: string, c: string)
    ensures a + b + c == a + (b + c)
  {
  }

  /**
   * Inside a detached subtree every level carries its position: the path is
   * the rendering of the steps from the subtree's root, which select exactly
   * the element there.
   */
  lemma {:induction false} DetachedXPath(t: Tree, p: seq<nat>)
    requires IsElementAt(t.root, p) && !t.inDocument
    ensures XPath(t, p) == Render(StepsTo(t.root, p))
  {
    if p != [] {
      var m := |p| - 1;
      XPathStep(t, p);
      DetachedXPath(t, p[..m]);
      var cs := At(t.root, p[..m]).value.children;
      RenderSnoc(StepsTo(t.root, p[..m]), LocStep(cs[p[m]].tagName, Position(cs, p[m])));
    }
  }

  /**
   * In the document, the path of an element is the path of its ancestor just
   * below `html` (`/html/body`, or `/html/<tag>` without a position) followed
   * by one positioned step per further level.
   */
  lemma {:induction false} DocumentXPath(t: Tree, p: seq<nat>)
    requires IsElementAt(t.root, p) && t.inDocument && |p| >= 1
    ensures IsElementAt(t.root, p[..1])
    ensures XPath(t, p) == XPath(t, p[..1]) + Render(StepsTo(t.root, p)[1..])
  {
    if |p| > 1 {
      var m := |p| - 1;
      XPathStep(t, p);
      DocumentXPath(t, p[..m]);
      PrefixOfPrefix(p, m, 1);
      var cs := At(t.root, p[..m]).value.children;
      var s := LocStep(cs[p[m]].tagName, Position(cs, p[m]));
      var rest := StepsTo(t.root, p[..m])[1..];
      TailSnoc(StepsTo(t.root, p[..m]), s);
      RenderSnoc(rest, s);
      ConcatAssoc(XPath(t, p[..1]), Render(rest), RenderStep(s));
    } else {
      assert p[..1] == p;
    }
  }

  /**
   * A child of `html` gets no position, so when `html` has two `div`
   * children each holding an `input`, the two inputs get the same path
   * (`/html/div/input[1]`), which locates the first of them only.
   */
  lemma ExampleAmbiguousHtmlChild()
    ensures var input := Element("INPUT", "", "", None, []);
      var div := Element("DIV", "", "", None, [input]);
      var t := Tree(Element("HTML", "", "", None, [div, div]), true);
      && IsElementAt(t.root, [0, 0]) && IsElementAt(t.root, [1, 0])
      && XPath(t, [0, 0]) == XPath(t, [1, 0])
  {
    var input := Element("INPUT", "", "", None, []);
    var div := Element("DIV", "", "", None, [input]);
    var t := Tree(Element("HTML", "", "", None, [div, div]), true);
    assert [0, 0][..1] == [0] && [1, 0][..1] == [1];
    assert [0][..0] == [] && [1][..0] == [];
    assert At(t.root, [0]) == Some(div) && At(t.root, [1]) == Some(div);
    assert At(t.root, [0, 0]) == Some(input) && At(t.root, [1, 0]) == Some(input);
    assert BodyIndex(t.root) == -1;
    assert XPath(t, [0]) == XPath(t, [1]);
  }

  // ---------------------------------------------------------------------------
  // getCSSSelector

  /** The space-separated parts of `className` that are not blank (`.filter((c) => c.trim())`). */
  function ClassTokens(className: string): seq<string>
  {
    Filter(Split(className, ' '), (c: string) => !IsBlank(c))
  }

  /** `.map((c) => "." + c).join("")`. */
  function ClassSelectors(tokens: seq<string>): string
  {
    if tokens == [] then "" else "." + tokens[0] + ClassSelectors(tokens[1..])
  }

  /** `getCSSSelector(element)`: the id, else the classes, else the `name` attribute, else the tag. */
  function CssSelector(e: Node): string
    requires e.Element?
  {
    if e.id != "" then "#" + e.id
    else
      var classes := if e.className != "" then ClassSelectors(ClassTokens(e.className)) else "";
      if classes != "" then Lower(e.tagName) + classes
      else if e.name.Some? && e.name.value != "" then Lower(e.tagName) + "[name=\"" + e.name.value + "\"]"
      else Lower(e.tagName)
  }

  lemma {:induction false} ClassSelectorsEmpty(tokens: seq<string>)
    ensures ClassSelectors(tokens) == "" <==> tokens == []
    ensures tokens != [] ==> ClassSelectors(tokens)[0] == '.'
  {
  }

  /**
   * The class part is there exactly when some space-separated part of
   * `className` is not blank, and the parts it lists are exactly those; an
   * empty `className` has none, so its truthiness test decides nothing.
   */
  lemma ClassPartSpec(className: string)
    ensures ClassSelectors(ClassTokens(className)) != "" <==>
      exists c :: c in Split(className, ' ') && !IsBlank(c)
    ensures forall c :: c in ClassTokens(className) <==> c in Split(className, ' ') && !IsBlank(c)
    ensures className == "" ==> ClassTokens(className) == []
  {
    var tokens := ClassTokens(className);
    ClassSelectorsEmpty(tokens);
    if tokens != [] {
      assert tokens[0] in tokens;
    }
    if exists c :: c in Split(className, ' ') && !IsBlank(c) {
      var c :| c in Split(className, ' ') && !IsBlank(c);
      assert c in tokens;
    }
    if className == "" {
      assert Split(className, ' ') == [""];
      FilterKeepsNone(Split(className, ' '), (c: string) => !IsBlank(c));
    }
  }

  /**
   * The priority of `getCSSSelector`: a non-empty id always wins; otherwise
   * the non-blank classes after the lower-cased tag; otherwise a truthy `name`
   * attribute; otherwise the bare lower-cased tag.
   */
  lemma CssSelectorPriority(e: Node)
    requires e.Element?
    ensures var r := CssSelector(e);
      var tokens := ClassTokens(e.className);
      && (e.id != "" ==> r == "#" + e.id)
      && (e.id == "" && tokens != [] ==> r == Lower(e.tagName) + ClassSelectors(tokens))
      && (e.id == "" && tokens == [] && e.name.Some? && e.name.value != "" ==>
            r == Lower(e.tagName) + "[name=\"" + e.name.value + "\"]")
      && (e.id == "" && tokens == [] && (e.name.None? || e.name.value == "") ==> r == Lower(e.tagName))
  {
    ClassPartSpec(e.className);
  }

  /** With a tag that does not start with `#` (no HTML tag does), the result starts with `#` exactly when the id is used. */
  lemma CssSelectorIdIff(e: Node)
    requires e.Element? && (e.tagName == "" || e.tagName[0] != '#')
    ensures var r := CssSelector(e);
      e.id != "" <==> (r != "" && r[0] == '#')
  {
  }
}
