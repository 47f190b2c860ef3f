/** The parsed XML documents the service walks, as immutable trees. A DOM node is identified
    by its position: the child indices leading to it from the document node, so that the
    parent of a node is the position without its last index. */
module XmlTree {
  import opened Wrappers
  import JavaText

  /** An element with its attributes and children, or a text node. */
  datatype XNode = Element(name: string, attrs: map<string, string>, kids: seq<XNode>)
                 | Text(text: string)

  /** A Document is the node named "#document" with no attributes above the root element. */
  function Document(kids: seq<XNode>): XNode {
    Element("#document", map[], kids)
  }

  type Pos = seq<nat>

  /** Node.getNodeName. */
  function NodeName(n: XNode): string {
    if n.Element? then n.name else "#text"
  }

  /** Node.getNodeValue: the text of a text node, null for an element. */
  function NodeValue(n: XNode): Option<string> {
    if n.Text? then Some(n.text) else None
  }

  /** Node.getFirstChild. */
  function FirstChild(n: XNode): Option<XNode> {
    if n.Element? && n.kids != [] then Some(n.kids[0]) else None
  }

  /** `n.getFirstChild().getNodeValue()` where the first child exists; null when it is absent or
      is not a text node. */
  function FirstChildValue(n: XNode): Option<string> {
    match FirstChild(n)
    case None => None
    case Some(c) => NodeValue(c)
  }

  /** The value of the attribute named `a`; a text node has no attributes. */
  function Attribute(n: XNode, a: string): Option<string> {
    if n.Element? && a in n.attrs then Some(n.attrs[a]) else None
  }

  /** An attribute named `a` with the value "true", as the template marks are written. */
  predicate HasMark(n: XNode, a: string) {
    Attribute(n, a) == Some("true")
  }

  /** XmlUtils.nodeIsTextValueNode: exactly one child, and that child is a text node. */
  predicate IsTextValueNode(n: XNode) {
    n.Element? && |n.kids| == 1 && n.kids[0].Text?
  }

  lemma TextValueNodeHasValue(n: XNode)
    requires IsTextValueNode(n)
    ensures FirstChildValue(n).Some?
  {
  }

  /** The node reached from `root` by following the child indices of `p`, or None when `p`
      leaves the tree. */
  function NodeAt(root: XNode, p: Pos): Option<XNode>
    decreases |p|
  {
    if p == [] then Some(root)
    else if root.Element? && p[0] < |root.kids| then NodeAt(root.kids[p[0]], p[1..])
    else None
  }

  /** Descending one more level is taking a child of the node reached so far. */
  lemma {:induction false} NodeAtChild(root: XNode, p: Pos, i: nat)
    ensures NodeAt(root, p + [i]) ==
      match NodeAt(root, p)
      case Some(n) => if n.Element? && i < |n.kids| then Some(n.kids[i]) else None
      case None => None
    decreases |p|
  {
    if p != [] {
      assert (p + [i])[0] == p[0] && (p + [i])[1..] == p[1..] + [i];
      if root.Element? && p[0] < |root.kids| {
        NodeAtChild(root.kids[p[0]], p[1..], i);
      }
    }
  }

  /** Following `p` and then `q` is following `p + q`. */
  lemma {:induction false} NodeAtAppend(root: XNode, p: Pos, q: Pos)
    ensures NodeAt(root, p + q) ==
      match NodeAt(root, p)
      case Some(n) => NodeAt(n, q)
      case None => None
    decreases |p|
  {
    if p != [] {
      assert (p + q)[0] == p[0] && (p + q)[1..] == p[1..] + q;
      if root.Element? && p[0] < |root.kids| {
        NodeAtAppend(root.kids[p[0]], p[1..], q);
      }
    } else {
      assert p + q == q;
    }
  }

  /** The parent of an existing node sits at the position without the last index, and the node
      is its child there. */
  lemma ParentOfNode(root: XNode, p: Pos)
    requires p != [] && NodeAt(root, p).Some?
    ensures var q := p[..|p| - 1];
      NodeAt(root, q).Some? && NodeAt(root, q).value.Element?
      && p[|p| - 1] < |NodeAt(root, q).value.kids|
      && NodeAt(root, q).value.kids[p[|p| - 1]] == NodeAt(root, p).value
  {
    var q := p[..|p| - 1];
    assert p == q + [p[|p| - 1]];
    NodeAtChild(root, q, p[|p| - 1]);
  }

  /** Node.getParentNode as a position: the document node has no parent. */
  function ParentPos(p: Pos): Option<Pos> {
    if p == [] then None else Some(p[..|p| - 1])
  }

  /** The tree with the node at `p` replaced by `m`. */
  function ReplaceAt(root: XNode, p: Pos, m: XNode): (r: XNode)
    requires NodeAt(root, p).Some?
    ensures NodeAt(r, p) == Some(m)
    decreases |p|
  {
    if p == [] then m
    else
      var c := ReplaceAt(root.kids[p[0]], p[1..], m);
      Element(root.name, root.attrs, root.kids[p[0] := c])
  }

  /** Node.setNodeValue on the first child of the node at `p`, which must be a text node. */
  function SetFirstChildText(root: XNode, p: Pos, v: string): (r: XNode)
    requires NodeAt(root, p).Some? && IsTextValueNode(NodeAt(root, p).value)
    ensures NodeAt(r, p).Some? && IsTextValueNode(NodeAt(r, p).value)
    ensures FirstChildValue(NodeAt(r, p).value) == Some(v)
    ensures NodeName(NodeAt(r, p).value) == NodeName(NodeAt(root, p).value)
  {
    var n := NodeAt(root, p).value;
    ReplaceAt(root, p, Element(n.name, n.attrs, [Text(v)]))
  }

  /** Two trees of the same shape: text where the other has text, and elements with the same
      number of children, pairwise of the same shape. Names, attributes and texts may differ. */
  predicate SameShape(a: XNode, b: XNode) {
    match a
    case Text(_) => b.Text?
    case Element(_, _, kids) =>
      b.Element? && |b.kids| == |kids| && forall i :: 0 <= i < |kids| ==> SameShape(kids[i], b.kids[i])
  }

  lemma {:induction false} SameShapeReflexive(a: XNode)
    ensures SameShape(a, a)
  {
    if a.Element? {
      forall i | 0 <= i < |a.kids| ensures SameShape(a.kids[i], a.kids[i]) {
        SameShapeReflexive(a.kids[i]);
      }
    }
  }

  lemma {:induction false} SameShapeTransitive(a: XNode, b: XNode, c: XNode)
    requires SameShape(a, b) && SameShape(b, c)
    ensures SameShape(a, c)
  {
    if a.Element? {
      forall i | 0 <= i < |a.kids| ensures SameShape(a.kids[i], c.kids[i]) {
        SameShapeTransitive(a.kids[i], b.kids[i], c.kids[i]);
      }
    }
  }

  /** A position that leads to a node in a tree leads to a node in every tree of its shape. */
  lemma {:induction false} SameShapeNodeAt(a: XNode, b: XNode, p: Pos)
    requires SameShape(a, b) && NodeAt(a, p).Some?
    ensures NodeAt(b, p).Some?
    decreases |p|
  {
    if p != [] {
      SameShapeNodeAt(a.kids[p[0]], b.kids[p[0]], p[1..]);
    }
  }

  /** Replacing a node by one of its shape keeps the shape of the whole tree. */
  lemma {:induction false} ReplaceAtSameShape(root: XNode, p: Pos, m: XNode)
    requires NodeAt(root, p).Some? && SameShape(NodeAt(root, p).value, m)
    ensures SameShape(root, ReplaceAt(root, p, m))
    decreases |p|
  {
    if p != [] {
      ReplaceAtSameShape(root.kids[p[0]], p[1..], m);
      var r := ReplaceAt(root, p, m);
      forall i | 0 <= i < |root.kids| ensures SameShape(root.kids[i], r.kids[i]) {
        if i != p[0] {
          SameShapeReflexive(root.kids[i]);
        }
      }
    }
  }

  // ---------------------------------------------------------------------------------------
  // getElementNodesSorted: the element children ordered by name, with a stable sort (the
  // secondary key, the node value, is null for every element and never separates two).

  /** Every entry of `s` is the index of an element child. */
  predicate ElementIndices(kids: seq<XNode>, s: seq<nat>) {
    forall j :: 0 <= j < |s| ==> s[j] < |kids| && kids[s[j]].Element?
  }

  /** The order of a stable sort by name: by name first, then by position among equal names. */
  predicate KeyLess(kids: seq<XNode>, x: nat, y: nat)
    requires x < |kids| && y < |kids| && kids[x].Element? && kids[y].Element?
  {
    JavaText.Less(kids[x].name, kids[y].name) || (kids[x].name == kids[y].name && x < y)
  }

  lemma KeyLessTransitive(kids: seq<XNode>, x: nat, y: nat, z: nat)
    requires x < |kids| && y < |kids| && z < |kids|
    requires kids[x].Element? && kids[y].Element? && kids[z].Element?
    requires KeyLess(kids, x, y) && KeyLess(kids, y, z)
    ensures KeyLess(kids, x, z)
  {
    if JavaText.Less(kids[x].name, kids[y].name) && JavaText.Less(kids[y].name, kids[z].name) {
      JavaText.LessTransitive(kids[x].name, kids[y].name, kids[z].name);
    }
  }

  /** What getElementNodesSorted promises of its result. */
  predicate SortedByName(kids: seq<XNode>, s: seq<nat>)
    requires ElementIndices(kids, s)
  {
    forall a, b :: 0 <= a < b < |s| ==> KeyLess(kids, s[a], s[b])
  }

  lemma {:induction false} ConsSorted(kids: seq<XNode>, h: nat, t: seq<nat>)
    requires h < |kids| && kids[h].Element? && ElementIndices(kids, t)
    requires SortedByName(kids, t)
    requires forall x :: x in t ==> KeyLess(kids, h, x)
    ensures SortedByName(kids, [h] + t)
  {
    var r := [h] + t;
    assert ElementIndices(kids, r);
    forall a, b | 0 <= a < b < |r| ensures KeyLess(kids, r[a], r[b]) {
      if a == 0 {
        assert r[b] == t[b - 1] && t[b - 1] in t;
      } else {
        assert r[a] == t[a - 1] && r[b] == t[b - 1];
      }
    }
  }

  /** Inserts index `i` into `s` before the first index whose node has a greater name. */
  function InsertByName(kids: seq<XNode>, i: nat, s: seq<nat>): (r: seq<nat>)
    requires i < |kids| && kids[i].Element? && ElementIndices(kids, s)
    ensures |r| == |s| + 1 && ElementIndices(kids, r)
  {
    if s == [] then [i]
    else if JavaText.Less(kids[i].name, kids[s[0]].name) then [i] + s
    else [s[0]] + InsertByName(kids, i, s[1..])
  }

  lemma {:induction false} InsertByNameMembers(kids: seq<XNode>, i: nat, s: seq<nat>)
    requires i < |kids| && kids[i].Element? && ElementIndices(kids, s)
    ensures forall x :: x in InsertByName(kids, i, s) <==> x == i || x in s
  {
    if s != [] && !JavaText.Less(kids[i].name, kids[s[0]].name) {
      InsertByNameMembers(kids, i, s[1..]);
      assert s == [s[0]] + s[1..];
    }
  }

  lemma {:induction false} InsertByNameSorted(kids: seq<XNode>, i: nat, s: seq<nat>)
    requires i < |kids| && kids[i].Element? && ElementIndices(kids, s)
    requires forall x :: x in s ==> x < i
    requires SortedByName(kids, s)
    ensures SortedByName(kids, InsertByName(kids, i, s))
  {
    if s == [] {
    } else if JavaText.Less(kids[i].name, kids[s[0]].name) {
      forall x | x in s ensures KeyLess(kids, i, x) {
        var k :| 0 <= k < |s| && s[k] == x;
        if k > 0 {
          KeyLessTransitive(kids, i, s[0], x);
        }
      }
      ConsSorted(kids, i, s);
    } else {
      assert SortedByName(kids, s[1..]) by {
        forall a, b | 0 <= a < b < |s[1..]| ensures KeyLess(kids, s[1..][a], s[1..][b]) {
          assert s[1..][a] == s[a + 1] && s[1..][b] == s[b + 1];
        }
      }
      assert forall x :: x in s[1..] ==> x in s;
      InsertByNameSorted(kids, i, s[1..]);
      InsertByNameMembers(kids, i, s[1..]);
      var t := InsertByName(kids, i, s[1..]);
      assert s[0] in s;
      forall x | x in t ensures KeyLess(kids, s[0], x) {
        if x == i {
          JavaText.LessTotal(kids[i].name, kids[s[0]].name);
        } else {
          var k :| 0 <= k < |s[1..]| && s[1..][k] == x;
          assert s[k + 1] == x;
        }
      }
      ConsSorted(kids, s[0], t);
    }
  }

  /** getElementNodesSorted over the first `n` children, as child indices. */
  function SortedPrefix(kids: seq<XNode>, n: nat): (r: seq<nat>)
    requires n <= |kids|
    ensures ElementIndices(kids, r)
  {
    if n == 0 then []
    else
      var s := SortedPrefix(kids, n - 1);
      var last: nat := n - 1;
      if kids[last].Element? then InsertByName(kids, last, s) else s
  }

  lemma {:induction false} SortedPrefixMembers(kids: seq<XNode>, n: nat)
    requires n <= |kids|
    ensures forall i :: i in SortedPrefix(kids, n) <==> 0 <= i < n && kids[i].Element?
  {
    if n > 0 {
      SortedPrefixMembers(kids, n - 1);
      if kids[n - 1].Element? {
        InsertByNameMembers(kids, n - 1, SortedPrefix(kids, n - 1));
      }
    }
  }

  lemma {:induction false} SortedPrefixSorted(kids: seq<XNode>, n: nat)
    requires n <= |kids|
    ensures SortedByName(kids, SortedPrefix(kids, n))
  {
    if n > 0 {
      SortedPrefixSorted(kids, n - 1);
      if kids[n - 1].Element? {
        SortedPrefixMembers(kids, n - 1);
        InsertByNameSorted(kids, n - 1, SortedPrefix(kids, n - 1));
      }
    }
  }

  /** getElementNodesSorted(n.getChildNodes()) as child indices of `n`: exactly the element
      children. */
  function SortedElementIndices(n: XNode): (r: seq<nat>)
    ensures n.Text? ==> r == []
    ensures n.Element? ==> ElementIndices(n.kids, r)
  {
    if n.Text? then [] else SortedPrefix(n.kids, |n.kids|)
  }

  /** getElementNodesSorted keeps every element child and nothing else. */
  lemma SortedElementIndicesMembers(n: XNode)
    requires n.Element?
    ensures forall i :: i in SortedElementIndices(n) <==> 0 <= i < |n.kids| && n.kids[i].Element?
  {
    SortedPrefixMembers(n.kids, |n.kids|);
  }

  /** getElementNodesSorted lists the element children in name order, keeping document order
      among equal names, and so lists each of them once. */
  lemma SortedElementIndicesSorted(n: XNode)
    requires n.Element?
    ensures SortedByName(n.kids, SortedElementIndices(n))
    ensures forall a, b :: 0 <= a < b < |SortedElementIndices(n)| ==>
      SortedElementIndices(n)[a] != SortedElementIndices(n)[b]
  {
    SortedPrefixSorted(n.kids, |n.kids|);
    var r := SortedElementIndices(n);
    forall a, b | 0 <= a < b < |r| ensures r[a] != r[b] {
      JavaText.LessIrreflexive(n.kids[r[a]].name);
    }
  }
}
