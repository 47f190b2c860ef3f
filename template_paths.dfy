/** XmlUtils.getTemplatePathsFromNode: compiles a marked-up template into the map from the path
    of every client attribute to the template element that describes it. */
module TemplatePaths {
  import opened Wrappers
  import opened PathNodes
  import opened XmlPaths
  import opened XmlTree
  import opened XmlMarks
  import opened DynamicPaths

  /** The entries of `s` whose nodes pass `keep`, in order (the stream filters of the source). */
  function Filter(kids: seq<XNode>, s: seq<nat>, keep: XNode -> bool): (r: seq<nat>)
    requires forall j :: 0 <= j < |s| ==> s[j] < |kids|
    ensures forall j :: 0 <= j < |r| ==> r[j] < |kids| && keep(kids[r[j]])
  {
    if s == [] then []
    else
      var t := Filter(kids, s[..|s| - 1], keep);
      if keep(kids[s[|s| - 1]]) then t + [s[|s| - 1]] else t
  }

  lemma {:induction false} FilterMembers(kids: seq<XNode>, s: seq<nat>, keep: XNode -> bool)
    requires forall j :: 0 <= j < |s| ==> s[j] < |kids|
    ensures forall x :: x in Filter(kids, s, keep) <==> x in s && keep(kids[x])
  {
    if s != [] {
      FilterMembers(kids, s[..|s| - 1], keep);
      assert s == s[..|s| - 1] + [s[|s| - 1]];
    }
  }

  /** Filtering twice with the second test stronger than the first is filtering once. */
  lemma {:induction false} FilterFilter(kids: seq<XNode>, s: seq<nat>, k1: XNode -> bool, k2: XNode -> bool)
    requires forall j :: 0 <= j < |s| ==> s[j] < |kids|
    requires forall j :: 0 <= j < |s| ==> k2(kids[s[j]]) ==> k1(kids[s[j]])
    ensures Filter(kids, Filter(kids, s, k1), k2) == Filter(kids, s, k2)
  {
    if s != [] {
      FilterFilter(kids, s[..|s| - 1], k1, k2);
      var t := Filter(kids, s[..|s| - 1], k1);
      if k1(kids[s[|s| - 1]]) {
        assert (t + [s[|s| - 1]])[..|t|] == t;
      }
    }
  }

  /** List.removeAll: the entries of `s` that are not in `t`, in order. */
  function Without(s: seq<nat>, t: seq<nat>): (r: seq<nat>)
    ensures |r| <= |s|
  {
    if s == [] then []
    else
      var u := Without(s[..|s| - 1], t);
      if s[|s| - 1] in t then u else u + [s[|s| - 1]]
  }

  /** Removing the entries of `t` is keeping those that pass `keep`, when `t` holds exactly the
      entries of `s` that fail it. */
  lemma {:induction false} WithoutIsFilter(kids: seq<XNode>, s: seq<nat>, t: seq<nat>, keep: XNode -> bool)
    requires forall j :: 0 <= j < |s| ==> s[j] < |kids|
    requires forall j :: 0 <= j < |s| ==> (s[j] in t <==> !keep(kids[s[j]]))
    ensures Without(s, t) == Filter(kids, s, keep)
  {
    if s != [] {
      WithoutIsFilter(kids, s[..|s| - 1], t, keep);
    }
  }

  predicate IsOther(c: XNode) {
    c.Element? && !NodeHasPathMark(c) && !NodeHasClientAttributeMark(c)
  }

  predicate NotPathMarked(c: XNode) {
    !NodeHasPathMark(c)
  }

  /** The path-marked element children, in sorted order. */
  function PathChildren(n: XNode): (r: seq<nat>)
    requires n.Element?
    ensures forall j :: 0 <= j < |r| ==> r[j] < |n.kids| && NodeHasPathMark(n.kids[r[j]])
  {
    Filter(n.kids, SortedElementIndices(n), NodeHasPathMark)
  }

  /** The clientAttribute-marked element children, in sorted order. */
  function ClientAttrChildren(n: XNode): (r: seq<nat>)
    requires n.Element?
    ensures forall j :: 0 <= j < |r| ==> r[j] < |n.kids| && NodeHasClientAttributeMark(n.kids[r[j]])
  {
    Filter(n.kids, SortedElementIndices(n), NodeHasClientAttributeMark)
  }

  /** The element children with neither mark, in sorted order: what is left of the sorted
      children once both marked lists are removed. */
  function OtherChildren(n: XNode): (r: seq<nat>)
    requires n.Element?
    ensures forall j :: 0 <= j < |r| ==> r[j] < |n.kids| && IsOther(n.kids[r[j]])
  {
    Filter(n.kids, SortedElementIndices(n), IsOther)
  }

  lemma ChildListsMembers(n: XNode)
    requires n.Element?
    ensures forall x :: x in PathChildren(n) <==> 0 <= x < |n.kids| && n.kids[x].Element? && NodeHasPathMark(n.kids[x])
    ensures forall x :: x in ClientAttrChildren(n) <==> 0 <= x < |n.kids| && n.kids[x].Element? && NodeHasClientAttributeMark(n.kids[x])
    ensures forall x :: x in OtherChildren(n) <==> 0 <= x < |n.kids| && IsOther(n.kids[x])
  {
    SortedElementIndicesMembers(n);
    FilterMembers(n.kids, SortedElementIndices(n), NodeHasPathMark);
    FilterMembers(n.kids, SortedElementIndices(n), NodeHasClientAttributeMark);
    FilterMembers(n.kids, SortedElementIndices(n), IsOther);
  }

  /** The two removeAll calls of the source leave exactly OtherChildren(n). */
  lemma RemoveMarkedIsOther(n: XNode)
    requires n.Element?
    ensures Without(Without(SortedElementIndices(n), PathChildren(n)), ClientAttrChildren(n)) == OtherChildren(n)
  {
    var s := SortedElementIndices(n);
    ChildListsMembers(n);
    WithoutIsFilter(n.kids, s, PathChildren(n), NotPathMarked);
    var w := Filter(n.kids, s, NotPathMarked);
    FilterMembers(n.kids, s, NotPathMarked);
    forall j | 0 <= j < |w| ensures n.kids[w[j]].Element? {
      assert w[j] in w;
    }
    WithoutIsFilter(n.kids, w, ClientAttrChildren(n), IsOther);
    FilterFilter(n.kids, s, NotPathMarked, IsOther);
  }

  /** The fingerprint child a path-marked element contributes: CHILD_NODE with its text when it
      holds a single text, CHILD_NODE_DYNAMIC without a value otherwise. */
  function FingerprintChild(c: XNode): (r: PathNode)
    ensures r.name == NodeName(c) && TemplateChildShape(r)
    ensures r.kind == ChildNode <==> IsTextValueNode(c)
    ensures r.kind == ChildNode ==> r.value == FirstChildValue(c)
  {
    if IsTextValueNode(c) then WithValue(ChildNode, NodeName(c), FirstChildValue(c))
    else Named(ChildNodeDynamic, NodeName(c))
  }

  function Fingerprint(kids: seq<XNode>, s: seq<nat>): (r: seq<PathNode>)
    requires forall j :: 0 <= j < |s| ==> s[j] < |kids|
    ensures |r| == |s| && forall j :: 0 <= j < |s| ==> r[j] == FingerprintChild(kids[s[j]])
  {
    seq(|s|, j requires 0 <= j < |s| => FingerprintChild(kids[s[j]]))
  }

  /** The step an element adds to the path: NODE_WITH_CHILDREN with the fingerprint of its
      path-marked children when it has any, NODE otherwise. */
  function ParentStep(n: XNode): PathNode
    requires n.Element?
  {
    var marked := PathChildren(n);
    if marked != [] then WithChildren(NodeWithChildren, n.name, Fingerprint(n.kids, marked))
    else Named(Node, n.name)
  }

  lemma ParentStepShape(n: XNode)
    requires n.Element?
    ensures var e := ParentStep(n);
      e.name == n.name && TemplateStep(e)
      && (e.kind == NodeWithChildren <==> PathChildren(n) != [])
      && (e.kind == NodeWithChildren ==> e.childNodes == List(Fingerprint(n.kids, PathChildren(n))))
      && (e.kind != NodeWithChildren ==> e == Named(Node, n.name))
  {
  }

  /** The puts for the first `k` client-attribute children listed in `s`, in order: the later
      of two equally named children wins. */
  function ClientAttrEntries(current: Path, n: XNode, pos: Pos, s: seq<nat>, k: nat): map<Path, Pos>
    requires n.Element? && k <= |s| && forall j :: 0 <= j < |s| ==> s[j] < |n.kids|
  {
    if k == 0 then map[]
    else
      var i := s[k - 1];
      ClientAttrEntries(current, n, pos, s, k - 1)[current + [Named(Node, NodeName(n.kids[i]))] := pos + [i]]
  }

  /** The putAll of the maps compiled from the first `k` children listed in `s`, in order. */
  function ChildEntries(current: Path, n: XNode, pos: Pos, s: seq<nat>, k: nat): map<Path, Pos>
    requires n.Element? && k <= |s| && forall j :: 0 <= j < |s| ==> s[j] < |n.kids|
    decreases n, 0, k
  {
    if k == 0 then map[]
    else
      var i := s[k - 1];
      ChildEntries(current, n, pos, s, k - 1) + TemplatePaths(current, n.kids[i], pos + [i])
  }

  /** getTemplatePathsFromNode(pathToParent, n) with the template element at `pos`: the values
      are the positions of the client-attribute elements. */
  function TemplatePaths(pathToParent: Path, n: XNode, pos: Pos): (r: map<Path, Pos>)
    ensures !n.Element? ==> r == map[]
    decreases n, 1
  {
    if !n.Element? then map[]
    else
      var current := pathToParent + [ParentStep(n)];
      var attrs := ClientAttrChildren(n);
      var others := OtherChildren(n);
      ClientAttrEntries(current, n, pos, attrs, |attrs|) + ChildEntries(current, n, pos, others, |others|)
  }

  /** What every entry of TemplatePaths(P, n, pos) satisfies once the prefixes P and pos are
      stripped: the key suffix `ks` starts with a template-shaped step named after `n`, the
      position suffix `vs` starts with the index of a child of `n`, and the rest is a ChildEntry
      of that child. */
  predicate Entry(n: XNode, ks: Path, vs: Pos)
    decreases n, 0
  {
    n.Element? && |ks| >= 2 && |vs| >= 1 && TemplateStep(ks[0]) && ks[0].name == n.name && vs[0] < |n.kids|
    && ChildEntry(n.kids[vs[0]], ks[1..], vs[1..])
  }

  /** Either `c` itself is the clientAttribute-marked leaf, whose step is a plain NODE of its
      name, or `c` is an element with neither mark and the entry continues below it. */
  predicate ChildEntry(c: XNode, ks: Path, vs: Pos)
    decreases c, 1
  {
    if vs == [] then NodeHasClientAttributeMark(c) && ks == [Named(Node, NodeName(c))]
    else c.Element? && !NodeHasPathMark(c) && !NodeHasClientAttributeMark(c) && Entry(c, ks, vs)
  }

  /** The entry (k, v) of TemplatePaths(P, n, pos) is well formed: it extends P and pos by an
      Entry of `n`. */
  predicate ValidEntry(P: Path, n: XNode, pos: Pos, k: Path, v: Pos) {
    |k| >= |P| && k[..|P|] == P && |v| >= |pos| && v[..|pos|] == pos && Entry(n, k[|P|..], v[|pos|..])
  }

  /** The steps the source adds for an element are template-shaped and carry its name. */
  predicate StepOf(step: PathNode, n: XNode) {
    TemplateStep(step) && step.name == NodeName(n)
  }

  lemma {:induction false} ClientAttrEntriesValid(P: Path, step: PathNode, n: XNode, pos: Pos, s: seq<nat>, t: nat)
    requires n.Element? && StepOf(step, n) && t <= |s| && forall j :: 0 <= j < |s| ==> s[j] < |n.kids|
    requires forall j :: 0 <= j < |s| ==> NodeHasClientAttributeMark(n.kids[s[j]])
    ensures forall k :: k in ClientAttrEntries(P + [step], n, pos, s, t) ==>
      ValidEntry(P, n, pos, k, ClientAttrEntries(P + [step], n, pos, s, t)[k])
      && |ClientAttrEntries(P + [step], n, pos, s, t)[k]| == |pos| + 1 && |k| == |P| + 2
  {
    if t > 0 {
      ClientAttrEntriesValid(P, step, n, pos, s, t - 1);
      var i := s[t - 1];
      var k := P + [step] + [Named(Node, NodeName(n.kids[i]))];
      var v := pos + [i];
      assert k[..|P|] == P && k[|P|..] == [step, Named(Node, NodeName(n.kids[i]))];
      assert v[..|pos|] == pos && v[|pos|..] == [i];
      assert ChildEntry(n.kids[i], [Named(Node, NodeName(n.kids[i]))], []);
      assert ValidEntry(P, n, pos, k, v);
      var before := ClientAttrEntries(P + [step], n, pos, s, t - 1);
      var m := ClientAttrEntries(P + [step], n, pos, s, t);
      assert m == before[k := v];
      forall k' | k' in m ensures ValidEntry(P, n, pos, k', m[k']) && |m[k']| == |pos| + 1 && |k'| == |P| + 2 {
        if k' == k { assert m[k'] == v; } else { assert m[k'] == before[k']; }
      }
    }
  }

  /** Lifts an entry of unmarked element child `i` of `n` to an entry of `n`. */
  lemma LiftEntry(P: Path, step: PathNode, n: XNode, pos: Pos, i: nat, k: Path, v: Pos)
    requires n.Element? && StepOf(step, n) && i < |n.kids| && IsOther(n.kids[i])
    requires ValidEntry(P + [step], n.kids[i], pos + [i], k, v)
    ensures ValidEntry(P, n, pos, k, v) && |v| > |pos| + 1 && |k| > |P| + 2
  {
    var Q := P + [step];
    var ks := k[|P|..];
    var vs := v[|pos|..];
    assert k[..|P|] == k[..|Q|][..|P|];
    assert ks[0] == k[..|Q|][|P|];
    assert ks[1..] == k[|Q|..];
    assert v[..|pos|] == v[..|pos| + 1][..|pos|];
    assert vs[0] == v[..|pos| + 1][|pos|];
    assert vs[1..] == v[|pos| + 1..];
    assert ChildEntry(n.kids[i], ks[1..], vs[1..]);
  }

  lemma LiftEntries(P: Path, step: PathNode, n: XNode, pos: Pos, i: nat, sub: map<Path, Pos>)
    requires n.Element? && StepOf(step, n) && i < |n.kids| && IsOther(n.kids[i])
    requires forall k :: k in sub ==> ValidEntry(P + [step], n.kids[i], pos + [i], k, sub[k])
    ensures forall k :: k in sub ==> ValidEntry(P, n, pos, k, sub[k]) && |sub[k]| > |pos| + 1 && |k| > |P| + 2
  {
    forall k | k in sub ensures ValidEntry(P, n, pos, k, sub[k]) && |sub[k]| > |pos| + 1 && |k| > |P| + 2 {
      LiftEntry(P, step, n, pos, i, k, sub[k]);
    }
  }

  /** A union of two maps of lifted entries is a map of lifted entries. */
  lemma UnionValid(P: Path, n: XNode, pos: Pos, a: map<Path, Pos>, b: map<Path, Pos>)
    requires forall k :: k in a ==> ValidEntry(P, n, pos, k, a[k]) && |a[k]| > |pos| + 1 && |k| > |P| + 2
    requires forall k :: k in b ==> ValidEntry(P, n, pos, k, b[k]) && |b[k]| > |pos| + 1 && |k| > |P| + 2
    ensures forall k :: k in a + b ==> ValidEntry(P, n, pos, k, (a + b)[k]) && |(a + b)[k]| > |pos| + 1 && |k| > |P| + 2
  {
    forall k | k in a + b ensures ValidEntry(P, n, pos, k, (a + b)[k]) && |(a + b)[k]| > |pos| + 1 && |k| > |P| + 2 {
      if k in b { assert (a + b)[k] == b[k]; } else { assert (a + b)[k] == a[k]; }
    }
  }

  /** The entries compiled from the unmarked element child `i`, lifted to entries of `n`. */
  lemma ChildSubValid(P: Path, step: PathNode, n: XNode, pos: Pos, i: nat)
    requires n.Element? && StepOf(step, n) && i < |n.kids| && IsOther(n.kids[i])
    ensures forall k :: k in TemplatePaths(P + [step], n.kids[i], pos + [i]) ==>
      ValidEntry(P, n, pos, k, TemplatePaths(P + [step], n.kids[i], pos + [i])[k])
      && |TemplatePaths(P + [step], n.kids[i], pos + [i])[k]| > |pos| + 1 && |k| > |P| + 2
    decreases n, 0, 0
  {
    TemplatePathsValid(P + [step], n.kids[i], pos + [i]);
    LiftEntries(P, step, n, pos, i, TemplatePaths(P + [step], n.kids[i], pos + [i]));
  }

  lemma {:induction false} ChildEntriesValid(P: Path, step: PathNode, n: XNode, pos: Pos, s: seq<nat>, t: nat)
    requires n.Element? && StepOf(step, n) && t <= |s| && forall j :: 0 <= j < |s| ==> s[j] < |n.kids|
    requires forall j :: 0 <= j < |s| ==> IsOther(n.kids[s[j]])
    ensures forall k :: k in ChildEntries(P + [step], n, pos, s, t) ==>
      ValidEntry(P, n, pos, k, ChildEntries(P + [step], n, pos, s, t)[k])
      && |ChildEntries(P + [step], n, pos, s, t)[k]| > |pos| + 1 && |k| > |P| + 2
    decreases n, 0, t
  {
    hide TemplatePaths, ValidEntry, Entry;
    if t > 0 {
      ChildEntriesValid(P, step, n, pos, s, t - 1);
      ChildSubValid(P, step, n, pos, s[t - 1]);
      UnionValid(P, n, pos, ChildEntries(P + [step], n, pos, s, t - 1), TemplatePaths(P + [step], n.kids[s[t - 1]], pos + [s[t - 1]]));
    }
  }

  /** A union of two maps of entries of `n` is a map of entries of `n`. */
  lemma UnionValidEntries(P: Path, n: XNode, pos: Pos, a: map<Path, Pos>, b: map<Path, Pos>)
    requires forall k :: k in a ==> ValidEntry(P, n, pos, k, a[k])
    requires forall k :: k in b ==> ValidEntry(P, n, pos, k, b[k])
    ensures forall k :: k in a + b ==> ValidEntry(P, n, pos, k, (a + b)[k])
  {
    forall k | k in a + b ensures ValidEntry(P, n, pos, k, (a + b)[k]) {
      if k in b { assert (a + b)[k] == b[k]; } else { assert (a + b)[k] == a[k]; }
    }
  }

  /** Every entry getTemplatePathsFromNode produces is well formed. */
  lemma {:induction false} TemplatePathsValid(P: Path, n: XNode, pos: Pos)
    ensures forall k :: k in TemplatePaths(P, n, pos) ==> ValidEntry(P, n, pos, k, TemplatePaths(P, n, pos)[k])
    decreases n, 1
  {
    if n.Element? {
      ParentStepIsTemplateStep(n);
      ClientAttrEntriesValid(P, ParentStep(n), n, pos, ClientAttrChildren(n), |ClientAttrChildren(n)|);
      ChildEntriesValid(P, ParentStep(n), n, pos, OtherChildren(n), |OtherChildren(n)|);
      UnionValidEntries(P, n, pos,
        ClientAttrEntries(P + [ParentStep(n)], n, pos, ClientAttrChildren(n), |ClientAttrChildren(n)|),
        ChildEntries(P + [ParentStep(n)], n, pos, OtherChildren(n), |OtherChildren(n)|));
    }
  }

  lemma ParentStepIsTemplateStep(n: XNode)
    requires n.Element?
    ensures TemplateStep(ParentStep(n)) && ParentStep(n).name == n.name
  {
    var marked := PathChildren(n);
    if marked != [] {
      var e := ParentStep(n);
      assert e.childNodes.items == Fingerprint(n.kids, marked);
    }
  }

  /** An entry's key holds one template-shaped step per element from `n` down to the leaf. */
  lemma {:induction false} EntryShape(n: XNode, ks: Path, vs: Pos)
    requires Entry(n, ks, vs)
    ensures |ks| == |vs| + 1 && TemplateShaped(ks)
    decreases n
  {
    var c := n.kids[vs[0]];
    if |vs| == 1 {
      assert ks == [ks[0]] + ks[1..];
    } else {
      EntryShape(c, ks[1..], vs[1..]);
      forall j | 1 <= j < |ks| ensures TemplateStep(ks[j]) {
        assert ks[j] == ks[1..][j - 1];
      }
    }
  }

  /** An entry leads to the clientAttribute-marked element whose name ends the key. */
  lemma {:induction false} EntryLeaf(n: XNode, ks: Path, vs: Pos)
    requires Entry(n, ks, vs)
    ensures NodeAt(n, vs).Some? && NodeHasClientAttributeMark(NodeAt(n, vs).value)
    ensures ks[|ks| - 1] == Named(Node, NodeName(NodeAt(n, vs).value))
    decreases n
  {
    var c := n.kids[vs[0]];
    assert NodeAt(n, vs) == NodeAt(c, vs[1..]);
    if |vs| > 1 {
      EntryLeaf(c, ks[1..], vs[1..]);
      assert ks[|ks| - 1] == ks[1..][|ks[1..]| - 1];
    }
  }

  /** What a well-formed entry (k, v) of TemplatePaths(P, n, pos) amounts to: k is P followed by
      a template-shaped path, which createTemplateDynamicPath leaves unchanged, and v is the
      position of a clientAttribute-marked element whose name ends the key. */
  lemma ValidEntryFacts(P: Path, n: XNode, pos: Pos, k: Path, v: Pos)
    requires ValidEntry(P, n, pos, k, v)
    ensures |k| >= |P| + 2 && k[..|P|] == P && |v| == |pos| + |k| - |P| - 1 && v[..|pos|] == pos
    ensures TemplateShaped(k[|P|..]) && CreateTemplateDynamicPath(k[|P|..]) == k[|P|..]
    ensures NodeAt(n, v[|pos|..]).Some? && NodeHasClientAttributeMark(NodeAt(n, v[|pos|..]).value)
    ensures k[|k| - 1] == Named(Node, NodeName(NodeAt(n, v[|pos|..]).value))
  {
    EntryShape(n, k[|P|..], v[|pos|..]);
    EntryLeaf(n, k[|P|..], v[|pos|..]);
    TemplateShapedIsFixpoint(k[|P|..]);
    assert k[|k| - 1] == k[|P|..][|k[|P|..]| - 1];
  }

  lemma {:induction false} ClientAttrKeysPresent(current: Path, n: XNode, pos: Pos, s: seq<nat>, t: nat, j: nat)
    requires n.Element? && t <= |s| && forall j :: 0 <= j < |s| ==> s[j] < |n.kids|
    requires j < t
    ensures current + [Named(Node, NodeName(n.kids[s[j]]))] in ClientAttrEntries(current, n, pos, s, t)
  {
    if j < t - 1 {
      ClientAttrKeysPresent(current, n, pos, s, t - 1, j);
    }
  }

  /** A clientAttribute entry is never overwritten by the longer keys compiled from deeper
      children. */
  lemma UnionKeepsShortKey(a: map<Path, Pos>, b: map<Path, Pos>, k: Path, len: nat)
    requires k in a && |k| == len && forall k' :: k' in b ==> |k'| > len
    ensures k in a + b && (a + b)[k] == a[k]
  {
  }

  /** What a one-level entry of `n` says about its clientAttribute child. */
  lemma ClientAttrLeaf(P: Path, n: XNode, pos: Pos, k: Path, v: Pos)
    requires ValidEntry(P, n, pos, k, v) && |v| == |pos| + 1 && |k| == |P| + 2
    ensures v[..|pos|] == pos && n.Element? && v[|pos|] < |n.kids|
    ensures NodeHasClientAttributeMark(n.kids[v[|pos|]]) && k[|P| + 1] == Named(Node, NodeName(n.kids[v[|pos|]]))
  {
    var ks := k[|P|..];
    var vs := v[|pos|..];
    assert Entry(n, ks, vs);
    assert vs[0] == v[|pos|] && vs[1..] == [];
    assert ks[1..] == [k[|P| + 1]];
    assert ChildEntry(n.kids[vs[0]], ks[1..], vs[1..]);
  }

  /** ClientAttrChildMapped for any template-shaped step in place of ParentStep(n). */
  lemma ClientAttrChildMappedStep(P: Path, step: PathNode, n: XNode, pos: Pos, i: nat)
    requires n.Element? && StepOf(step, n) && i < |n.kids| && n.kids[i].Element? && NodeHasClientAttributeMark(n.kids[i])
    ensures var k := P + [step] + [Named(Node, NodeName(n.kids[i]))];
      var m := ClientAttrEntries(P + [step], n, pos, ClientAttrChildren(n), |ClientAttrChildren(n)|)
               + ChildEntries(P + [step], n, pos, OtherChildren(n), |OtherChildren(n)|);
      k in m && |m[k]| == |pos| + 1 && m[k][..|pos|] == pos && m[k][|pos|] < |n.kids|
      && NodeName(n.kids[m[k][|pos|]]) == NodeName(n.kids[i])
      && NodeHasClientAttributeMark(n.kids[m[k][|pos|]])
  {
    var Q := P + [step];
    var k := Q + [Named(Node, NodeName(n.kids[i]))];
    var attrs := ClientAttrChildren(n);
    var others := OtherChildren(n);
    var a := ClientAttrEntries(Q, n, pos, attrs, |attrs|);
    var b := ChildEntries(Q, n, pos, others, |others|);
    ChildListsMembers(n);
    assert i in attrs;
    var j :| 0 <= j < |attrs| && attrs[j] == i;
    ClientAttrKeysPresent(Q, n, pos, attrs, |attrs|, j);
    ClientAttrEntriesValid(P, step, n, pos, attrs, |attrs|);
    ChildEntriesValid(P, step, n, pos, others, |others|);
    UnionKeepsShortKey(a, b, k, |P| + 2);
    ClientAttrLeaf(P, n, pos, k, a[k]);
    assert k[|P| + 1] == Named(Node, NodeName(n.kids[i]));
  }

  /** Every clientAttribute-marked element child of `n` is mapped under the path to `n` extended
      by NODE(childName), to a clientAttribute-marked child of that name (the last of equally
      named ones). */
  lemma ClientAttrChildMapped(P: Path, n: XNode, pos: Pos, i: nat)
    requires n.Element? && i < |n.kids| && n.kids[i].Element? && NodeHasClientAttributeMark(n.kids[i])
    ensures var k := P + [ParentStep(n)] + [Named(Node, NodeName(n.kids[i]))];
      var m := TemplatePaths(P, n, pos);
      k in m && |m[k]| == |pos| + 1 && m[k][..|pos|] == pos && m[k][|pos|] < |n.kids|
      && NodeName(n.kids[m[k][|pos|]]) == NodeName(n.kids[i])
      && NodeHasClientAttributeMark(n.kids[m[k][|pos|]])
  {
    ParentStepIsTemplateStep(n);
    ClientAttrChildMappedStep(P, ParentStep(n), n, pos, i);
  }

  lemma UnionAssoc(a: map<Path, Pos>, b: map<Path, Pos>, c: map<Path, Pos>)
    ensures (a + b) + c == a + (b + c)
  {
  }

  /** The fingerprint loop of getTemplatePathsFromNode: one CHILD_NODE or CHILD_NODE_DYNAMIC
      per path-marked child, in the order of `pathNodes`. */
  method BuildFingerprint(parent: XNode, pathNodes: seq<nat>) returns (children: seq<PathNode>)
    requires parent.Element? && forall j :: 0 <= j < |pathNodes| ==> pathNodes[j] < |parent.kids|
    ensures children == Fingerprint(parent.kids, pathNodes)
  {
    children := [];
    for j := 0 to |pathNodes|
      invariant children == Fingerprint(parent.kids, pathNodes[..j])
    {
      var pathNode := parent.kids[pathNodes[j]];
      var xmlPathNode: PathNode;
      if IsTextValueNode(pathNode) {
        xmlPathNode := WithValue(ChildNode, NodeName(pathNode), FirstChildValue(pathNode));
      } else {
        xmlPathNode := Named(ChildNodeDynamic, NodeName(pathNode));
      }
      children := children + [xmlPathNode];
    }
    assert pathNodes[..|pathNodes|] == pathNodes;
  }

  /** The head of getTemplatePathsFromNode: the sorted element children split into the
      path-marked ones, the clientAttribute-marked ones and the rest (the sorted list with the
      first two removed). */
  method ClassifyChildren(parent: XNode) returns (pathNodes: seq<nat>, clientAttrNodes: seq<nat>, otherNodes: seq<nat>)
    requires parent.Element?
    ensures pathNodes == PathChildren(parent)
    ensures clientAttrNodes == ClientAttrChildren(parent)
    ensures otherNodes == OtherChildren(parent)
  {
    var childNodes := SortedElementIndices(parent);
    pathNodes := Filter(parent.kids, childNodes, NodeHasPathMark);
    clientAttrNodes := Filter(parent.kids, childNodes, NodeHasClientAttributeMark);
    otherNodes := Without(Without(childNodes, pathNodes), clientAttrNodes);
    RemoveMarkedIsOther(parent);
  }

  /** The path to `parent`: NODE_WITH_CHILDREN with the fingerprint of its path-marked children
      when it has any, NODE otherwise. */
  method ParentPath(pathToParent: Path, parent: XNode, pathNodes: seq<nat>) returns (currentPath: Path)
    requires parent.Element? && pathNodes == PathChildren(parent)
    ensures currentPath == pathToParent + [ParentStep(parent)]
  {
    if pathNodes != [] {
      var children := BuildFingerprint(parent, pathNodes);
      currentPath := pathToParent + [WithChildren(NodeWithChildren, parent.name, children)];
    } else {
      currentPath := pathToParent + [Named(Node, parent.name)];
    }
  }

  /** The loop of getTemplatePathsFromNode over the clientAttribute children: each is put
      under `currentPath` extended by NODE(childName) and not descended into. */
  method PutClientAttrPaths(currentPath: Path, parent: XNode, pos: Pos, clientAttrNodes: seq<nat>) returns (nodePaths: map<Path, Pos>)
    requires parent.Element? && forall j :: 0 <= j < |clientAttrNodes| ==> clientAttrNodes[j] < |parent.kids|
    ensures nodePaths == ClientAttrEntries(currentPath, parent, pos, clientAttrNodes, |clientAttrNodes|)
  {
    nodePaths := map[];
    for j := 0 to |clientAttrNodes|
      invariant nodePaths == ClientAttrEntries(currentPath, parent, pos, clientAttrNodes, j)
    {
      var clientAttrNode := clientAttrNodes[j];
      var nodePath := currentPath + [Named(Node, NodeName(parent.kids[clientAttrNode]))];
      nodePaths := nodePaths[nodePath := pos + [clientAttrNode]];
    }
  }

  /** The loop of getTemplatePathsFromNode over the remaining children: each is compiled
      recursively under `currentPath` and its map merged into `nodePaths`, later keys winning. */
  method PutChildPaths(currentPath: Path, parent: XNode, pos: Pos, childNodes: seq<nat>, nodePaths0: map<Path, Pos>) returns (nodePaths: map<Path, Pos>)
    requires parent.Element? && forall j :: 0 <= j < |childNodes| ==> childNodes[j] < |parent.kids|
    ensures nodePaths == nodePaths0 + ChildEntries(currentPath, parent, pos, childNodes, |childNodes|)
    decreases parent, 0
  {
    hide TemplatePaths;
    nodePaths := nodePaths0;
    for j := 0 to |childNodes|
      invariant nodePaths == nodePaths0 + ChildEntries(currentPath, parent, pos, childNodes, j)
    {
      var otherNode := childNodes[j];
      var sub := GetTemplatePathsFromNode(currentPath, parent.kids[otherNode], pos + [otherNode]);
      UnionAssoc(nodePaths0, ChildEntries(currentPath, parent, pos, childNodes, j), sub);
      nodePaths := nodePaths + sub;
    }
  }

  /** getTemplatePathsFromNode: the map from template path to clientAttribute element compiled
      from the subtree of `parent`, whose path is `pathToParent`. */
  method GetTemplatePathsFromNode(pathToParent: Path, parent: XNode, pos: Pos) returns (nodePaths: map<Path, Pos>)
    ensures nodePaths == TemplatePaths(pathToParent, parent, pos)
    decreases parent, 1
  {
    if !parent.Element? {
      return map[];
    }
    var pathNodes, clientAttrNodes, childNodes := ClassifyChildren(parent);
    var currentPath := ParentPath(pathToParent, parent, pathNodes);
    nodePaths := PutClientAttrPaths(currentPath, parent, pos, clientAttrNodes);
    nodePaths := PutChildPaths(currentPath, parent, pos, childNodes, nodePaths);
  }
}
