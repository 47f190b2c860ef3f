/** Resolving template paths against a request tree: the search from a parent node down a
    template path (findNodesMatchingPathFromParent), the rewriting of a single dynamic section
    (updateDynamicPathNodeIfSingle), the walk back up a path (findParentNodeByBackwardPath) and
    the search by the difference of two consecutive paths (getChildNodesByPathsDiff). Nodes of
    the request tree are positions in it. */
module PathMatching {
  import opened Wrappers
  import opened PathNodes
  import opened XmlPaths
  import opened XmlTree
  import opened DynamicPaths

  // ---------------------------------------------------------------------------------------
  // Searches among the name-sorted element children.

  /** The first child listed in `s` that `keep` accepts (getChildNodeByName,
      getChildNodeByNameAndTextValue). */
  function FirstMatch(kids: seq<XNode>, s: seq<nat>, keep: XNode -> bool): (r: Option<nat>)
    requires forall j :: 0 <= j < |s| ==> s[j] < |kids|
    ensures r.None? <==> forall j :: 0 <= j < |s| ==> !keep(kids[s[j]])
    ensures r.Some? ==> r.value < |kids| && keep(kids[r.value])
  {
    if s == [] then None
    else if keep(kids[s[0]]) then Some(s[0])
    else
      assert forall j :: 1 <= j < |s| ==> s[j] == s[1..][j - 1];
      FirstMatch(kids, s[1..], keep)
  }

  /** The match is the first accepted entry of `s`. */
  lemma {:induction false} FirstMatchIsFirst(kids: seq<XNode>, s: seq<nat>, keep: XNode -> bool)
    requires forall j :: 0 <= j < |s| ==> s[j] < |kids|
    requires FirstMatch(kids, s, keep).Some?
    ensures exists j :: 0 <= j < |s| && s[j] == FirstMatch(kids, s, keep).value
                        && forall j' :: 0 <= j' < j ==> !keep(kids[s[j']])
  {
    if !keep(kids[s[0]]) {
      FirstMatchIsFirst(kids, s[1..], keep);
      var j :| 0 <= j < |s[1..]| && s[1..][j] == FirstMatch(kids, s, keep).value
               && forall j' :: 0 <= j' < j ==> !keep(kids[s[1..][j']]);
      assert s[j + 1] == FirstMatch(kids, s, keep).value;
      assert forall j' :: 1 <= j' < j + 1 ==> s[j'] == s[1..][j' - 1];
    } else {
      assert s[0] == FirstMatch(kids, s, keep).value;
    }
  }

  /** The element is named `name`. */
  function NamedAs(name: string): XNode -> bool {
    c => NodeName(c) == name
  }

  /** The element is named `name` and holds the single text `value` (a null `value` never
      matches, as `equals(null)` is false). */
  function NamedWithText(name: string, value: Option<string>): XNode -> bool {
    c => IsTextValueNode(c) && NodeName(c) == name && FirstChildValue(c) == value
  }

  /** getChildNodeByName over the sorted element children of `n`. */
  function ChildByName(n: XNode, name: string): (r: Option<nat>)
  {
    if n.Text? then None else FirstMatch(n.kids, SortedElementIndices(n), NamedAs(name))
  }

  /** getChildNodeByNameAndTextValue over the sorted element children of `n`. */
  function ChildByNameAndText(n: XNode, name: string, value: Option<string>): (r: Option<nat>)
  {
    if n.Text? then None else FirstMatch(n.kids, SortedElementIndices(n), NamedWithText(name, value))
  }

  /** One fingerprint child is present under `n`: a child of its name when it carries no
      value, a child of its name holding its value otherwise. */
  predicate ChildPathFound(n: XNode, cp: PathNode) {
    if cp.value.None? then ChildByName(n, cp.name).Some?
    else ChildByNameAndText(n, cp.name, cp.value).Some?
  }

  /** nodeHasChildNodesByChildPaths: every fingerprint child is present. */
  predicate HasChildPaths(n: XNode, cps: seq<PathNode>) {
    forall j :: 0 <= j < |cps| ==> ChildPathFound(n, cps[j])
  }

  /** nodeHasChildNodesByChildPaths: the loop keeps the answer for the previous fingerprint
      child and stops at the first one that is missing. */
  method NodeHasChildNodesByChildPaths(n: XNode, cps: seq<PathNode>) returns (hasChildNode: bool)
    ensures hasChildNode <==> HasChildPaths(n, cps)
  {
    hasChildNode := true;
    for j := 0 to |cps|
      invariant hasChildNode <==> forall j' :: 0 <= j' < j ==> ChildPathFound(n, cps[j'])
    {
      if !hasChildNode {
        return false;
      }
      if cps[j].value.None? {
        var found := ChildByName(n, cps[j].name);
        hasChildNode := found.Some?;
      } else {
        var found := ChildByNameAndText(n, cps[j].name, cps[j].value);
        hasChildNode := found.Some?;
      }
    }
  }

  // ---------------------------------------------------------------------------------------
  // createParentDynamicNodeByTemplatePathNode

  /** The concrete fingerprint child of `n` for the template child `cp`: for a dynamic child
      the first child of its name, with its text when it has one; for any other child the first
      child of its name holding its value. None when that child is missing. */
  function ConcreteChild(n: XNode, cp: PathNode): (r: Option<PathNode>)
    ensures r.Some? ==> r.value.name == cp.name && r.value.childNodes == NoList
    ensures r.Some? && cp.kind == ChildNodeDynamic ==> r.value.kind == ChildNodeDynamic
    ensures r.Some? && cp.kind != ChildNodeDynamic ==> r.value == WithValue(ChildNode, cp.name, cp.value)
  {
    if cp.kind == ChildNodeDynamic then
      match ChildByName(n, cp.name)
      case None => None
      case Some(i) =>
        var m := n.kids[i];
        if IsTextValueNode(m) then Some(WithValue(ChildNodeDynamic, NodeName(m), FirstChildValue(m)))
        else Some(Named(ChildNodeDynamic, NodeName(m)))
    else
      match ChildByNameAndText(n, cp.name, cp.value)
      case None => None
      case Some(i) =>
        var m := n.kids[i];
        Some(WithValue(ChildNode, NodeName(m), FirstChildValue(m)))
  }

  /** The concrete children for the first `k` template children, or None at the first missing
      one. */
  function ConcreteChildren(n: XNode, cps: seq<PathNode>, k: nat): (r: Option<seq<PathNode>>)
    requires k <= |cps|
    ensures r.Some? ==> |r.value| == k
  {
    if k == 0 then Some([])
    else
      match ConcreteChildren(n, cps, k - 1)
      case None => None
      case Some(cs) =>
        match ConcreteChild(n, cps[k - 1])
        case None => None
        case Some(c) => Some(cs + [c])
  }

  /** The concrete children are the concrete child of each template child, and there are none
      exactly when some template child is missing. */
  lemma {:induction false} ConcreteChildrenMembers(n: XNode, cps: seq<PathNode>, k: nat)
    requires k <= |cps|
    ensures var r := ConcreteChildren(n, cps, k);
      r.Some? ==> forall j :: 0 <= j < k ==> ConcreteChild(n, cps[j]) == Some(r.value[j])
    ensures ConcreteChildren(n, cps, k).None? <==> exists j :: 0 <= j < k && ConcreteChild(n, cps[j]).None?
  {
    if k > 0 {
      ConcreteChildrenMembers(n, cps, k - 1);
      var before := ConcreteChildren(n, cps, k - 1);
      var last := ConcreteChild(n, cps[k - 1]);
      if before.None? {
        var j :| 0 <= j < k - 1 && ConcreteChild(n, cps[j]).None?;
        assert 0 <= j < k && ConcreteChild(n, cps[j]).None?;
      } else if last.None? {
        assert 0 <= k - 1 < k && ConcreteChild(n, cps[k - 1]).None?;
      } else {
        var cs := before.value + [last.value];
        assert ConcreteChildren(n, cps, k) == Some(cs);
        forall j | 0 <= j < k ensures ConcreteChild(n, cps[j]) == Some(cs[j]) {
          if j < k - 1 { assert cs[j] == before.value[j]; }
        }
        forall j | 0 <= j < k ensures ConcreteChild(n, cps[j]).Some? {
          if j < k - 1 { assert ConcreteChild(n, cps[j]) == Some(before.value[j]); }
        }
      }
    }
  }

  /** createParentDynamicNodeByTemplatePathNode: the NODE_WITH_CHILDREN step for element `n`
      with the concrete values of its fingerprint, or null when a fingerprint child is missing. */
  function CreateParentDynamicNode(n: XNode, pn: PathNode): (r: Option<PathNode>)
    ensures r.Some? ==> r.value.kind == NodeWithChildren && r.value.name == pn.name
  {
    var cps := GetChildNodes(pn);
    match ConcreteChildren(n, cps, |cps|)
    case None => None
    case Some(cs) => Some(WithChildren(NodeWithChildren, pn.name, cs))
  }

  /** createParentDynamicNodeByTemplatePathNode, with the loop of the source. */
  method CreateParentDynamicNodeByTemplatePathNode(n: XNode, pn: PathNode) returns (r: Option<PathNode>)
    ensures r == CreateParentDynamicNode(n, pn)
  {
    var cps := GetChildNodes(pn);
    var children: seq<PathNode> := [];
    for j := 0 to |cps|
      invariant ConcreteChildren(n, cps, j) == Some(children)
    {
      var childNode := ConcreteChild(n, cps[j]);
      if childNode.None? {
        ConcreteChildrenMembers(n, cps, |cps|);
        return None;
      }
      children := children + [childNode.value];
    }
    return Some(WithChildren(NodeWithChildren, pn.name, children));
  }

  /** For a template step, the concrete step built from a request element turns back into that
      template step. */
  lemma CreateParentDynamicNodeTemplate(n: XNode, pn: PathNode)
    requires TemplateStep(pn) && IsParentPathNodeDynamic(pn) && CreateParentDynamicNode(n, pn).Some?
    ensures IsParentPathNodeDynamic(CreateParentDynamicNode(n, pn).value)
    ensures TemplateNode(CreateParentDynamicNode(n, pn).value) == pn
  {
    var cps := GetChildNodes(pn);
    var cs := ConcreteChildren(n, cps, |cps|).value;
    var e := CreateParentDynamicNode(n, pn).value;
    ConcreteChildrenMembers(n, cps, |cps|);
    assert e.childNodes == List(cs);
    var j :| 0 <= j < |cps| && cps[j].kind == ChildNodeDynamic;
    assert cs[j].kind == ChildNodeDynamic;
    forall j | 0 <= j < |cps| ensures TemplateChild(cs[j]) == cps[j] {
      assert TemplateChildShape(cps[j]);
    }
    assert TemplateChildren(cs) == cps;
  }

  // ---------------------------------------------------------------------------------------
  // updateDynamicPathNodeIfSingle

  /** Every key of the map has a first element. */
  predicate NonEmptyKeys<V>(m: map<Path, V>) {
    forall k :: k in m ==> |k| >= 1
  }

  /** All keys start with the same element (the flag the loop of the source computes against
      the first key it visits). */
  predicate SameFirstElement<V>(m: map<Path, V>)
    requires NonEmptyKeys(m)
  {
    forall k1, k2 :: k1 in m && k2 in m ==> k1[0] == k2[0]
  }

  /** Replacing the first element of keys that share it is injective. */
  lemma ReplaceFirstInjective<V>(m: map<Path, V>, d: PathNode)
    requires NonEmptyKeys(m) && SameFirstElement(m)
    ensures forall k1, k2 :: k1 in m && k2 in m && [d] + k1[1..] == [d] + k2[1..] ==> k1 == k2
  {
    forall k1, k2 | k1 in m && k2 in m && [d] + k1[1..] == [d] + k2[1..] ensures k1 == k2 {
      assert k1[1..] == ([d] + k1[1..])[1..];
      assert k2[1..] == ([d] + k2[1..])[1..];
      assert k1 == [k1[0]] + k1[1..];
      assert k2 == [k2[0]] + k2[1..];
    }
  }

  /** updateDynamicPathNodeIfSingle: when `d` is dynamic and every key starts with the same
      concrete element, that element is replaced by `d` in every key; otherwise the map is
      returned as it is. */
  function UpdateDynamicPathNodeIfSingle<V>(d: PathNode, m: map<Path, V>): (r: map<Path, V>)
    requires NonEmptyKeys(m)
  {
    if IsParentPathNodeDynamic(d) && SameFirstElement(m) then
      ReplaceFirstInjective(m, d);
      map k | k in m :: [d] + k[1..] := m[k]
    else m
  }

  /** The keys of the rewritten map are the old keys with their first element replaced, each
      keeping its value. */
  lemma UpdateDynamicPathNodeIfSingleMembers<V>(d: PathNode, m: map<Path, V>)
    requires NonEmptyKeys(m) && IsParentPathNodeDynamic(d) && SameFirstElement(m)
    ensures var r := UpdateDynamicPathNodeIfSingle(d, m);
      (forall k :: k in m ==> [d] + k[1..] in r && r[[d] + k[1..]] == m[k])
      && (forall k' :: k' in r ==> exists k :: k in m && k' == [d] + k[1..])
  {
    ReplaceFirstInjective(m, d);
  }

  /** updateDynamicPathNodeIfSingle, with the loop of the source over the entries: the first key
      visited fixes the element the others are compared with. */
  method UpdateDynamicPathNodeIfSingleLoop<V>(d: PathNode, m: map<Path, V>) returns (r: map<Path, V>)
    requires NonEmptyKeys(m)
    ensures r == UpdateDynamicPathNodeIfSingle(d, m)
  {
    if !IsParentPathNodeDynamic(d) {
      return m;
    }
    var pathNode: Option<PathNode> := None;
    var singleDynamicPath := true;
    var rest := m.Keys;
    while rest != {}
      invariant rest <= m.Keys
      invariant pathNode.None? ==> rest == m.Keys && singleDynamicPath
      invariant pathNode.Some? ==> exists k0 :: k0 in m.Keys - rest && k0[0] == pathNode.value
      invariant pathNode.Some? ==>
        (singleDynamicPath <==> forall k :: k in m.Keys - rest ==> k[0] == pathNode.value)
      decreases rest
    {
      var k :| k in rest;
      if pathNode.None? {
        pathNode := Some(k[0]);
      } else if k[0] != pathNode.value {
        singleDynamicPath := false;
      }
      rest := rest - {k};
    }
    if singleDynamicPath {
      ReplaceFirstInjective(m, d);
      r := map k | k in m :: [d] + k[1..] := m[k];
    } else {
      r := m;
    }
  }

  // ---------------------------------------------------------------------------------------
  // findNodesMatchingPathFromParent

  /** The step recorded for the request element `c` that carries the name of the template step
      `e`: `e` itself for a NODE; for a NODE_WITH_CHILDREN whose fingerprint `c` has, `e`, or
      the step with the concrete values of `c` when `e` is dynamic; null otherwise. */
  function FirstPathNode(c: XNode, e: PathNode): Option<PathNode> {
    if e.kind == Node then Some(e)
    else if e.kind == NodeWithChildren then
      if !HasChildPaths(c, GetChildNodes(e)) then None
      else if IsParentPathNodeDynamic(e) then CreateParentDynamicNode(c, e)
      else Some(e)
    else None
  }

  /** A step of a found key stands for the template step `e`: same name and type, `e` itself
      unless `e` is dynamic, and a concrete instance of `e` when `e` is a dynamic template step. */
  predicate StepMatches(f: PathNode, e: PathNode) {
    f.name == e.name && f.kind == e.kind
    && (!IsParentPathNodeDynamic(e) ==> f == e)
    && (IsParentPathNodeDynamic(e) && TemplateStep(e) ==> TemplateNode(f) == e)
  }

  /** A template step is in template form. */
  lemma TemplateStepIsFixpoint(e: PathNode)
    requires TemplateStep(e)
    ensures TemplateNode(e) == e
  {
    TemplateShapedIsFixpoint([e]);
    assert CreateTemplateDynamicPath([e])[0] == TemplateNode(e);
  }

  lemma FirstPathNodeMatches(c: XNode, e: PathNode)
    requires FirstPathNode(c, e).Some?
    ensures StepMatches(FirstPathNode(c, e).value, e)
  {
    var f := FirstPathNode(c, e).value;
    if IsParentPathNodeDynamic(e) && TemplateStep(e) {
      CreateParentDynamicNodeTemplate(c, e);
    }
  }

  /** A template step matches itself. */
  lemma StepMatchesItself(e: PathNode)
    ensures IsParentPathNodeDynamic(e) ==> (StepMatches(e, e) <==> (TemplateStep(e) ==> TemplateNode(e) == e))
    ensures !IsParentPathNodeDynamic(e) ==> StepMatches(e, e)
    ensures TemplateStep(e) ==> StepMatches(e, e)
  {
    if TemplateStep(e) {
      TemplateStepIsFixpoint(e);
    }
  }

  /** The map with `f` put in front of every key, as the recursive search merges the paths found
      below a child. */
  function Prefixed(f: PathNode, m: map<Path, Pos>): (r: map<Path, Pos>)
    ensures NonEmptyKeys(r)
  {
    assert forall k1, k2 :: [f] + k1 == [f] + k2 ==> k1 == k2 by {
      forall k1, k2 | [f] + k1 == [f] + k2 ensures k1 == k2 {
        assert k1 == ([f] + k1)[1..] && k2 == ([f] + k2)[1..];
      }
    }
    map k | k in m :: [f] + k := m[k]
  }

  lemma PrefixedMembers(f: PathNode, m: map<Path, Pos>)
    ensures forall k' :: k' in Prefixed(f, m) ==>
      k'[0] == f && k'[1..] in m && Prefixed(f, m)[k'] == m[k'[1..]]
  {
    forall k' | k' in Prefixed(f, m)
      ensures k'[0] == f && k'[1..] in m && Prefixed(f, m)[k'] == m[k'[1..]]
    {
      var k :| k in m && k' == [f] + k;
      assert k'[1..] == k;
    }
  }

  /** The paths found below the element child `i` of `n`: none when its name differs from the
      first template step or it yields no step; otherwise its step alone for a one-step path, or
      its step in front of every path found below it for the rest of the template path. */
  function ChildMatches(n: XNode, i: nat, pos: Pos, tp: Path): (r: map<Path, Pos>)
    requires n.Element? && i < |n.kids| && n.kids[i].Element? && |tp| >= 1
    ensures NonEmptyKeys(r)
    decreases n, 0, 0
  {
    var c := n.kids[i];
    if NodeName(c) != tp[0].name then map[]
    else
      match FirstPathNode(c, tp[0])
      case None => map[]
      case Some(f) =>
        if |tp| == 1 then map[[f] := pos + [i]]
        else Prefixed(f, FindNodesMatching(c, pos + [i], tp[1..]))
  }

  /** The merge of the paths found below the first `k` children listed in `s`, in order. */
  function MatchEntries(n: XNode, pos: Pos, tp: Path, s: seq<nat>, k: nat): (r: map<Path, Pos>)
    requires n.Element? && k <= |s| && ElementIndices(n.kids, s) && |tp| >= 1
    ensures NonEmptyKeys(r)
    decreases n, 0, k
  {
    if k == 0 then map[]
    else MatchEntries(n, pos, tp, s, k - 1) + ChildMatches(n, s[k - 1], pos, tp)
  }

  /** findNodesMatchingPathFromParent(n, tp) with `n` at position `pos`: the request elements
      reached from `n` along the template path, under the concrete paths leading to them. */
  function FindNodesMatching(n: XNode, pos: Pos, tp: Path): (r: map<Path, Pos>)
    requires |tp| >= 1
    ensures NonEmptyKeys(r)
    decreases n, 1
  {
    var m := if n.Element? then MatchEntries(n, pos, tp, SortedElementIndices(n), |SortedElementIndices(n)|) else map[];
    UpdateDynamicPathNodeIfSingle(tp[0], m)
  }

  // ---------------------------------------------------------------------------------------
  // What every found path satisfies.

  /** The key suffix `k` and position suffix `vs` follow the template path `tp` down from `n`:
      each step is an element child named after the template step, recorded by a step that
      stands for it. */
  predicate MatchEntry(n: XNode, tp: Path, k: Path, vs: Pos)
    decreases |tp|
  {
    |tp| >= 1 && |k| == |tp| && |vs| == |tp| && n.Element? && vs[0] < |n.kids|
    && n.kids[vs[0]].Element? && n.kids[vs[0]].name == tp[0].name && StepMatches(k[0], tp[0])
    && (|tp| > 1 ==> MatchEntry(n.kids[vs[0]], tp[1..], k[1..], vs[1..]))
  }

  /** The entry (k, v) found from `n` at `pos` follows `tp` below `pos`. */
  predicate ValidMatch(n: XNode, pos: Pos, tp: Path, k: Path, v: Pos) {
    |v| >= |pos| && v[..|pos|] == pos && MatchEntry(n, tp, k, v[|pos|..])
  }

  /** Every entry of the map follows `tp` below `pos`. */
  predicate AllValid(n: XNode, pos: Pos, tp: Path, m: map<Path, Pos>) {
    forall k :: k in m ==> ValidMatch(n, pos, tp, k, m[k])
  }

  lemma UnionAllValid(n: XNode, pos: Pos, tp: Path, a: map<Path, Pos>, b: map<Path, Pos>)
    requires AllValid(n, pos, tp, a) && AllValid(n, pos, tp, b)
    ensures AllValid(n, pos, tp, a + b)
  {
    forall k | k in a + b ensures ValidMatch(n, pos, tp, k, (a + b)[k]) {
      if k in b { assert (a + b)[k] == b[k]; } else { assert (a + b)[k] == a[k]; }
    }
  }

  /** An entry found below element child `i` extends to an entry found from `n`. */
  lemma LiftMatch(n: XNode, i: nat, pos: Pos, tp: Path, k: Path, v: Pos)
    requires n.Element? && i < |n.kids| && n.kids[i].Element? && |tp| >= 2 && n.kids[i].name == tp[0].name
    requires |k| >= 1 && StepMatches(k[0], tp[0])
    requires ValidMatch(n.kids[i], pos + [i], tp[1..], k[1..], v)
    ensures ValidMatch(n, pos, tp, k, v)
  {
    var vs := v[|pos|..];
    assert v[..|pos|] == v[..|pos| + 1][..|pos|];
    assert vs[0] == v[..|pos| + 1][|pos|];
    assert vs[1..] == v[|pos| + 1..];
  }

  lemma LiftMatches(n: XNode, i: nat, pos: Pos, tp: Path, f: PathNode, sub: map<Path, Pos>)
    requires n.Element? && i < |n.kids| && n.kids[i].Element? && |tp| >= 2 && n.kids[i].name == tp[0].name
    requires StepMatches(f, tp[0])
    requires AllValid(n.kids[i], pos + [i], tp[1..], sub)
    ensures AllValid(n, pos, tp, Prefixed(f, sub))
  {
    PrefixedMembers(f, sub);
    forall k | k in Prefixed(f, sub) ensures ValidMatch(n, pos, tp, k, Prefixed(f, sub)[k]) {
      LiftMatch(n, i, pos, tp, k, Prefixed(f, sub)[k]);
    }
  }

  lemma ChildMatchesValid(n: XNode, i: nat, pos: Pos, tp: Path)
    requires n.Element? && i < |n.kids| && n.kids[i].Element? && |tp| >= 1
    ensures AllValid(n, pos, tp, ChildMatches(n, i, pos, tp))
    decreases n, 0, 0
  {
    var c := n.kids[i];
    if NodeName(c) == tp[0].name && FirstPathNode(c, tp[0]).Some? {
      var f := FirstPathNode(c, tp[0]).value;
      FirstPathNodeMatches(c, tp[0]);
      if |tp| == 1 {
        var v := pos + [i];
        assert v[..|pos|] == pos && v[|pos|..] == [i];
        assert MatchEntry(n, tp, [f], [i]);
      } else {
        FindNodesMatchingValid(c, pos + [i], tp[1..]);
        LiftMatches(n, i, pos, tp, f, FindNodesMatching(c, pos + [i], tp[1..]));
      }
    }
  }

  lemma {:induction false} MatchEntriesValid(n: XNode, pos: Pos, tp: Path, s: seq<nat>, t: nat)
    requires n.Element? && t <= |s| && ElementIndices(n.kids, s) && |tp| >= 1
    ensures AllValid(n, pos, tp, MatchEntries(n, pos, tp, s, t))
    decreases n, 0, t
  {
    if t > 0 {
      MatchEntriesValid(n, pos, tp, s, t - 1);
      ChildMatchesValid(n, s[t - 1], pos, tp);
      UnionAllValid(n, pos, tp, MatchEntries(n, pos, tp, s, t - 1), ChildMatches(n, s[t - 1], pos, tp));
    }
  }

  /** Rewriting a single dynamic section keeps every entry valid: the template step stands for
      itself. */
  lemma UpdateValid(n: XNode, pos: Pos, tp: Path, m: map<Path, Pos>)
    requires |tp| >= 1 && NonEmptyKeys(m) && AllValid(n, pos, tp, m)
    ensures AllValid(n, pos, tp, UpdateDynamicPathNodeIfSingle(tp[0], m))
  {
    var d := tp[0];
    if IsParentPathNodeDynamic(d) && SameFirstElement(m) {
      var r := UpdateDynamicPathNodeIfSingle(d, m);
      UpdateDynamicPathNodeIfSingleMembers(d, m);
      StepMatchesItself(d);
      forall k' | k' in r ensures ValidMatch(n, pos, tp, k', r[k']) {
        var k :| k in m && k' == [d] + k[1..];
        assert r[k'] == m[k];
        var vs := m[k][|pos|..];
        assert MatchEntry(n, tp, k, vs);
        assert k'[0] == d && k'[1..] == k[1..];
        assert MatchEntry(n, tp, k', vs);
      }
    }
  }

  /** Every entry findNodesMatchingPathFromParent returns follows the template path. */
  lemma {:induction false} FindNodesMatchingValid(n: XNode, pos: Pos, tp: Path)
    requires |tp| >= 1
    ensures AllValid(n, pos, tp, FindNodesMatching(n, pos, tp))
    decreases n, 1
  {
    if n.Element? {
      var s := SortedElementIndices(n);
      MatchEntriesValid(n, pos, tp, s, |s|);
      UpdateValid(n, pos, tp, MatchEntries(n, pos, tp, s, |s|));
    }
  }

  /** A match has one key step per template step, each standing for it, and ends at an element
      named like the last template step. */
  lemma {:induction false} MatchEntrySteps(n: XNode, tp: Path, k: Path, vs: Pos)
    requires MatchEntry(n, tp, k, vs)
    ensures |k| == |tp| && |vs| == |tp|
    ensures forall j :: 0 <= j < |tp| ==> StepMatches(k[j], tp[j])
    ensures NodeAt(n, vs).Some? && NodeAt(n, vs).value.Element?
    ensures NodeAt(n, vs).value.name == tp[|tp| - 1].name
    decreases |tp|
  {
    if |tp| > 1 {
      MatchEntrySteps(n.kids[vs[0]], tp[1..], k[1..], vs[1..]);
      forall j | 1 <= j < |tp| ensures StepMatches(k[j], tp[j]) {
        assert k[j] == k[1..][j - 1] && tp[j] == tp[1..][j - 1];
      }
    }
  }

  /** Every path findNodesMatchingPathFromParent returns has one step per template step, each
      standing for it, and leads from `pos` to an element named like the last template step. */
  lemma FindNodesMatchingKeys(n: XNode, pos: Pos, tp: Path)
    requires |tp| >= 1
    ensures forall k :: k in FindNodesMatching(n, pos, tp) ==>
      |k| == |tp| && (forall j :: 0 <= j < |tp| ==> StepMatches(k[j], tp[j]))
    ensures forall k :: k in FindNodesMatching(n, pos, tp) ==>
      var v := FindNodesMatching(n, pos, tp)[k];
      |v| == |pos| + |tp| && v[..|pos|] == pos
      && NodeAt(n, v[|pos|..]).Some? && NodeName(NodeAt(n, v[|pos|..]).value) == tp[|tp| - 1].name
  {
    FindNodesMatchingValid(n, pos, tp);
    forall k | k in FindNodesMatching(n, pos, tp)
      ensures |k| == |tp| && (forall j :: 0 <= j < |tp| ==> StepMatches(k[j], tp[j]))
      ensures var v := FindNodesMatching(n, pos, tp)[k];
        |v| == |pos| + |tp| && v[..|pos|] == pos
        && NodeAt(n, v[|pos|..]).Some? && NodeName(NodeAt(n, v[|pos|..]).value) == tp[|tp| - 1].name
    {
      var v := FindNodesMatching(n, pos, tp)[k];
      MatchEntrySteps(n, tp, k, v[|pos|..]);
    }
  }

  /** For a template path with no dynamic element every key is the template path itself, so
      at most one element is found. */
  lemma NonDynamicPathMatchesItself(n: XNode, pos: Pos, tp: Path)
    requires |tp| >= 1 && !IsDynamicPath(tp)
    ensures forall k :: k in FindNodesMatching(n, pos, tp) ==> k == tp
    ensures FindNodesMatching(n, pos, tp).Keys <= {tp}
  {
    FindNodesMatchingKeys(n, pos, tp);
    forall k | k in FindNodesMatching(n, pos, tp) ensures k == tp {
      assert forall j :: 0 <= j < |tp| ==> k[j] == tp[j];
    }
  }

  /** For a template path, every key found turns back into the template path under
      createTemplateDynamicPath: the template map holds every found path's template. */
  lemma TemplatePathMatchesTemplate(n: XNode, pos: Pos, tp: Path)
    requires |tp| >= 1 && TemplateShaped(tp)
    ensures forall k :: k in FindNodesMatching(n, pos, tp) ==> CreateTemplateDynamicPath(k) == tp
  {
    FindNodesMatchingKeys(n, pos, tp);
    forall k | k in FindNodesMatching(n, pos, tp) ensures CreateTemplateDynamicPath(k) == tp {
      var r := CreateTemplateDynamicPath(k);
      forall j | 0 <= j < |tp| ensures r[j] == tp[j] {
        assert StepMatches(k[j], tp[j]);
        assert r[j] == TemplateNode(k[j]);
        if !IsParentPathNodeDynamic(tp[j]) {
          TemplateStepIsFixpoint(tp[j]);
        }
      }
    }
  }

  /** The body of the loop of findNodesMatchingPathFromParent for the element child `i`: the
      paths it adds to the result. */
  method MatchChild(n: XNode, i: nat, pos: Pos, tp: Path) returns (childPaths: map<Path, Pos>)
    requires n.Element? && i < |n.kids| && n.kids[i].Element? && |tp| >= 1
    ensures childPaths == ChildMatches(n, i, pos, tp)
    decreases n, 0
  {
    var node := n.kids[i];
    var currentPathNode := tp[0];
    childPaths := map[];
    if NodeName(node) != currentPathNode.name {
      return;
    }
    var firstPathNode: Option<PathNode> := None;
    if currentPathNode.kind == Node {
      firstPathNode := Some(currentPathNode);
    } else if currentPathNode.kind == NodeWithChildren {
      var hasChildren := NodeHasChildNodesByChildPaths(node, GetChildNodes(currentPathNode));
      if hasChildren {
        firstPathNode := Some(currentPathNode);
        if IsParentPathNodeDynamic(currentPathNode) {
          firstPathNode := CreateParentDynamicNodeByTemplatePathNode(node, currentPathNode);
        }
      }
    }
    if firstPathNode.Some? {
      if |tp| == 1 {
        childPaths := map[[firstPathNode.value] := pos + [i]];
      } else {
        var found := FindNodesMatchingPathFromParent(node, pos + [i], tp[1..]);
        childPaths := Prefixed(firstPathNode.value, found);
      }
    }
  }

  /** findNodesMatchingPathFromParent: the loop over the sorted element children of `n`, then
      the rewriting of a single dynamic section. */
  method FindNodesMatchingPathFromParent(n: XNode, pos: Pos, tp: Path) returns (nodePaths: map<Path, Pos>)
    requires |tp| >= 1
    ensures nodePaths == FindNodesMatching(n, pos, tp)
    decreases n, 1
  {
    var found: map<Path, Pos> := map[];
    if n.Element? {
      var s := SortedElementIndices(n);
      for j := 0 to |s|
        invariant found == MatchEntries(n, pos, tp, s, j)
      {
        var childPaths := MatchChild(n, s[j], pos, tp);
        found := found + childPaths;
      }
    }
    nodePaths := UpdateDynamicPathNodeIfSingleLoop(tp[0], found);
  }

  // ---------------------------------------------------------------------------------------
  // findParentNodeByBackwardPath: climbing from a node while the path read backwards matches.

  /** One step of the backward walk: NODE checks the name, NODE_WITH_CHILDREN the name and the
      fingerprint children; any other kind of element never matches. */
  predicate BackStepMatches(node: XNode, el: PathNode) {
    match el.kind
    case Node => NodeName(node) == el.name
    case NodeWithChildren => NodeName(node) == el.name && HasChildPaths(node, GetChildNodes(el))
    case _ => false
  }

  /** The node the backward walk ends on, from element `i` of the backward path on, starting at
      `cur`; None when some step does not match or the walk leaves the document. */
  function Backward(doc: XNode, cur: Option<Pos>, bp: Path, i: nat): Option<Pos>
    requires i <= |bp|
    decreases |bp| - i
  {
    if i == |bp| then cur
    else if cur.None? then None
    else
      match NodeAt(doc, cur.value)
      case None => None
      case Some(node) =>
        if !BackStepMatches(node, bp[i]) then None
        else if i == |bp| - 1 then cur
        else Backward(doc, ParentPos(cur.value), bp, i + 1)
  }

  /** The position `k` levels above `p`. */
  function Up(p: Pos, k: nat): (r: Pos)
    requires k <= |p|
    ensures |r| == |p| - k
  {
    p[..|p| - k]
  }

  /** The node `k` levels above `p` exists and matches the backward step `el`. */
  predicate StepAt(doc: XNode, p: Pos, k: nat, el: PathNode)
    requires k <= |p|
  {
    NodeAt(doc, Up(p, k)).Some? && BackStepMatches(NodeAt(doc, Up(p, k)).value, el)
  }

  /** Every step from `i` on matches the ancestor `j - i` levels above `p`, and `p` has that
      many ancestors. */
  predicate BackwardMatches(doc: XNode, p: Pos, bp: Path, i: nat) {
    |p| + i + 1 >= |bp| && forall j :: i <= j < |bp| ==> StepAt(doc, p, j - i, bp[j])
  }

  /** The first step of BackwardMatches is about `p` itself. */
  lemma BackwardMatchesFirst(doc: XNode, p: Pos, bp: Path, i: nat)
    requires i < |bp|
    ensures BackwardMatches(doc, p, bp, i) ==> NodeAt(doc, p).Some? && BackStepMatches(NodeAt(doc, p).value, bp[i])
  {
    if BackwardMatches(doc, p, bp, i) {
      assert Up(p, 0) == p;
      assert StepAt(doc, p, i - i, bp[i]);
    }
  }

  /** BackwardMatches peels off one step: the rest is about the parent of `p`. */
  lemma BackwardMatchesStep(doc: XNode, p: Pos, bp: Path, i: nat)
    requires i + 1 < |bp| && p != []
    ensures BackwardMatches(doc, p, bp, i)
            <==> NodeAt(doc, p).Some? && BackStepMatches(NodeAt(doc, p).value, bp[i])
                 && BackwardMatches(doc, p[..|p| - 1], bp, i + 1)
  {
    var q := p[..|p| - 1];
    assert Up(p, 0) == p;
    forall k | 0 <= k <= |q| ensures Up(q, k) == Up(p, k + 1) {
    }
    if NodeAt(doc, p).Some? && BackStepMatches(NodeAt(doc, p).value, bp[i]) && BackwardMatches(doc, q, bp, i + 1) {
      forall j | i <= j < |bp| ensures StepAt(doc, p, j - i, bp[j]) {
        if j > i {
          assert StepAt(doc, q, j - (i + 1), bp[j]);
        }
      }
    }
    if BackwardMatches(doc, p, bp, i) {
      assert StepAt(doc, p, i - i, bp[i]);
      forall j | i + 1 <= j < |bp| ensures StepAt(doc, q, j - (i + 1), bp[j]) {
        assert StepAt(doc, p, j - i, bp[j]);
      }
    }
  }

  /** A step that does not match ends the walk with None. */
  lemma BackwardStops(doc: XNode, p: Pos, bp: Path, i: nat)
    requires i < |bp|
    requires NodeAt(doc, p).None? || !BackStepMatches(NodeAt(doc, p).value, bp[i])
    ensures Backward(doc, Some(p), bp, i) == None && !BackwardMatches(doc, p, bp, i)
  {
    BackwardMatchesFirst(doc, p, bp, i);
  }

  /** A matching last step ends the walk on `p`. */
  lemma BackwardLast(doc: XNode, p: Pos, bp: Path, i: nat)
    requires i == |bp| - 1
    requires NodeAt(doc, p).Some? && BackStepMatches(NodeAt(doc, p).value, bp[i])
    ensures Backward(doc, Some(p), bp, i) == Some(p) && BackwardMatches(doc, p, bp, i) && Up(p, |bp| - 1 - i) == p
  {
    assert Up(p, 0) == p;
    assert StepAt(doc, p, i - i, bp[i]);
  }

  /** A matching step that is not the last one climbs to the parent; from the document node
      there is none. */
  lemma BackwardClimbs(doc: XNode, p: Pos, bp: Path, i: nat)
    requires i + 1 < |bp|
    requires NodeAt(doc, p).Some? && BackStepMatches(NodeAt(doc, p).value, bp[i])
    ensures p == [] ==> Backward(doc, Some(p), bp, i) == None && !BackwardMatches(doc, p, bp, i)
    ensures p != [] ==> Backward(doc, Some(p), bp, i) == Backward(doc, Some(p[..|p| - 1]), bp, i + 1)
  {
  }

  /** The backward walk from an existing node finds the ancestor `|bp| - 1 - i` levels up
      exactly when every step matches on the way. */
  lemma {:induction false} BackwardCharacterized(doc: XNode, p: Pos, bp: Path, i: nat)
    requires i < |bp|
    ensures Backward(doc, Some(p), bp, i)
            == if BackwardMatches(doc, p, bp, i) then Some(Up(p, |bp| - 1 - i)) else None
    decreases |bp| - i
  {
    if NodeAt(doc, p).None? || !BackStepMatches(NodeAt(doc, p).value, bp[i]) {
      BackwardStops(doc, p, bp, i);
    } else if i == |bp| - 1 {
      BackwardLast(doc, p, bp, i);
    } else if p == [] {
      BackwardClimbs(doc, p, bp, i);
    } else {
      var q := p[..|p| - 1];
      BackwardClimbs(doc, p, bp, i);
      BackwardCharacterized(doc, q, bp, i + 1);
      BackwardMatchesStep(doc, p, bp, i);
      if BackwardMatches(doc, p, bp, i) {
        assert Up(q, |bp| - 1 - (i + 1)) == Up(p, |bp| - 1 - i);
      }
    }
  }

  /** A Some result of the backward walk is an existing node. */
  lemma BackwardExists(doc: XNode, cur: Option<Pos>, bp: Path)
    requires cur.Some? ==> NodeAt(doc, cur.value).Some?
    ensures var r := Backward(doc, cur, bp, 0); r.Some? ==> NodeAt(doc, r.value).Some?
  {
    if cur.Some? && |bp| > 0 {
      var p := cur.value;
      BackwardCharacterized(doc, p, bp, 0);
      if BackwardMatches(doc, p, bp, 0) {
        assert StepAt(doc, p, |bp| - 1 - 0, bp[|bp| - 1]);
      }
    }
  }

  /** XmlUtils.findParentNodeByBackwardPath. */
  method FindParentNodeByBackwardPath(doc: XNode, pathLastNode: Option<Pos>, backwardPath: Path)
      returns (lastStepNode: Option<Pos>)
    requires pathLastNode.Some? ==> NodeAt(doc, pathLastNode.value).Some?
    ensures lastStepNode == Backward(doc, pathLastNode, backwardPath, 0)
  {
    lastStepNode := pathLastNode;
    var length := |backwardPath|;
    for i := 0 to length
      invariant lastStepNode.Some? ==> NodeAt(doc, lastStepNode.value).Some?
      invariant Backward(doc, lastStepNode, backwardPath, i) == Backward(doc, pathLastNode, backwardPath, 0)
    {
      var el := backwardPath[i];
      if lastStepNode.None? {
        return None;
      }
      var node := NodeAt(doc, lastStepNode.value).value;
      if el.kind == Node {
        if NodeName(node) != el.name {
          lastStepNode := None;
        }
      } else if el.kind == NodeWithChildren {
        if NodeName(node) != el.name {
          lastStepNode := None;
        } else {
          var hasChildren := NodeHasChildNodesByChildPaths(node, GetChildNodes(el));
          if !hasChildren {
            lastStepNode := None;
          }
        }
      } else {
        lastStepNode := None;
      }
      if lastStepNode.Some? && i != length - 1 {
        if lastStepNode.value != [] {
          ParentOfNode(doc, lastStepNode.value);
        }
        lastStepNode := ParentPos(lastStepNode.value);
      }
    }
  }

  // ---------------------------------------------------------------------------------------
  // getChildNodesByPathsDiff: finding the nodes of a path from the node of the path before it.

  /** The path read from its end back to its start (Collections.reverse on a copy). */
  function Reverse(s: Path): (r: Path)
    ensures |r| == |s| && forall i :: 0 <= i < |s| ==> r[i] == s[|s| - 1 - i]
  {
    seq(|s|, i requires 0 <= i < |s| => s[|s| - 1 - i])
  }

  /** The node the diff search restarts from: the node of `oldPath` when the two paths share
      all of it, otherwise the node found by walking `oldPath` back to its last shared
      element. */
  function BackParent(doc: XNode, oldPath: Path, oldLast: Option<Pos>, s: nat): Option<Pos>
    requires s < |oldPath|
  {
    if s < |oldPath| - 1 then Backward(doc, oldLast, Reverse(oldPath[s..]), 0) else oldLast
  }

  lemma BackParentExists(doc: XNode, oldPath: Path, oldLast: Option<Pos>, s: nat)
    requires s < |oldPath|
    requires oldLast.Some? ==> NodeAt(doc, oldLast.value).Some?
    ensures var b := BackParent(doc, oldPath, oldLast, s); b.Some? ==> NodeAt(doc, b.value).Some?
  {
    BackwardExists(doc, oldLast, Reverse(oldPath[s..]));
  }

  /** A one-entry map has one key. */
  lemma SingleKey<K, V>(m: map<K, V>, a: K, b: K)
    requires |m| == 1 && a in m && b in m
    ensures a == b
  {
    if a != b {
      assert {a, b} <= m.Keys;
      assert |{a, b}| == 2;
      SubsetCardinality({a, b}, m.Keys);
    }
  }

  lemma SubsetCardinality<K>(a: set<K>, b: set<K>)
    requires a <= b
    ensures |a| <= |b|
  {
    if a != {} {
      var x :| x in a;
      SubsetCardinality(a - {x}, b - {x});
    }
  }

  /** Collectors.toMap over the found nodes, every one of which gets the key `newPath`: a
      second entry is a duplicate key. */
  ghost function Rekey(found: map<Path, Pos>, newPath: Path): Result<map<Path, Option<Pos>>> {
    if |found| > 1 then Failure(RuntimeFault("IllegalStateException: Duplicate key"))
    else if found == map[] then Success(map[])
    else var k :| k in found; Success(map[newPath := Some(found[k])])
  }

  /** With one found node, the result holds it under `newPath`. */
  lemma RekeySingle(found: map<Path, Pos>, newPath: Path, k: Path)
    requires |found| == 1 && k in found
    ensures Rekey(found, newPath) == Success(map[newPath := Some(found[k])])
  {
    var k' :| k' in found && Rekey(found, newPath) == Success(map[newPath := Some(found[k'])]);
    SingleKey(found, k, k');
  }

  /** XmlUtils.getChildNodesByPathsDiff, for `oldLast` the node recorded for `oldPath`. */
  ghost function PathsDiff(doc: XNode, oldPath: Path, newPath: Path, oldLast: Option<Pos>)
    : Result<map<Path, Option<Pos>>>
    requires oldLast.Some? ==> NodeAt(doc, oldLast.value).Some?
  {
    var s := LastCommonIndex(newPath, oldPath, 0);
    if s == -1 then Success(map[])
    else if |oldPath| == |newPath| && s == |newPath| - 1 then Success(map[newPath := oldLast])
    else
      var back := BackParent(doc, oldPath, oldLast, s);
      if s == |newPath| - 1 then Success(map[newPath := back])
      else if back.None? then Failure(RuntimeFault("NullPointerException"))
      else
        BackParentExists(doc, oldPath, oldLast, s);
        Rekey(FindNodesMatching(NodeAt(doc, back.value).value, back.value, newPath[s + 1..]), newPath)
  }

  method GetChildNodesByPathsDiff(doc: XNode, oldPath: Path, newPath: Path, oldPathLastNode: Option<Pos>)
      returns (r: Result<map<Path, Option<Pos>>>)
    requires oldPathLastNode.Some? ==> NodeAt(doc, oldPathLastNode.value).Some?
    ensures r == PathsDiff(doc, oldPath, newPath, oldPathLastNode)
  {
    hide FindNodesMatching;
    var subPathEndIndex := LastCommonIndex(newPath, oldPath, 0);
    if subPathEndIndex == -1 {
      return Success(map[]);
    }
    if |oldPath| == |newPath| && subPathEndIndex == |newPath| - 1 {
      return Success(map[newPath := oldPathLastNode]);
    }
    var backParent := oldPathLastNode;
    if subPathEndIndex < |oldPath| - 1 {
      backParent := FindParentNodeByBackwardPath(doc, oldPathLastNode, Reverse(oldPath[subPathEndIndex..]));
    }
    BackParentExists(doc, oldPath, oldPathLastNode, subPathEndIndex);
    if subPathEndIndex == |newPath| - 1 {
      return Success(map[newPath := backParent]);
    }
    if backParent.None? {
      return Failure(RuntimeFault("NullPointerException"));
    }
    var shortPath := newPath[subPathEndIndex + 1..];
    var children := FindNodesMatchingPathFromParent(NodeAt(doc, backParent.value).value, backParent.value, shortPath);
    if |children| > 1 {
      return Failure(RuntimeFault("IllegalStateException: Duplicate key"));
    }
    if children == map[] {
      return Success(map[]);
    }
    var fullPath := newPath[..subPathEndIndex + 1] + shortPath;
    assert fullPath == newPath;
    var k :| k in children;
    RekeySingle(children, newPath, k);
    r := Success(map[fullPath := Some(children[k])]);
  }

  /** Every entry of the diff result is keyed by the new path, and paths with no common start
      give nothing. */
  lemma PathsDiffKeys(doc: XNode, oldPath: Path, newPath: Path, oldLast: Option<Pos>)
    requires oldLast.Some? ==> NodeAt(doc, oldLast.value).Some?
    ensures var r := PathsDiff(doc, oldPath, newPath, oldLast);
      r.Success? ==> r.value.Keys <= {newPath}
    ensures oldPath == [] || newPath == [] || oldPath[0] != newPath[0] ==>
      PathsDiff(doc, oldPath, newPath, oldLast) == Success(map[])
  {
  }

  /** The same path again gives the node recorded for it. */
  lemma PathsDiffSamePath(doc: XNode, path: Path, last: Option<Pos>)
    requires path != []
    requires last.Some? ==> NodeAt(doc, last.value).Some?
    ensures PathsDiff(doc, path, path, last) == Success(map[path := last])
  {
    assert LastCommonIndex(path, path, 0) == |path| - 1;
  }

  /** A node found from the node at `back` lies below it by the length of `tp` and is named
      like the last element of `tp`, in the whole document. */
  lemma FoundNodeBelow(doc: XNode, back: Pos, tp: Path, k: Path)
    requires |tp| >= 1 && NodeAt(doc, back).Some?
    requires k in FindNodesMatching(NodeAt(doc, back).value, back, tp)
    ensures var v := FindNodesMatching(NodeAt(doc, back).value, back, tp)[k];
      |v| == |back| + |tp| && v[..|back|] == back
      && NodeAt(doc, v).Some? && NodeName(NodeAt(doc, v).value) == tp[|tp| - 1].name
  {
    var n := NodeAt(doc, back).value;
    FindNodesMatchingKeys(n, back, tp);
    var v := FindNodesMatching(n, back, tp)[k];
    var below := v[|back|..];
    assert NodeAt(n, below).Some? && NodeName(NodeAt(n, below).value) == tp[|tp| - 1].name;
    assert v == back + below;
    hide FindNodesMatching;
    NodeAtAppend(doc, back, below);
  }

  /** What the rekeyed diff search holds under the new path is such a node. */
  lemma RekeyBelow(doc: XNode, back: Pos, tp: Path, newPath: Path)
    requires |tp| >= 1 && newPath != [] && tp[|tp| - 1] == newPath[|newPath| - 1]
    requires NodeAt(doc, back).Some?
    ensures var r := Rekey(FindNodesMatching(NodeAt(doc, back).value, back, tp), newPath);
      r.Success? && newPath in r.value ==>
        r.value[newPath].Some? && |r.value[newPath].value| == |back| + |tp|
        && r.value[newPath].value[..|back|] == back
        && NodeAt(doc, r.value[newPath].value).Some?
        && NodeName(NodeAt(doc, r.value[newPath].value).value) == newPath[|newPath| - 1].name
  {
    var found := FindNodesMatching(NodeAt(doc, back).value, back, tp);
    if |found| == 1 {
      var k :| k in found;
      RekeySingle(found, newPath, k);
      FoundNodeBelow(doc, back, tp, k);
    }
  }

  /** When the new path continues the old one, the diff search descends from the old path's
      node: what it finds lies below that node by the extra length, and is named like the last
      element of the new path. */
  lemma PathsDiffExtends(doc: XNode, oldPath: Path, newPath: Path, last: Pos)
    requires oldPath != [] && |oldPath| < |newPath| && newPath[..|oldPath|] == oldPath
    requires NodeAt(doc, last).Some?
    ensures var r := PathsDiff(doc, oldPath, newPath, Some(last));
      r.Success? && newPath in r.value ==>
        r.value[newPath].Some? && |r.value[newPath].value| == |last| + |newPath| - |oldPath|
        && r.value[newPath].value[..|last|] == last
        && NodeAt(doc, r.value[newPath].value).Some?
        && NodeName(NodeAt(doc, r.value[newPath].value).value) == newPath[|newPath| - 1].name
  {
    hide Rekey, FindNodesMatching, Backward;
    assert newPath[0] == oldPath[0];
    var s := LastCommonIndex(newPath, oldPath, 0);
    assert forall k :: 0 <= k < |oldPath| ==> newPath[k] == oldPath[k];
    assert s == |oldPath| - 1;
    assert BackParent(doc, oldPath, Some(last), s) == Some(last);
    var tp := newPath[s + 1..];
    assert PathsDiff(doc, oldPath, newPath, Some(last)) == Rekey(FindNodesMatching(NodeAt(doc, last).value, last, tp), newPath);
    RekeyBelow(doc, last, tp, newPath);
  }
}
