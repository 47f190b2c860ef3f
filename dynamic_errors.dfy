/** Error texts for client attributes inside a repeated section: the text names the section
    instance by the value of its dynamic child (for example the section number). */
module DynamicErrors {
  import opened Wrappers
  import opened PathNodes
  import opened XmlPaths
  import opened XmlTree
  import opened XmlMarks
  import opened DynamicPaths
  import opened PathMatching

  const INCORRECT_STRUCTURE := "Некорректная структура данных."
  const NO_ERROR_DESCRIPTION := "Не найдено описание ошибки атрибута "
  const NO_VARIABLE_PART := "Для динамической ошибки не найдена переменная часть описания."

  /** The name of the first CHILD_NODE_DYNAMIC child in the list. */
  function FirstDynamicChildName(cs: seq<PathNode>): (r: Option<string>)
    ensures r.None? <==> forall j :: 0 <= j < |cs| ==> cs[j].kind != ChildNodeDynamic
    ensures r.Some? ==> exists j :: 0 <= j < |cs| && cs[j].kind == ChildNodeDynamic && cs[j].name == r.value
                                   && forall k :: 0 <= k < j ==> cs[k].kind != ChildNodeDynamic
  {
    if cs == [] then None
    else if cs[0].kind == ChildNodeDynamic then Some(cs[0].name)
    else
      var r := FirstDynamicChildName(cs[1..]);
      assert forall j :: 1 <= j < |cs| ==> cs[j] == cs[1..][j - 1];
      if r.Some? then
        var j :| 0 <= j < |cs[1..]| && cs[1..][j].kind == ChildNodeDynamic && cs[1..][j].name == r.value
                 && forall k :: 0 <= k < j ==> cs[1..][k].kind != ChildNodeDynamic;
        assert cs[j + 1] == cs[1..][j];
        r
      else r
  }

  /** A dynamic child with no dynamic child before it is the first one. */
  lemma {:induction false} FirstDynamicChildAt(cs: seq<PathNode>, j: nat)
    requires j < |cs| && cs[j].kind == ChildNodeDynamic
    requires forall k :: 0 <= k < j ==> cs[k].kind != ChildNodeDynamic
    ensures FirstDynamicChildName(cs) == Some(cs[j].name)
  {
    if j > 0 {
      assert forall k :: 0 <= k < j - 1 ==> cs[1..][k] == cs[k + 1];
      FirstDynamicChildAt(cs[1..], j - 1);
    }
  }

  /** The last element of `p[..hi]` that is dynamic. */
  function NearestDynamicIndex(p: Path, hi: nat): (r: Option<nat>)
    requires hi <= |p|
    ensures r.None? <==> forall i :: 0 <= i < hi ==> !IsParentPathNodeDynamic(p[i])
    ensures r.Some? ==> r.value < hi && IsParentPathNodeDynamic(p[r.value])
                        && forall i :: r.value < i < hi ==> !IsParentPathNodeDynamic(p[i])
  {
    if hi == 0 then None
    else if IsParentPathNodeDynamic(p[hi - 1]) then Some(hi - 1)
    else NearestDynamicIndex(p, hi - 1)
  }

  /** One step of the search down from `hi`: the element just below is the nearest dynamic
      one, or the search goes on below it. */
  lemma NearestDynamicStep(p: Path, hi: nat)
    requires 0 < hi <= |p|
    ensures NearestDynamicIndex(p, hi) ==
      if IsParentPathNodeDynamic(p[hi - 1]) then Some(hi - 1) else NearestDynamicIndex(p, hi - 1)
  {
  }

  /** An element is dynamic exactly when it has children and a first dynamic child. */
  lemma DynamicIffFirstChild(e: PathNode)
    ensures IsParentPathNodeDynamic(e) <==> e.kind == NodeWithChildren && FirstDynamicChildName(GetChildNodes(e)).Some?
  {
    if IsParentPathNodeDynamic(e) {
      DynamicElementHasDynamicChild(e);
    }
  }

  /** A dynamic element has a first dynamic child. */
  lemma DynamicElementHasDynamicChild(e: PathNode)
    requires IsParentPathNodeDynamic(e)
    ensures FirstDynamicChildName(GetChildNodes(e)).Some?
  {
    var cs := GetChildNodes(e);
    var j :| 0 <= j < |cs| && cs[j].kind == ChildNodeDynamic;
  }

  /** XmlUtils.getNearestDynamicNodeChild, as a position: the first dynamic child of the
      innermost dynamic element of `p`, looked up under the ancestor of `pos` that element
      describes. None when `p` has no dynamic element or the ancestor lacks that child; a
      failed climb is a null dereference. */
  function NearestDynamicChild(doc: XNode, p: Path, pos: Pos): Result<Option<Pos>>
    requires NodeAt(doc, pos).Some?
  {
    match NearestDynamicIndex(p, |p|)
    case None => Success(None)
    case Some(i) =>
      DynamicElementHasDynamicChild(p[i]);
      var name := FirstDynamicChildName(GetChildNodes(p[i])).value;
      var parent := Backward(doc, Some(pos), Reverse(p[i..]), 0);
      if parent.None? then Failure(RuntimeFault("NullPointerException"))
      else
        BackwardExists(doc, Some(pos), Reverse(p[i..]));
        match ChildByName(NodeAt(doc, parent.value).value, name)
        case None => Success(None)
        case Some(k) => Success(Some(parent.value + [k]))
  }

  /** What getNearestDynamicNodeChild finds: the dynamic element of the path is the ancestor
      `|p| - 1 - i` levels above `pos`, it matches that element, and the result is its child
      named like the element's first dynamic child. */
  lemma NearestDynamicChildFound(doc: XNode, p: Path, pos: Pos)
    requires NodeAt(doc, pos).Some?
    ensures var r := NearestDynamicChild(doc, p, pos);
      r.Success? && r.value.Some? ==>
        var i := NearestDynamicIndex(p, |p|).value;
        var q := r.value.value;
        |p| - 1 - i <= |pos| && |q| == |pos| - (|p| - 1 - i) + 1
        && q[..|q| - 1] == pos[..|pos| - (|p| - 1 - i)]
        && NodeAt(doc, q[..|q| - 1]).Some?
        && BackStepMatches(NodeAt(doc, q[..|q| - 1]).value, p[i])
        && NodeAt(doc, q).Some?
        && Some(NodeName(NodeAt(doc, q).value)) == FirstDynamicChildName(GetChildNodes(p[i]))
  {
    var r := NearestDynamicChild(doc, p, pos);
    if r.Success? && r.value.Some? {
      var i := NearestDynamicIndex(p, |p|).value;
      var bp := Reverse(p[i..]);
      BackwardCharacterized(doc, pos, bp, 0);
      var parent := Up(pos, |bp| - 1);
      assert BackwardMatches(doc, pos, bp, 0);
      assert StepAt(doc, pos, |bp| - 1 - 0, bp[|bp| - 1]);
      assert bp[|bp| - 1] == p[i];
      var n := NodeAt(doc, parent).value;
      var name := FirstDynamicChildName(GetChildNodes(p[i])).value;
      var k := ChildByName(n, name).value;
      assert r.value.value == parent + [k];
      assert (parent + [k])[..|parent|] == parent;
      NodeAtChild(doc, parent, k);
    }
  }

  /** The inner loop of getNearestDynamicNodeChild: the first dynamic child of one element. */
  method FindDynamicChild(children: seq<PathNode>) returns (dynamicChildName: Option<string>)
    ensures dynamicChildName == FirstDynamicChildName(children)
  {
    for j := 0 to |children|
      invariant forall k :: 0 <= k < j ==> children[k].kind != ChildNodeDynamic
    {
      if children[j].kind == ChildNodeDynamic {
        FirstDynamicChildAt(children, j);
        return Some(children[j].name);
      }
    }
    return None;
  }

  /** The outer loop of getNearestDynamicNodeChild: the dynamic element nearest the end of the
      path and the name of its dynamic child. */
  method FindNearestDynamicElement(p: Path) returns (dynamicNodeIndex: int, dynamicChildName: string)
    ensures dynamicNodeIndex == -1 <==> NearestDynamicIndex(p, |p|).None?
    ensures dynamicNodeIndex != -1 ==>
      0 <= dynamicNodeIndex < |p| && NearestDynamicIndex(p, |p|) == Some(dynamicNodeIndex as nat)
      && FirstDynamicChildName(GetChildNodes(p[dynamicNodeIndex])) == Some(dynamicChildName)
  {
    hide NearestDynamicIndex, FirstDynamicChildName, IsParentPathNodeDynamic;
    dynamicNodeIndex := -1;
    dynamicChildName := "";
    var i := |p| - 1;
    while i >= 0
      invariant -1 <= i < |p|
      invariant NearestDynamicIndex(p, |p|) == NearestDynamicIndex(p, i + 1)
      decreases i + 1
    {
      var templatePathNode := p[i];
      DynamicIffFirstChild(templatePathNode);
      NearestDynamicStep(p, i + 1);
      if templatePathNode.kind == NodeWithChildren {
        var child := FindDynamicChild(GetChildNodes(templatePathNode));
        if child.Some? {
          dynamicNodeIndex := i;
          dynamicChildName := child.value;
          return;
        }
      }
      i := i - 1;
    }
  }

  /** XmlUtils.getNearestDynamicNodeChild. */
  method GetNearestDynamicNodeChild(doc: XNode, templatePath: Path, requestLastNodeByPath: Pos)
      returns (r: Result<Option<Pos>>)
    requires NodeAt(doc, requestLastNodeByPath).Some?
    ensures r == NearestDynamicChild(doc, templatePath, requestLastNodeByPath)
  {
    var dynamicNodeIndex, dynamicChildName := FindNearestDynamicElement(templatePath);
    if dynamicNodeIndex == -1 {
      return Success(None);
    }
    var subPath := Reverse(templatePath[dynamicNodeIndex..]);
    var dynamicParentNode := FindParentNodeByBackwardPath(doc, Some(requestLastNodeByPath), subPath);
    if dynamicParentNode.None? {
      return Failure(RuntimeFault("NullPointerException"));
    }
    BackwardExists(doc, Some(requestLastNodeByPath), subPath);
    var child := ChildByName(NodeAt(doc, dynamicParentNode.value).value, dynamicChildName);
    if child.None? {
      return Success(None);
    }
    return Success(Some(dynamicParentNode.value + [child.value]));
  }

  /** The first child's value as Java string concatenation renders it: "null" for a child
      without a value; None where there is no first child to dereference. */
  function ConcatFirstChildValue(n: XNode): (r: Option<string>)
    ensures r.None? <==> FirstChild(n).None?
    ensures FirstChildValue(n).Some? ==> r == FirstChildValue(n)
  {
    match FirstChild(n)
    case None => None
    case Some(c) => Some(NodeValue(c).GetOr("null"))
  }

  /** XmlUtils.getDynamicErrorDescription for the template leaf at `tpos` of `tdoc` and the
      request leaf at `rpos` of `rdoc`, both reached by the template path `path`. */
  function DynamicErrorDescription(path: Path, tdoc: XNode, tpos: Pos, rdoc: XNode, rpos: Pos): (r: Result<string>)
    requires NodeAt(tdoc, tpos).Some? && NodeAt(rdoc, rpos).Some?
  {
    var t := NearestDynamicChild(tdoc, path, tpos);
    if t.Failure? then Failure(t.fault)
    else
      var q := NearestDynamicChild(rdoc, path, rpos);
      if q.Failure? then Failure(q.fault)
      else if t.value.None? || q.value.None? then Failure(RuntimeFault(INCORRECT_STRUCTURE))
      else
        var templateChild := NodeAt(tdoc, tpos).value;
        if templateChild.Text? then Failure(RuntimeFault("NullPointerException"))
        else match GetErrorDescription(templateChild)
        case None => Failure(ServiceFault(NO_ERROR_DESCRIPTION + NodeName(templateChild)))
        case Some(error) =>
          NearestDynamicChildFound(tdoc, path, tpos);
          NearestDynamicChildFound(rdoc, path, rpos);
          var templateDynamic := NodeAt(tdoc, t.value.value).value;
          var value := ConcatFirstChildValue(NodeAt(rdoc, q.value.value).value);
          match GetPrefixDescription(templateDynamic)
          case Some(prefix) =>
            if value.None? then Failure(RuntimeFault("NullPointerException"))
            else Success(prefix + value.value + ". " + error)
          case None =>
            match GetPostfixDescription(templateDynamic)
            case None => Failure(RuntimeFault(NO_VARIABLE_PART))
            case Some(postfix) =>
              if value.None? then Failure(RuntimeFault("NullPointerException"))
              else Success(error + ". " + postfix + value.value)
  }

  /** A dynamic description carries the attribute's own error text and the value that tells
      the section instance apart, around the template's prefix or postfix text. */
  lemma DynamicErrorDescriptionParts(path: Path, tdoc: XNode, tpos: Pos, rdoc: XNode, rpos: Pos)
    requires NodeAt(tdoc, tpos).Some? && NodeAt(rdoc, rpos).Some?
    ensures var r := DynamicErrorDescription(path, tdoc, tpos, rdoc, rpos);
      r.Success? ==>
        GetErrorDescription(NodeAt(tdoc, tpos).value).Some?
        && NearestDynamicChild(tdoc, path, tpos).Success? && NearestDynamicChild(tdoc, path, tpos).value.Some?
        && NearestDynamicChild(rdoc, path, rpos).Success? && NearestDynamicChild(rdoc, path, rpos).value.Some?
        && var error := GetErrorDescription(NodeAt(tdoc, tpos).value).value;
           var td := NearestDynamicChild(tdoc, path, tpos).value.value;
           var rd := NearestDynamicChild(rdoc, path, rpos).value.value;
           NodeAt(tdoc, td).Some? && NodeAt(rdoc, rd).Some?
           && ConcatFirstChildValue(NodeAt(rdoc, rd).value).Some?
           && var value := ConcatFirstChildValue(NodeAt(rdoc, rd).value).value;
              match GetPrefixDescription(NodeAt(tdoc, td).value)
              case Some(prefix) => r.value == prefix + value + ". " + error
              case None =>
                GetPostfixDescription(NodeAt(tdoc, td).value).Some?
                && r.value == error + ". " + GetPostfixDescription(NodeAt(tdoc, td).value).value + value
  {
    var r := DynamicErrorDescription(path, tdoc, tpos, rdoc, rpos);
    if r.Success? {
      NearestDynamicChildFound(tdoc, path, tpos);
      NearestDynamicChildFound(rdoc, path, rpos);
    }
  }

  /** A path without dynamic elements has no section instance to name: the description fails
      as an incorrect structure. */
  lemma StaticPathHasNoDynamicDescription(path: Path, tdoc: XNode, tpos: Pos, rdoc: XNode, rpos: Pos)
    requires NodeAt(tdoc, tpos).Some? && NodeAt(rdoc, rpos).Some?
    requires !IsDynamicPath(path)
    ensures DynamicErrorDescription(path, tdoc, tpos, rdoc, rpos) == Failure(RuntimeFault(INCORRECT_STRUCTURE))
  {
  }

  /** XmlUtils.getDynamicErrorDescription. */
  method GetDynamicErrorDescription(path: Path, tdoc: XNode, templateChildNode: Pos, rdoc: XNode, reqChildNode: Pos)
      returns (r: Result<string>)
    requires NodeAt(tdoc, templateChildNode).Some? && NodeAt(rdoc, reqChildNode).Some?
    ensures r == DynamicErrorDescription(path, tdoc, templateChildNode, rdoc, reqChildNode)
  {
    var templateDynamicNode := GetNearestDynamicNodeChild(tdoc, path, templateChildNode);
    if templateDynamicNode.Failure? {
      return Failure(templateDynamicNode.fault);
    }
    var reqDynamicNode := GetNearestDynamicNodeChild(rdoc, path, reqChildNode);
    if reqDynamicNode.Failure? {
      return Failure(reqDynamicNode.fault);
    }
    if templateDynamicNode.value.None? || reqDynamicNode.value.None? {
      return Failure(RuntimeFault(INCORRECT_STRUCTURE));
    }
    var templateChild := NodeAt(tdoc, templateChildNode).value;
    if templateChild.Text? {
      return Failure(RuntimeFault("NullPointerException"));
    }
    var error := GetErrorDescription(templateChild);
    if error.None? {
      return Failure(ServiceFault(NO_ERROR_DESCRIPTION + NodeName(templateChild)));
    }
    NearestDynamicChildFound(tdoc, path, templateChildNode);
    NearestDynamicChildFound(rdoc, path, reqChildNode);
    var templateDynamic := NodeAt(tdoc, templateDynamicNode.value.value).value;
    var value := ConcatFirstChildValue(NodeAt(rdoc, reqDynamicNode.value.value).value);
    var additionalDescription := GetPrefixDescription(templateDynamic);
    if additionalDescription.Some? {
      if value.None? {
        return Failure(RuntimeFault("NullPointerException"));
      }
      return Success(additionalDescription.value + value.value + ". " + error.value);
    }
    additionalDescription := GetPostfixDescription(templateDynamic);
    if additionalDescription.None? {
      return Failure(RuntimeFault(NO_VARIABLE_PART));
    }
    if value.None? {
      return Failure(RuntimeFault("NullPointerException"));
    }
    return Success(error.value + ". " + additionalDescription.value + value.value);
  }
}
