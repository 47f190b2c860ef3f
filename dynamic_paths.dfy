/** Dynamic path elements: a NODE_WITH_CHILDREN step one of whose fingerprint children is
    CHILD_NODE_DYNAMIC, so that its value differs from one instance of a repeated section to
    the next. A request path carries the concrete values; the template path carries none. */
module DynamicPaths {
  import opened Wrappers
  import opened PathNodes
  import opened XmlPaths

  /** Some child in the list is CHILD_NODE_DYNAMIC (the inner loop of isParentPathNodeDynamic). */
  function AnyDynamicChild(cs: seq<PathNode>): (b: bool)
    ensures b <==> exists j :: 0 <= j < |cs| && cs[j].kind == ChildNodeDynamic
  {
    cs != [] && (cs[0].kind == ChildNodeDynamic || AnyDynamicChild(cs[1..]))
  }

  /** XmlUtils.isParentPathNodeDynamic. */
  predicate IsParentPathNodeDynamic(n: PathNode) {
    n.kind == NodeWithChildren && AnyDynamicChild(GetChildNodes(n))
  }

  /** XmlUtils.isDynamicPath: true at the first dynamic element, false when none is. */
  function IsDynamicPath(p: Path): (b: bool)
    ensures b <==> exists i :: 0 <= i < |p| && p[i].kind == NodeWithChildren
                      && exists c :: c in GetChildNodes(p[i]) && c.kind == ChildNodeDynamic
  {
    p != [] && (IsParentPathNodeDynamic(p[0]) || IsDynamicPath(p[1..]))
  }

  /** The template form of one fingerprint child: a dynamic child loses its concrete value. */
  function TemplateChild(c: PathNode): PathNode {
    if c.kind == ChildNodeDynamic then Named(ChildNodeDynamic, c.name) else c
  }

  function TemplateChildren(cs: seq<PathNode>): (r: seq<PathNode>)
    ensures |r| == |cs| && forall j :: 0 <= j < |cs| ==> r[j] == TemplateChild(cs[j])
  {
    seq(|cs|, j requires 0 <= j < |cs| => TemplateChild(cs[j]))
  }

  /** The template form of one path element; a non-dynamic element is kept as it is. */
  function TemplateNode(n: PathNode): PathNode {
    if IsParentPathNodeDynamic(n) then WithChildren(NodeWithChildren, n.name, TemplateChildren(GetChildNodes(n)))
    else n
  }

  /** XmlUtils.createTemplateDynamicPath: the template path a concrete request path instantiates.
      It keeps the length, every name and every non-dynamic element, and gives every dynamic
      child of a dynamic element its value-less template form. */
  function CreateTemplateDynamicPath(p: Path): (r: Path)
    ensures |r| == |p|
    ensures forall i :: 0 <= i < |p| ==> r[i].name == p[i].name && r[i].kind == p[i].kind
    ensures forall i :: 0 <= i < |p| && !IsParentPathNodeDynamic(p[i]) ==> r[i] == p[i]
    ensures forall i :: 0 <= i < |p| && IsParentPathNodeDynamic(p[i]) ==>
      r[i].value.None? && r[i].childNodes.List?
      && |r[i].childNodes.items| == |GetChildNodes(p[i])|
      && forall j :: 0 <= j < |GetChildNodes(p[i])| ==>
           var c, t := GetChildNodes(p[i])[j], r[i].childNodes.items[j];
           (c.kind == ChildNodeDynamic ==> t == Named(ChildNodeDynamic, c.name)) && (c.kind != ChildNodeDynamic ==> t == c)
  {
    seq(|p|, i requires 0 <= i < |p| => TemplateNode(p[i]))
  }

  lemma TemplateNodeIdempotent(n: PathNode)
    ensures TemplateNode(TemplateNode(n)) == TemplateNode(n)
  {
    if IsParentPathNodeDynamic(n) {
      var cs := GetChildNodes(n);
      var j :| 0 <= j < |cs| && cs[j].kind == ChildNodeDynamic;
      var ts := TemplateChildren(cs);
      assert ts[j].kind == ChildNodeDynamic;
      assert IsParentPathNodeDynamic(TemplateNode(n));
      assert TemplateChildren(ts) == ts;
    }
  }

  /** Rewriting a rewritten path changes nothing more. */
  lemma CreateTemplateDynamicPathIdempotent(p: Path)
    ensures CreateTemplateDynamicPath(CreateTemplateDynamicPath(p)) == CreateTemplateDynamicPath(p)
  {
    var r := CreateTemplateDynamicPath(p);
    forall i | 0 <= i < |p| ensures CreateTemplateDynamicPath(r)[i] == r[i] {
      TemplateNodeIdempotent(p[i]);
    }
  }

  /** The rewriting keeps a path dynamic or not dynamic. */
  lemma CreateTemplateDynamicPathKeepsDynamic(p: Path)
    ensures IsDynamicPath(CreateTemplateDynamicPath(p)) == IsDynamicPath(p)
  {
    var r := CreateTemplateDynamicPath(p);
    forall i | 0 <= i < |p| && IsParentPathNodeDynamic(p[i]) ensures IsParentPathNodeDynamic(r[i]) {
      var cs := GetChildNodes(p[i]);
      var j :| 0 <= j < |cs| && cs[j].kind == ChildNodeDynamic;
      assert GetChildNodes(r[i])[j].kind == ChildNodeDynamic;
    }
  }

  // ---------------------------------------------------------------------------------------
  // The shape of the steps a template compiles to.

  /** A fingerprint child as the template writes it: a fixed text, or a value-less dynamic
      child. */
  predicate TemplateChildShape(c: PathNode) {
    c.childNodes == NoList
    && ((c.kind == ChildNode && c.value.Some?) || (c.kind == ChildNodeDynamic && c.value.None?))
  }

  /** A path element as the template compiler builds it: a plain NODE, or a value-less
      NODE_WITH_CHILDREN whose children are fingerprint children. */
  predicate TemplateStep(e: PathNode) {
    e.value.None?
    && ((e.kind == Node && e.childNodes == NoList)
        || (e.kind == NodeWithChildren && e.childNodes.List?
            && forall j :: 0 <= j < |e.childNodes.items| ==> TemplateChildShape(e.childNodes.items[j])))
  }

  predicate TemplateShaped(p: Path) {
    forall i :: 0 <= i < |p| ==> TemplateStep(p[i])
  }

  /** A template path is already in template form. */
  lemma TemplateShapedIsFixpoint(p: Path)
    requires TemplateShaped(p)
    ensures CreateTemplateDynamicPath(p) == p
  {
    var r := CreateTemplateDynamicPath(p);
    forall i | 0 <= i < |p| ensures r[i] == p[i] {
      if IsParentPathNodeDynamic(p[i]) {
        var cs := GetChildNodes(p[i]);
        forall j | 0 <= j < |cs| ensures TemplateChild(cs[j]) == cs[j] {
          assert TemplateChildShape(cs[j]);
        }
        assert TemplateChildren(cs) == cs;
      }
    }
  }
}
