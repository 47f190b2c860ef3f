/** XmlPathNode: one step of a path through a request tree. A step names an element and, for an
    element recognised by some of its children, carries those children as a fingerprint. */
module PathNodes {
  import opened Wrappers
  import JavaText

  /** XmlPathNode.Type. */
  datatype NodeType = Node | NodeWithChildren | ChildNode | ChildNodeDynamic

  /** `value` and `childNodes` are the nullable fields of the Java class: None and NoList are
      null. */
  datatype PathNode = PathNode(kind: NodeType, name: string, value: Option<string>,
                               childNodes: ChildList)

  /** The nullable `List<XmlPathNode> childNodes` field. */
  datatype ChildList = NoList | List(items: seq<PathNode>)

  /** The two-argument constructor. */
  function Named(kind: NodeType, name: string): (n: PathNode)
    ensures n.kind == kind && n.name == name
    ensures n.value == None && n.childNodes == NoList
  {
    PathNode(kind, name, None, NoList)
  }

  /** The constructor taking a text value: sets the value and leaves no child list. */
  function WithValue(kind: NodeType, name: string, value: Option<string>): (n: PathNode)
    ensures n.kind == kind && n.name == name
    ensures n.value == value && n.childNodes == NoList
  {
    PathNode(kind, name, value, NoList)
  }

  /** The constructor taking a child list: sets the child list and leaves no value. */
  function WithChildren(kind: NodeType, name: string, children: seq<PathNode>): (n: PathNode)
    ensures n.kind == kind && n.name == name
    ensures n.value == None && n.childNodes == List(children)
  {
    PathNode(kind, name, None, List(children))
  }

  /** getChildNodes: the stored children, or the empty list when no list was given. */
  function GetChildNodes(n: PathNode): (r: seq<PathNode>)
    ensures n.childNodes.List? ==> r == n.childNodes.items
    ensures n.childNodes.NoList? ==> r == []
  {
    match n.childNodes
    case NoList => []
    case List(items) => items
  }

  /** XmlPathNode.equals: type, name, value and child list all equal (null only equal to null). */
  predicate Equals(a: PathNode, b: PathNode) {
    a.kind == b.kind && a.name == b.name && a.value == b.value && a.childNodes == b.childNodes
  }

  lemma EqualsIsValueEquality(a: PathNode, b: PathNode)
    ensures Equals(a, b) <==> a == b
    ensures Equals(a, a)
    ensures Equals(a, b) == Equals(b, a)
  {
  }

  /** A node built without a child list is not equal to one built with an empty list, although
      both report no children. */
  lemma NoListDiffersFromEmptyList(kind: NodeType, name: string)
    ensures GetChildNodes(Named(kind, name)) == GetChildNodes(WithChildren(kind, name, [])) == []
    ensures !Equals(Named(kind, name), WithChildren(kind, name, []))
  {
  }

  /** A dynamic child that carries a concrete value never equals the value-less template child. */
  lemma ConcreteDynamicChildDiffers(name: string, v: string)
    ensures !Equals(WithValue(ChildNodeDynamic, name, Some(v)), Named(ChildNodeDynamic, name))
  {
  }

  /** The hash of an enum constant. The JVM uses the identity hash of the constant object, which
      is fixed for one run; its ordinal stands in for it here. */
  function TypeHash(t: NodeType): int {
    match t
    case Node => 0
    case NodeWithChildren => 1
    case ChildNode => 2
    case ChildNodeDynamic => 3
  }

  /** XmlPathNode.hashCode: Objects.hash(type, name, value, childNodes), null hashing to 0. */
  function HashCode(n: PathNode): int
    decreases n, 1
  {
    var h0 := JavaText.Wrap32(31 + TypeHash(n.kind));
    var h1 := JavaText.Wrap32(31 * h0 + JavaText.StringHash(n.name));
    var h2 := JavaText.Wrap32(31 * h1 + (if n.value.Some? then JavaText.StringHash(n.value.value) else 0));
    JavaText.Wrap32(31 * h2 + (if n.childNodes.List? then ChildrenHash(n, |n.childNodes.items|) else 0))
  }

  /** List.hashCode of the first `k` children of `n`. */
  function ChildrenHash(n: PathNode, k: nat): int
    requires n.childNodes.List? && k <= |n.childNodes.items|
    decreases n, 0, k
  {
    if k == 0 then 1
    else
      var c := n.childNodes.items[k - 1];
      JavaText.Wrap32(31 * ChildrenHash(n, k - 1) + HashCode(c))
  }

  /** List.hashCode of a sequence of nodes, as XmlPath.hashCode uses it. */
  function ListHash(s: seq<PathNode>): int {
    if s == [] then 1 else JavaText.Wrap32(31 * ListHash(s[..|s| - 1]) + HashCode(s[|s| - 1]))
  }

  /** hashCode agrees with equals. */
  lemma HashConsistentWithEquals(a: PathNode, b: PathNode)
    requires Equals(a, b)
    ensures HashCode(a) == HashCode(b)
  {
  }
}
