/** XmlPath: a sequence of path nodes from the document root towards a client attribute. Paths
    are compared by value and serve as map keys; the class keeps the mutable list the source
    builds paths with. */
module XmlPaths {
  import opened Wrappers
  import opened PathNodes
  import JavaText

  /** The element list of an XmlPath, which is all that equals and hashCode look at. */
  type Path = seq<PathNode>

  /** The first index at or after `i` where `a` and `b` differ or one of them ends. */
  function MatchEnd(a: Path, b: Path, i: nat): (r: nat)
    ensures i <= r
    ensures r == i || (r <= |a| && r <= |b|)
    ensures forall k :: i <= k < r ==> k < |a| && k < |b| && a[k] == b[k]
    ensures r < |a| && r < |b| ==> a[r] != b[r]
    decreases |a| - i
  {
    if i >= |a| || i >= |b| || a[i] != b[i] then i else MatchEnd(a, b, i + 1)
  }

  /** The value XmlPath.containsPath computes: the last index of the run of equal elements that
      starts at `index`, or -1 when there is no such run. */
  function LastCommonIndex(a: Path, b: Path, index: nat): (r: int)
    ensures index >= |a| ==> r == -1
    ensures r == -1 <==> (index >= |a| || index >= |b| || a[index] != b[index])
    ensures r >= 0 ==> index <= r < |a| && r < |b|
    ensures r >= 0 ==> forall k :: index <= k <= r ==> a[k] == b[k]
    ensures r >= 0 && r + 1 < |a| && r + 1 < |b| ==> a[r + 1] != b[r + 1]
  {
    if index >= |a| then -1
    else
      var e := MatchEnd(a, b, index);
      if e == index then -1 else e - 1
  }

  /** Searching from 0, a non-negative result is the end of the longest common prefix. */
  lemma {:induction false} LastCommonIndexIsCommonPrefix(a: Path, b: Path)
    ensures var r := LastCommonIndex(a, b, 0);
      r >= 0 ==> a[..r + 1] == b[..r + 1] && (r + 1 == |a| || r + 1 == |b| || a[r + 1] != b[r + 1])
    ensures LastCommonIndex(a, b, 0) == -1 ==> a == [] || b == [] || a[0] != b[0]
  {
    var r := LastCommonIndex(a, b, 0);
    if r >= 0 {
      assert forall k :: 0 <= k <= r ==> a[k] == b[k];
      assert a[..r + 1] == b[..r + 1];
    }
  }

  class XmlPath {
    var pathElements: Path

    /** XmlPath(): the empty path. */
    constructor ()
      ensures pathElements == []
    {
      pathElements := [];
    }

    /** XmlPath(Collection) and XmlPath(XmlPathNode...): the given elements, in order. */
    constructor FromNodes(nodes: seq<PathNode>)
      ensures pathElements == nodes
    {
      pathElements := nodes;
    }

    /** XmlPath(XmlPath other): a copy equal to `other`. */
    constructor Copy(other: XmlPath)
      ensures pathElements == other.pathElements
    {
      pathElements := [];
      new;
      AddAllElements(other);
    }

    /** addPathElement: appends one element and keeps the earlier ones. */
    method AddPathElement(e: PathNode)
      modifies this
      ensures pathElements == old(pathElements) + [e]
    {
      pathElements := pathElements + [e];
    }

    /** addAllElements(XmlPath): appends the other path's elements in order. */
    method AddAllElements(other: XmlPath)
      requires other != this
      modifies this
      ensures pathElements == old(pathElements) + other.pathElements
    {
      var els := other.pathElements;
      var i := 0;
      while i < |els|
        invariant 0 <= i <= |els|
        invariant pathElements == old(pathElements) + els[..i]
      {
        AddPathElement(els[i]);
        assert els[..i + 1] == els[..i] + [els[i]];
        i := i + 1;
      }
      assert els[..i] == els;
    }

    /** addAllElements(List): appends the given elements in order. */
    method AddAllNodes(nodes: seq<PathNode>)
      modifies this
      ensures pathElements == old(pathElements) + nodes
    {
      var i := 0;
      while i < |nodes|
        invariant 0 <= i <= |nodes|
        invariant pathElements == old(pathElements) + nodes[..i]
      {
        AddPathElement(nodes[i]);
        assert nodes[..i + 1] == nodes[..i] + [nodes[i]];
        i := i + 1;
      }
      assert nodes[..i] == nodes;
    }

    /** getPathElement: null past the end, the element otherwise. */
    function GetPathElement(index: nat): (r: Option<PathNode>)
      reads this
      ensures r.None? <==> index >= |pathElements|
      ensures r.Some? ==> r.value == pathElements[index]
    {
      if index >= |pathElements| then None else Some(pathElements[index])
    }

    function GetPathElementsLength(): (n: nat)
      reads this
      ensures n == |pathElements|
    {
      |pathElements|
    }

    /** getPathElementsSubList(from, to): the elements from `from` up to `to`, exclusive. */
    function GetPathElementsSubList(from: nat, to: nat): (r: Path)
      reads this
      requires from <= to <= |pathElements|
      ensures |r| == to - from
      ensures forall k :: 0 <= k < |r| ==> r[k] == pathElements[from + k]
    {
      pathElements[from..to]
    }

    /** getPathElementsSubList(from): the elements from `from` to the end. */
    function GetPathElementsSubListFrom(from: nat): (r: Path)
      reads this
      requires from <= |pathElements|
      ensures pathElements[..from] + r == pathElements
    {
      GetPathElementsSubList(from, GetPathElementsLength())
    }

    /** equals: the element sequences are equal. */
    predicate Equals(other: XmlPath)
      reads this, other
    {
      pathElements == other.pathElements
    }

    /** hashCode: Objects.hash(pathElements). */
    function HashCode(): int
      reads this
    {
      JavaText.Wrap32(31 + ListHash(pathElements))
    }

    /** containsPath: scans from `index` while the elements agree and returns the last index that
        agreed, or -1. */
    method ContainsPath(other: XmlPath, index: nat) returns (r: int)
      ensures r == LastCommonIndex(pathElements, other.pathElements, index)
    {
      var a, b := pathElements, other.pathElements;
      if index >= |a| {
        return -1;
      }
      r := -1;
      var length := if |a| < |b| then |a| else |b|;
      var i := index;
      while i < length
        invariant index <= i
        invariant i <= length || i == index
        invariant r == if i == index then -1 else i - 1
        invariant MatchEnd(a, b, index) == MatchEnd(a, b, i)
      {
        if a[i] == b[i] {
          r := i;
        } else {
          break;
        }
        i := i + 1;
      }
    }
  }

  /** Equal paths hash equally. */
  lemma HashConsistentWithEquals(p: XmlPath, q: XmlPath)
    requires p.Equals(q)
    ensures p.HashCode() == q.HashCode()
  {
  }
}
