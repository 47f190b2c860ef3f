/** matchClientAttributesByPaths and hashPersonalData of ClientAttributesServiceOperator: the walk
    over the template's paths that finds, in a request document, the node of each client
    attribute, optionally hashing the personal-data ones in place. Each template path is searched
    from the document when there is no previous path or either path is dynamic, and otherwise
    from the node of the previous path by the difference of the two paths. The HashMaps are
    iterated in an order that is a parameter. */
module AttributeMatching {
  import opened Wrappers
  import opened XmlPaths
  import opened XmlTree
  import opened XmlMarks
  import opened DynamicPaths
  import opened PathMatching
  import opened AttributeValues
  import opened ClientAttributeErrors

  /** Every node recorded in `found` is a node of `root`. */
  predicate Recorded(root: XNode, found: map<Path, Option<Pos>>) {
    forall k :: k in found && found[k].Some? ==> NodeAt(root, found[k].value).Some?
  }

  /** A request path found for a template path: the template path itself, or a path of its
      length whose every step matches the template's step. */
  predicate FoundUnder(k: Path, tk: Path) {
    k == tk || (|k| == |tk| && forall j :: 0 <= j < |tk| ==> StepMatches(k[j], tk[j]))
  }

  /** Every recorded path was found for some template path. */
  predicate Shaped(t: Template, found: map<Path, Option<Pos>>) {
    forall k :: k in found ==> exists tk :: tk in t.paths && FoundUnder(k, tk)
  }

  /** The state of the walk: the document as hashed so far, the nodes found so far and the
      last path a search found. */
  datatype Scan = Scan(root: XNode, found: map<Path, Option<Pos>>, last: Option<Path>)

  /** The walk's invariant: the recorded nodes are nodes of the document, and the last path is
      recorded. */
  predicate Tracks(s: Scan) {
    Recorded(s.root, s.found) && (s.last.Some? ==> s.last.value in s.found)
  }

  /** A map of found nodes as the source holds it, with nullable values. */
  function AllFound(m: map<Path, Pos>): (r: map<Path, Option<Pos>>)
    ensures r.Keys == m.Keys && forall k :: k in r ==> r[k] == Some(m[k])
  {
    map k | k in m :: Some(m[k])
  }

  /** What the diff search records are nodes of the document. */
  lemma PathsDiffRecorded(doc: XNode, oldPath: Path, newPath: Path, oldLast: Option<Pos>)
    requires oldLast.Some? ==> NodeAt(doc, oldLast.value).Some?
    ensures PathsDiff(doc, oldPath, newPath, oldLast).Success? ==>
      Recorded(doc, PathsDiff(doc, oldPath, newPath, oldLast).value)
  {
    PathsDiffKeys(doc, oldPath, newPath, oldLast);
    var s := LastCommonIndex(newPath, oldPath, 0);
    if s != -1 && !(|oldPath| == |newPath| && s == |newPath| - 1) {
      BackParentExists(doc, oldPath, oldLast, s);
      var back := BackParent(doc, oldPath, oldLast, s);
      if s < |newPath| - 1 && back.Some? {
        RekeyBelow(doc, back.value, newPath[s + 1..], newPath);
      }
    }
  }

  /** What the search from the document records are nodes of the document, under paths found
      for the template path. */
  lemma FromDocumentRecorded(root: XNode, key: Path)
    requires |key| >= 1
    ensures Recorded(root, AllFound(FindNodesMatching(root, [], key)))
    ensures forall k :: k in FindNodesMatching(root, [], key) ==> FoundUnder(k, key)
  {
    FindNodesMatchingKeys(root, [], key);
    forall k | k in FindNodesMatching(root, [], key)
      ensures NodeAt(root, FindNodesMatching(root, [], key)[k]).Some?
    {
      var v := FindNodesMatching(root, [], key)[k];
      assert v[0..] == v;
    }
  }

  /** The search for one template path. */
  ghost function SearchPath(s: Scan, key: Path): (r: Result<map<Path, Option<Pos>>>)
    requires Tracks(s) && |key| >= 1
    ensures r.Success? ==> Recorded(s.root, r.value) && forall k :: k in r.value ==> FoundUnder(k, key)
  {
    if s.last.None? || IsDynamicPath(s.last.value) || IsDynamicPath(key) then
      FromDocumentRecorded(s.root, key);
      Success(AllFound(FindNodesMatching(s.root, [], key)))
    else
      PathsDiffRecorded(s.root, s.last.value, key, s.found[s.last.value]);
      PathsDiffKeys(s.root, s.last.value, key, s.found[s.last.value]);
      PathsDiff(s.root, s.last.value, key, s.found[s.last.value])
  }

  /** A document of the same shape keeps every recorded node. */
  lemma SameShapeRecorded(a: XNode, b: XNode, found: map<Path, Option<Pos>>)
    requires SameShape(a, b) && Recorded(a, found)
    ensures Recorded(b, found)
  {
    forall k | k in found && found[k].Some? ensures NodeAt(b, found[k].value).Some? {
      SameShapeNodeAt(a, b, found[k].value);
    }
  }

  /** Hashing the nodes found under one template path, in `order`: a null node throws. */
  function HashAll(root: XNode, rp: map<Path, Option<Pos>>, order: seq<Path>, md5Hex: string -> string)
    : (r: Result<XNode>)
    requires Recorded(root, rp) && forall i :: 0 <= i < |order| ==> order[i] in rp
    ensures r.Success? ==> SameShape(root, r.value)
    ensures r.Failure? <==> exists i :: 0 <= i < |order| && rp[order[i]].None?
    decreases |order|
  {
    if order == [] then SameShapeReflexive(root); Success(root)
    else match rp[order[0]]
      case None => Failure(RuntimeFault(NULL_POINTER))
      case Some(pos) =>
        var hashed := HashedAt(root, pos, md5Hex);
        HashedAtSameShape(root, pos, md5Hex);
        SameShapeRecorded(root, hashed, rp);
        var r := HashAll(hashed, rp, order[1..], md5Hex);
        assert r.Success? ==> SameShape(root, r.value) by {
          if r.Success? {
            SameShapeTransitive(root, hashed, r.value);
          }
        }
        assert forall i :: 1 <= i < |order| ==> order[i] == order[1..][i - 1];
        r
  }

  /** One pass of the loop, for the template path `key`. */
  ghost function ScanStep(t: Template, keyOrder: KeyOrder, md5Hex: string -> string, hash: bool, s: Scan, key: Path)
    : (r: Result<Scan>)
    requires WellFormed(t) && HashOrder(keyOrder) && key in t.paths && Tracks(s)
    ensures r.Success? ==> Tracks(r.value) && SameShape(s.root, r.value.root)
    ensures r.Success? && !hash ==> r.value.root == s.root
    ensures r.Success? ==> forall k :: k in r.value.found ==> k in s.found || FoundUnder(k, key)
  {
    match SearchPath(s, key)
    case Failure(f) => Failure(f)
    case Success(rp) =>
      var order := keyOrder(rp.Keys);
      assert Enumerates(order, rp.Keys);
      var last := if |order| == 0 then s.last else Some(order[0]);
      SameShapeReflexive(s.root);
      var hashed :=
        if hash && NodeHasPersonalDataMark(NodeAt(t.doc, t.paths[key]).value) then HashAll(s.root, rp, order, md5Hex)
        else Success(s.root);
      match hashed
      case Failure(f) => Failure(f)
      case Success(root) =>
        SameShapeRecorded(s.root, root, s.found);
        SameShapeRecorded(s.root, root, rp);
        Success(Scan(root, s.found + rp, last))
  }

  /** The loop over the remaining template paths `keys`. */
  ghost function ScanFrom(t: Template, keyOrder: KeyOrder, md5Hex: string -> string, hash: bool, s: Scan,
                          keys: seq<Path>): (r: Result<Scan>)
    requires WellFormed(t) && HashOrder(keyOrder) && Tracks(s)
    requires forall i :: 0 <= i < |keys| ==> keys[i] in t.paths
    ensures r.Success? ==> Tracks(r.value) && SameShape(s.root, r.value.root)
    ensures r.Success? && !hash ==> r.value.root == s.root
    ensures r.Success? && Shaped(t, s.found) ==> Shaped(t, r.value.found)
    decreases |keys|
  {
    if keys == [] then SameShapeReflexive(s.root); Success(s)
    else match ScanStep(t, keyOrder, md5Hex, hash, s, keys[0])
      case Failure(f) => Failure(f)
      case Success(next) =>
        assert Shaped(t, s.found) ==> Shaped(t, next.found) by {
          if Shaped(t, s.found) {
            forall k | k in next.found ensures exists tk :: tk in t.paths && FoundUnder(k, tk) {
              if k !in s.found {
                assert FoundUnder(k, keys[0]);
              }
            }
          }
        }
        var r := ScanFrom(t, keyOrder, md5Hex, hash, next, keys[1..]);
        assert r.Success? ==> SameShape(s.root, r.value.root) by {
          if r.Success? {
            SameShapeTransitive(s.root, next.root, r.value.root);
          }
        }
        r
  }

  /** matchClientAttributesByPaths on the document `doc`: the walk over the template's paths
      in HashMap order, from an empty map and no previous path. */
  ghost function MatchByPaths(t: Template, keyOrder: KeyOrder, md5Hex: string -> string, hash: bool, doc: XNode)
    : (r: Result<Scan>)
    requires WellFormed(t) && HashOrder(keyOrder)
    ensures r.Success? ==> Recorded(r.value.root, r.value.found) && Shaped(t, r.value.found)
    ensures r.Success? ==> SameShape(doc, r.value.root)
    ensures r.Success? && !hash ==> r.value.root == doc
  {
    var keys := keyOrder(t.paths.Keys);
    assert Enumerates(keys, t.paths.Keys);
    ScanFrom(t, keyOrder, md5Hex, hash, Scan(doc, map[], None), keys)
  }

  /** The walk's result as the request it parses to: the document it leaves and the nodes it
      found. */
  lemma MatchResolves(t: Template, keyOrder: KeyOrder, md5Hex: string -> string, hash: bool, doc: XNode,
                      lastUpdated: Option<int>)
    requires WellFormed(t) && HashOrder(keyOrder)
    ensures var m := MatchByPaths(t, keyOrder, md5Hex, hash, doc);
      m.Success? ==> Resolves(ParsedRequest(m.value.root, m.value.found, lastUpdated))
  {
  }

  // ---------------------------------------------------------------------------------------
  // The loop, on the document object the source rewrites in place.

  /** `requestPaths.forEach(... hashPersonalDataAttribute(value))`. */
  method HashFound(doc: RequestDocument, rp: map<Path, Option<Pos>>, order: seq<Path>, md5Hex: string -> string)
      returns (r: Result<()>)
    requires Recorded(doc.root, rp) && forall i :: 0 <= i < |order| ==> order[i] in rp
    modifies doc
    ensures var h := HashAll(old(doc.root), rp, order, md5Hex);
      (r.Success? <==> h.Success?) && (r.Failure? ==> r.fault == h.fault) && (h.Success? ==> doc.root == h.value)
  {
    for j := 0 to |order|
      invariant Recorded(doc.root, rp)
      invariant HashAll(doc.root, rp, order[j..], md5Hex) == HashAll(old(doc.root), rp, order, md5Hex)
    {
      assert order[j..][1..] == order[j + 1..];
      var value := rp[order[j]];
      if value.None? {
        return Failure(RuntimeFault(NULL_POINTER));
      }
      ghost var before := doc.root;
      doc.HashPersonalDataAttribute(value.value, md5Hex);
      HashedAtSameShape(before, value.value, md5Hex);
      SameShapeRecorded(before, doc.root, rp);
    }
    return Success(());
  }

  /** One pass of the loop, on the document object. */
  method MatchPath(t: Template, keyOrder: KeyOrder, md5Hex: string -> string, doc: RequestDocument, hash: bool,
                   found: map<Path, Option<Pos>>, last: Option<Path>, key: Path) returns (r: Result<Scan>)
    requires WellFormed(t) && HashOrder(keyOrder) && key in t.paths && Tracks(Scan(doc.root, found, last))
    modifies doc
    ensures r == ScanStep(t, keyOrder, md5Hex, hash, Scan(old(doc.root), found, last), key)
    ensures r.Success? ==> doc.root == r.value.root
  {
    ghost var s := Scan(doc.root, found, last);
    var requestPaths: map<Path, Option<Pos>>;
    if last.None? || IsDynamicPath(last.value) || IsDynamicPath(key) {
      var nodes := FindNodesMatchingPathFromParent(doc.root, [], key);
      requestPaths := AllFound(nodes);
    } else {
      var diff := GetChildNodesByPathsDiff(doc.root, last.value, key, found[last.value]);
      if diff.Failure? {
        return Failure(diff.fault);
      }
      requestPaths := diff.value;
    }
    assert SearchPath(s, key) == Success(requestPaths);
    var order := keyOrder(requestPaths.Keys);
    assert Enumerates(order, requestPaths.Keys);
    var lastSavedPath := last;
    if |order| != 0 {
      lastSavedPath := Some(order[0]);
    }
    if hash && NodeHasPersonalDataMark(NodeAt(t.doc, t.paths[key]).value) {
      var hashed := HashFound(doc, requestPaths, order, md5Hex);
      if hashed.Failure? {
        return Failure(hashed.fault);
      }
    }
    r := Success(Scan(doc.root, found + requestPaths, lastSavedPath));
  }

  /** matchClientAttributesByPaths: the nodes of the client attributes of the document, the
      personal-data ones hashed in place when `hashPersData` is set. */
  method MatchClientAttributesByPaths(t: Template, keyOrder: KeyOrder, md5Hex: string -> string,
                                      doc: RequestDocument, hashPersData: bool)
      returns (r: Result<map<Path, Option<Pos>>>)
    requires WellFormed(t) && HashOrder(keyOrder)
    modifies doc
    ensures var m := MatchByPaths(t, keyOrder, md5Hex, hashPersData, old(doc.root));
      (r.Success? <==> m.Success?) && (r.Failure? ==> r.fault == m.fault)
      && (m.Success? ==> r.value == m.value.found && doc.root == m.value.root)
  {
    var keys := keyOrder(t.paths.Keys);
    assert Enumerates(keys, t.paths.Keys);
    var clientAttributes: map<Path, Option<Pos>> := map[];
    var lastSavedPath: Option<Path> := None;
    for i := 0 to |keys|
      invariant Tracks(Scan(doc.root, clientAttributes, lastSavedPath))
      invariant ScanFrom(t, keyOrder, md5Hex, hashPersData, Scan(doc.root, clientAttributes, lastSavedPath), keys[i..])
        == MatchByPaths(t, keyOrder, md5Hex, hashPersData, old(doc.root))
    {
      assert keys[i..][1..] == keys[i + 1..];
      var step := MatchPath(t, keyOrder, md5Hex, doc, hashPersData, clientAttributes, lastSavedPath, keys[i]);
      if step.Failure? {
        return Failure(step.fault);
      }
      clientAttributes := step.value.found;
      lastSavedPath := step.value.last;
    }
    return Success(clientAttributes);
  }

  /** hashPersonalData: the same walk with hashing always on; the nodes found are discarded. */
  method HashPersonalData(t: Template, keyOrder: KeyOrder, md5Hex: string -> string, doc: RequestDocument)
      returns (r: Result<()>)
    requires WellFormed(t) && HashOrder(keyOrder)
    modifies doc
    ensures var m := MatchByPaths(t, keyOrder, md5Hex, true, old(doc.root));
      (r.Success? <==> m.Success?) && (r.Failure? ==> r.fault == m.fault)
      && (m.Success? ==> doc.root == m.value.root)
  {
    var found := MatchClientAttributesByPaths(t, keyOrder, md5Hex, doc, true);
    if found.Failure? {
      return Failure(found.fault);
    }
    return Success(());
  }
}
