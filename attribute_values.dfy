/** How the value of a client attribute is read, compared and stored: file references, numbers
    and personal data. Number parsing and MD5 are calls into libraries; they are parameters
    here (`parse` is Double.parseDouble of the trimmed text, None where that or the BigDecimal
    built from it throws NumberFormatException; `md5Hex` is DigestUtils.md5Hex). */
module AttributeValues {
  import opened Wrappers
  import opened JavaText
  import opened XmlTree

  const HASH := "hash"
  const KEY := "key"
  const SEGMENT := "filial"

  // ---------------------------------------------------------------------------------------
  // checkFileAttribute

  /** A file reference: the text names a segment, a key and a hash. */
  predicate IsFileReference(value: string) {
    Contains(value, SEGMENT) && Contains(value, KEY) && Contains(value, HASH)
  }

  /** XmlUtils.checkFileAttribute: a file reference is compared by its hash only, that is by
      "hash" and what follows the first "hash"; any other value is compared as it is. */
  function CheckFileAttribute(value: string): (r: string)
    ensures !IsFileReference(value) ==> r == value
    ensures IsFileReference(value) ==>
      exists i :: OccursAt(value, HASH, i) && (forall j :: 0 <= j < i ==> !OccursAt(value, HASH, j))
        && r == HASH + value[i + |HASH|..]
  {
    if IsFileReference(value) then HASH + SubstringAfter(value, HASH) else value
  }

  /** A file reference is reduced to "hash" and the suffix after its first "hash". */
  lemma ReducedIsHashAndSuffix(value: string) returns (i: nat)
    requires IsFileReference(value)
    ensures i + |HASH| <= |value| && CheckFileAttribute(value) == HASH + value[i + |HASH|..]
  {
    i := IndexOf(value, HASH);
  }

  /** A file reference is reduced to a text that starts with "hash". */
  lemma CheckFileAttributeStartsWithHash(value: string)
    requires IsFileReference(value)
    ensures |CheckFileAttribute(value)| >= |HASH| && CheckFileAttribute(value)[..|HASH|] == HASH
  {
  }

  /** Reducing a reduced value changes nothing. */
  lemma CheckFileAttributeIdempotent(value: string)
    ensures CheckFileAttribute(CheckFileAttribute(value)) == CheckFileAttribute(value)
  {
    var r := CheckFileAttribute(value);
    if IsFileReference(value) && IsFileReference(r) {
      var tail := SubstringAfter(value, HASH);
      assert r == HASH + tail;
      IndexOfPrefix(HASH, tail);
      assert (HASH + tail)[|HASH|..] == tail;
    }
  }

  // ---------------------------------------------------------------------------------------
  // compareClientAttrsValues

  /** XmlUtils.compareClientAttrsValues: two numbers compare by value (so "1.0" and "1" agree),
      and as soon as either side is not a number the texts must be equal. */
  function CompareClientAttrsValues(parse: string -> Option<real>, savedValue: string, checkValue: string): bool {
    match (parse(savedValue), parse(checkValue))
    case (Some(saved), Some(check)) => saved == check
    case _ => checkValue == savedValue
  }

  /** The comparison does not depend on which value was saved. */
  lemma CompareClientAttrsValuesSymmetric(parse: string -> Option<real>, a: string, b: string)
    ensures CompareClientAttrsValues(parse, a, b) == CompareClientAttrsValues(parse, b, a)
  {
  }

  /** A value always matches itself. */
  lemma CompareClientAttrsValuesReflexive(parse: string -> Option<real>, a: string)
    ensures CompareClientAttrsValues(parse, a, a)
  {
  }

  /** Where either side is not a number, only equal texts match; where both are, equal numbers
      match even when written differently. */
  lemma CompareClientAttrsValuesCases(parse: string -> Option<real>, a: string, b: string)
    ensures parse(a).None? || parse(b).None? ==> (CompareClientAttrsValues(parse, a, b) <==> a == b)
    ensures parse(a).Some? && parse(b).Some? ==>
      (CompareClientAttrsValues(parse, a, b) <==> parse(a).value == parse(b).value)
  {
  }

  /** Comparison is transitive, so matching values fall into classes. */
  lemma CompareClientAttrsValuesTransitive(parse: string -> Option<real>, a: string, b: string, c: string)
    requires CompareClientAttrsValues(parse, a, b) && CompareClientAttrsValues(parse, b, c)
    ensures CompareClientAttrsValues(parse, a, c)
  {
  }

  // ---------------------------------------------------------------------------------------
  // checkIsZeroNumberAttribute

  /** XmlUtils.checkIsZeroNumberAttribute: the node's first child holds a number equal to zero.
      A missing first child, or one without a value, is a null dereference. */
  function CheckIsZeroNumberAttribute(parse: string -> Option<real>, n: XNode): (r: Result<bool>)
    ensures r.Failure? <==> FirstChildValue(n).None?
    ensures r.Success? ==> (r.value <==> parse(FirstChildValue(n).value) == Some(0.0))
  {
    match FirstChildValue(n)
    case None => Failure(RuntimeFault("NullPointerException"))
    case Some(v) =>
      match parse(v)
      case Some(x) => Success(x == 0.0)
      case None => Success(false)
  }

  /** A single-text node never fails the zero test. */
  lemma CheckIsZeroOnTextValueNode(parse: string -> Option<real>, n: XNode)
    requires IsTextValueNode(n)
    ensures CheckIsZeroNumberAttribute(parse, n).Success?
  {
    TextValueNodeHasValue(n);
  }

  // ---------------------------------------------------------------------------------------
  // hashPersonalDataAttribute

  /** The document after hashing the text of the node at `pos`: only a single-text node is
      rewritten, to the MD5 of its old text. */
  function HashedAt(root: XNode, pos: Pos, md5Hex: string -> string): (r: XNode)
    requires NodeAt(root, pos).Some?
    ensures !IsTextValueNode(NodeAt(root, pos).value) ==> r == root
    ensures IsTextValueNode(NodeAt(root, pos).value) ==>
      NodeAt(r, pos).Some? && IsTextValueNode(NodeAt(r, pos).value)
      && NodeName(NodeAt(r, pos).value) == NodeName(NodeAt(root, pos).value)
      && FirstChildValue(NodeAt(r, pos).value) == Some(md5Hex(FirstChildValue(NodeAt(root, pos).value).value))
  {
    var n := NodeAt(root, pos).value;
    if IsTextValueNode(n) then
      TextValueNodeHasValue(n);
      SetFirstChildText(root, pos, md5Hex(FirstChildValue(n).value))
    else root
  }

  /** Hashing rewrites a text and nothing else: the document keeps its shape. */
  lemma HashedAtSameShape(root: XNode, pos: Pos, md5Hex: string -> string)
    requires NodeAt(root, pos).Some?
    ensures SameShape(root, HashedAt(root, pos, md5Hex))
  {
    var n := NodeAt(root, pos).value;
    if IsTextValueNode(n) {
      TextValueNodeHasValue(n);
      ReplaceAtSameShape(root, pos, Element(n.name, n.attrs, [Text(md5Hex(FirstChildValue(n).value))]));
    } else {
      SameShapeReflexive(root);
    }
  }

  /** A parsed request document; the source rewrites its text nodes in place. */
  class RequestDocument {
    var root: XNode

    constructor (root: XNode)
      ensures this.root == root
    {
      this.root := root;
    }

    /** XmlUtils.hashPersonalDataAttribute on the node at `pos`. */
    method HashPersonalDataAttribute(pos: Pos, md5Hex: string -> string)
      requires NodeAt(root, pos).Some?
      modifies this
      ensures root == HashedAt(old(root), pos, md5Hex)
    {
      var node := NodeAt(root, pos).value;
      if IsTextValueNode(node) {
        TextValueNodeHasValue(node);
        var value := FirstChildValue(node).value;
        var hashedValue := md5Hex(value);
        root := SetFirstChildText(root, pos, hashedValue);
      }
    }
  }
}
