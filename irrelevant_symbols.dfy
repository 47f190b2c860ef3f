/** XmlUtils.replaceTextValueIrrelevantSymbols: before two requests are compared, every text
    of a document is lower-cased and stripped of the punctuation and spaces that do not make
    two values different, and a file reference is cut down to its hash. String.toLowerCase
    with Locale.ROOT is Unicode case mapping from the Java library; it is the parameter
    `toLower`. */
module IrrelevantSymbols {
  import opened Wrappers
  import opened JavaText
  import opened XmlTree
  import opened AttributeValues

  /** The characters of CLIENT_ATTR_VALUE_REG_EX, `[,"'( )]*`. */
  predicate IrrelevantSymbol(c: char) {
    c == ',' || c == '"' || c == '\'' || c == '(' || c == ' ' || c == ')'
  }

  predicate NoIrrelevantSymbols(s: string) {
    forall i :: 0 <= i < |s| ==> !IrrelevantSymbol(s[i])
  }

  /** replaceAll(CLIENT_ATTR_VALUE_REG_EX, ""): the text with every irrelevant symbol deleted
      and every other character kept, in order. */
  function StripIrrelevantSymbols(s: string): (r: string)
    ensures NoIrrelevantSymbols(r)
    ensures forall c :: c in r <==> c in s && !IrrelevantSymbol(c)
    ensures NoIrrelevantSymbols(s) ==> r == s
  {
    if s == [] then []
    else (if IrrelevantSymbol(s[0]) then [] else [s[0]]) + StripIrrelevantSymbols(s[1..])
  }

  /** Deleting symbols from two pieces is deleting them from the whole. */
  lemma {:induction false} StripConcat(a: string, b: string)
    ensures StripIrrelevantSymbols(a + b) == StripIrrelevantSymbols(a) + StripIrrelevantSymbols(b)
    decreases |a|
  {
    if a != [] {
      var head := if IrrelevantSymbol(a[0]) then [] else [a[0]];
      assert (a + b)[0] == a[0] && (a + b)[1..] == a[1..] + b;
      StripConcat(a[1..], b);
      assert StripIrrelevantSymbols(a + b) == head + StripIrrelevantSymbols(a[1..] + b);
      assert StripIrrelevantSymbols(a) == head + StripIrrelevantSymbols(a[1..]);
    } else {
      assert a + b == b;
    }
  }

  /** Stripping a stripped text changes nothing. */
  lemma StripIdempotent(s: string)
    ensures StripIrrelevantSymbols(StripIrrelevantSymbols(s)) == StripIrrelevantSymbols(s)
  {
  }

  /** "hash" followed by a suffix of a stripped text is stripped. */
  lemma HashAndSuffixStripped(s: string, i: nat)
    requires NoIrrelevantSymbols(s) && i <= |s|
    ensures NoIrrelevantSymbols(HASH + s[i..])
  {
    var r := HASH + s[i..];
    forall k | 0 <= k < |r|
      ensures !IrrelevantSymbol(r[k])
    {
      if k >= |HASH| {
        assert r[k] == s[i + k - |HASH|];
      }
    }
  }

  /** Cutting a stripped file reference down to its hash leaves it stripped. */
  lemma CheckFileAttributeKeepsStripped(s: string)
    requires NoIrrelevantSymbols(s)
    ensures NoIrrelevantSymbols(CheckFileAttribute(s))
  {
    hide NoIrrelevantSymbols, IsFileReference, CheckFileAttribute;
    if IsFileReference(s) {
      var i := ReducedIsHashAndSuffix(s);
      HashAndSuffixStripped(s, i + |HASH|);
    }
  }

  /** The new value of one non-empty text node: lower-cased, stripped, and a file reference
      reduced to "hash" and what follows its first "hash". An empty text is left alone. */
  function NormalizeText(toLower: string -> string, value: string): (r: string)
    ensures value == [] ==> r == []
    ensures value != [] ==> NoIrrelevantSymbols(r) && CheckFileAttribute(r) == r
    ensures value != [] && !IsFileReference(StripIrrelevantSymbols(toLower(value))) ==>
      r == StripIrrelevantSymbols(toLower(value))
  {
    if value == [] then value
    else
      var stripped := StripIrrelevantSymbols(toLower(value));
      CheckFileAttributeKeepsStripped(stripped);
      CheckFileAttributeIdempotent(stripped);
      CheckFileAttribute(stripped)
  }

  /** What replaceTextValueIrrelevantSymbols makes of a child: a text gets its new value, an
      element is processed in turn. */
  function NormalizedChild(toLower: string -> string, k: XNode): XNode
    decreases k, 1
  {
    match k
    case Text(v) => Text(NormalizeText(toLower, v))
    case Element(_, _, _) => Normalized(toLower, k)
  }

  /** The document below `n` after replaceTextValueIrrelevantSymbols(n): the node itself is
      not touched, only what lies under it. */
  function Normalized(toLower: string -> string, n: XNode): XNode
    decreases n, 0
  {
    match n
    case Text(_) => n
    case Element(name, attrs, kids) =>
      Element(name, attrs, seq(|kids|, j requires 0 <= j < |kids| => NormalizedChild(toLower, kids[j])))
  }

  /** Only texts change: the document keeps its shape. */
  lemma {:induction false} NormalizedSameShape(toLower: string -> string, n: XNode)
    ensures SameShape(n, Normalized(toLower, n))
    decreases n
  {
    if n.Element? {
      var r := Normalized(toLower, n);
      forall i | 0 <= i < |n.kids|
        ensures SameShape(n.kids[i], r.kids[i])
      {
        assert r.kids[i] == NormalizedChild(toLower, n.kids[i]);
        if n.kids[i].Element? {
          NormalizedSameShape(toLower, n.kids[i]);
        }
      }
    }
  }

  /** Every node below `n` is in the result as its normalised self: elements keep their names
      and attributes, and texts get their new values. */
  lemma {:induction false} NormalizedNodeAt(toLower: string -> string, n: XNode, p: Pos)
    requires p != [] && NodeAt(n, p).Some?
    ensures NodeAt(Normalized(toLower, n), p) == Some(NormalizedChild(toLower, NodeAt(n, p).value))
    decreases |p|
  {
    var k := n.kids[p[0]];
    var r := Normalized(toLower, n);
    assert r.kids[p[0]] == NormalizedChild(toLower, k);
    if p[1..] != [] {
      assert k.Element?;
      NormalizedNodeAt(toLower, k, p[1..]);
    }
  }

  /** After the rewrite no non-empty text below the document holds an irrelevant symbol. */
  lemma NormalizedTextHasNoIrrelevantSymbols(toLower: string -> string, n: XNode, p: Pos, v: string)
    requires p != [] && NodeAt(n, p) == Some(Text(v)) && v != []
    ensures var m := NodeAt(Normalized(toLower, n), p);
      m.Some? && m.value.Text? && NoIrrelevantSymbols(m.value.text)
  {
    NormalizedNodeAt(toLower, n, p);
  }

  /** replaceTextValueIrrelevantSymbols(Node) on the subtree `parent`: each child in turn is
      rewritten where it stands. */
  method ReplaceIrrelevantSymbolsIn(parent: XNode, toLower: string -> string) returns (r: XNode)
    ensures r == Normalized(toLower, parent)
    decreases parent
  {
    if parent.Text? {
      return parent;
    }
    var kids := parent.kids;
    for i := 0 to |kids|
      invariant |kids| == |parent.kids|
      invariant forall j :: 0 <= j < i ==> kids[j] == NormalizedChild(toLower, parent.kids[j])
      invariant forall j :: i <= j < |kids| ==> kids[j] == parent.kids[j]
    {
      var node := parent.kids[i];
      if node.Text? {
        var value := node.text;
        if value != [] {
          kids := kids[i := Text(NormalizeText(toLower, value))];
        }
      } else {
        var k := ReplaceIrrelevantSymbolsIn(node, toLower);
        kids := kids[i := k];
      }
    }
    r := Element(parent.name, parent.attrs, kids);
  }

  /** The call made on a freshly parsed document: every text of it is rewritten in place. */
  method ReplaceTextValueIrrelevantSymbols(doc: RequestDocument, toLower: string -> string)
    modifies doc
    ensures doc.root == Normalized(toLower, old(doc.root))
  {
    var r := ReplaceIrrelevantSymbolsIn(doc.root, toLower);
    doc.root := r;
  }

  /** replaceTextValueIrrelevantSymbols(String): null stays null; a non-blank file reference is
      cut down to its hash; the value is then trimmed. */
  function ReplaceValueIrrelevantSymbols(value: Option<string>): (r: Option<string>)
    ensures r.None? <==> value.None?
    ensures r.Some? && r.value != [] ==> !TrimmedAway(r.value[0]) && !TrimmedAway(r.value[|r.value| - 1])
    ensures value.Some? && (IsBlank(value.value) || !IsFileReference(value.value)) ==> r == Some(Trim(value.value))
  {
    match value
    case None => None
    case Some(v) => Some(Trim(if !IsBlank(v) then CheckFileAttribute(v) else v))
  }

  /** A value already trimmed and without a file reference comes back as it is. */
  lemma ReplaceValueKeepsPlainValue(v: string)
    requires !IsFileReference(v) && (v != [] ==> !TrimmedAway(v[0]) && !TrimmedAway(v[|v| - 1]))
    ensures ReplaceValueIrrelevantSymbols(Some(v)) == Some(v)
  {
    TrimKeepsTrimmed(v);
  }

  /** A slice of a text that is not a file reference is not one either. */
  lemma SliceOfPlainValue(s: string, i: nat, j: nat)
    requires i <= j <= |s| && !IsFileReference(s)
    ensures !IsFileReference(s[i..j])
  {
    if IsFileReference(s[i..j]) {
      ContainsInSlice(s, SEGMENT, i, j);
      ContainsInSlice(s, KEY, i, j);
      ContainsInSlice(s, HASH, i, j);
    }
  }

  /** A text that starts with "hash" is already reduced to its hash. */
  lemma HashPrefixedIsReduced(x: string)
    requires |x| >= |HASH| && x[..|HASH|] == HASH
    ensures CheckFileAttribute(x) == x
  {
    var tail := x[|HASH|..];
    assert x == HASH + tail;
    IndexOfPrefix(HASH, tail);
  }

  /** Trimming a text that starts with "hash" keeps the "hash" in front. */
  lemma TrimOfHashPrefixed(c: string)
    requires |c| >= |HASH| && c[..|HASH|] == HASH
    ensures |Trim(c)| >= |HASH| && Trim(c)[..|HASH|] == HASH
  {
    assert c[0] == HASH[0] && c[|HASH| - 1] == HASH[|HASH| - 1];
    assert TrimStart(c) == c;
    assert !TrimmedAway(c[|HASH| - 1]);
  }

  /** A value cut down to its hash and trimmed still starts with "hash", so it is neither blank
      nor, if it is a file reference, cut any further. */
  lemma TrimmedHashKeepsHash(v: string)
    requires IsFileReference(v)
    ensures var once := Trim(CheckFileAttribute(v));
      !IsBlank(once) && CheckFileAttribute(once) == once
  {
    var c := CheckFileAttribute(v);
    CheckFileAttributeStartsWithHash(v);
    TrimOfHashPrefixed(c);
    var once := Trim(c);
    assert once[0] == HASH[0];
    HashPrefixedIsReduced(once);
  }

  /** A slice of a blank text is blank. */
  lemma SliceOfBlank(v: string, i: nat, j: nat)
    requires i <= j <= |v| && IsBlank(v)
    ensures IsBlank(v[i..j])
  {
    forall k | 0 <= k < j - i
      ensures IsWhitespace(v[i..j][k])
    {
      assert v[i..j][k] == v[i + k];
    }
  }

  /** A blank text trims to a blank text. */
  lemma TrimOfBlankIsBlank(v: string)
    requires IsBlank(v)
    ensures IsBlank(Trim(v))
  {
    var i, j := TrimSlice(v);
    SliceOfBlank(v, i, j);
  }

  /** Replacing twice is replacing once. */
  lemma ReplaceValueIdempotent(v: string)
    ensures ReplaceValueIrrelevantSymbols(ReplaceValueIrrelevantSymbols(Some(v))) == ReplaceValueIrrelevantSymbols(Some(v))
  {
    var once := ReplaceValueIrrelevantSymbols(Some(v)).value;
    TrimIdempotent(once);
    if IsBlank(v) {
      TrimOfBlankIsBlank(v);
    } else if IsFileReference(v) {
      TrimmedHashKeepsHash(v);
    } else {
      var i, j := TrimSlice(v);
      SliceOfPlainValue(v, i, j);
    }
  }
}
