/** The few java.lang.String and commons-lang StringUtils operations the service relies on. */
module JavaText {
  import opened Wrappers

  /** Character.isWhitespace: Unicode space, line and paragraph separators other than the
      no-break spaces, plus the ASCII controls TAB, LF, VT, FF, CR and FS, GS, RS, US. */
  predicate IsWhitespace(c: char) {
    c == ' ' || c == '\t' || c == '\n' || c == '\U{B}' || c == '\U{C}' || c == '\r'
    || ('\U{1C}' <= c <= '\U{1F}')
    || c == '\U{1680}' || ('\U{2000}' <= c <= '\U{2006}') || ('\U{2008}' <= c <= '\U{200A}')
    || c == '\U{2028}' || c == '\U{2029}' || c == '\U{205F}' || c == '\U{3000}'
  }

  /** String.isBlank: empty or only whitespace. */
  predicate IsBlank(s: string) {
    forall i | 0 <= i < |s| :: IsWhitespace(s[i])
  }

  /** `s == null || s.isBlank()`, which is also StringUtils.isBlank. */
  predicate IsNullOrBlank(s: Option<string>) {
    s.None? || IsBlank(s.value)
  }

  /** `s == null || s.isEmpty()`. */
  predicate IsNullOrEmpty(s: Option<string>) {
    s.None? || s.value == []
  }

  lemma EmptyIsBlank(s: Option<string>)
    ensures IsNullOrEmpty(s) ==> IsNullOrBlank(s)
  {
  }

  /** `t` occurs in `s` at index `i`. */
  predicate OccursAt(s: string, t: string, i: int) {
    0 <= i && i + |t| <= |s| && s[i..i + |t|] == t
  }

  /** String.contains. */
  predicate Contains(s: string, t: string) {
    exists i | 0 <= i <= |s| :: OccursAt(s, t, i)
  }

  /** String.indexOf: the first index at which `t` occurs in `s`, or -1. */
  function IndexOf(s: string, t: string): (r: int)
    ensures r == -1 <==> !Contains(s, t)
    ensures r != -1 ==> OccursAt(s, t, r) && forall j :: 0 <= j < r ==> !OccursAt(s, t, j)
  {
    IndexFrom(s, t, 0)
  }

  function IndexFrom(s: string, t: string, from: nat): (r: int)
    requires forall j :: 0 <= j < from ==> !OccursAt(s, t, j)
    ensures r == -1 <==> !Contains(s, t)
    ensures r != -1 ==> from <= r && OccursAt(s, t, r) && forall j :: 0 <= j < r ==> !OccursAt(s, t, j)
    decreases |s| + 1 - from
  {
    if from + |t| > |s| then
      assert forall j :: from <= j ==> !OccursAt(s, t, j);
      -1
    else if s[from..from + |t|] == t then
      assert OccursAt(s, t, from);
      from
    else IndexFrom(s, t, from + 1)
  }

  /** StringUtils.substringAfter: the text after the first occurrence of `sep`; the empty string
      when `sep` does not occur, and `s` itself when `s` is empty. */
  function SubstringAfter(s: string, sep: string): (r: string)
    ensures s != [] && Contains(s, sep) ==>
      exists i :: OccursAt(s, sep, i) && (forall j :: 0 <= j < i ==> !OccursAt(s, sep, j)) && r == s[i + |sep|..]
    ensures s != [] && !Contains(s, sep) ==> r == []
    ensures s == [] ==> r == []
  {
    if s == [] then s
    else
      var pos := IndexOf(s, sep);
      if pos == -1 then [] else s[pos + |sep|..]
  }

  lemma IndexOfPrefix(t: string, x: string)
    ensures IndexOf(t + x, t) == 0
  {
    assert OccursAt(t + x, t, 0) by { assert (t + x)[0..|t|] == t; }
  }

  lemma ContainsPrefix(t: string, x: string)
    ensures Contains(t + x, t)
  {
    IndexOfPrefix(t, x);
  }

  /** String.trim drops every character up to U+0020, which is not the set isBlank uses. */
  predicate TrimmedAway(c: char) {
    c <= ' '
  }

  /** `s` without its leading characters up to U+0020. */
  function TrimStart(s: string): (r: string)
    ensures |r| <= |s| && r == s[|s| - |r|..]
    ensures forall k :: 0 <= k < |s| - |r| ==> TrimmedAway(s[k])
    ensures r != [] ==> !TrimmedAway(r[0])
  {
    if s != [] && TrimmedAway(s[0]) then TrimStart(s[1..]) else s
  }

  /** `s` without its trailing characters up to U+0020. */
  function TrimEnd(s: string): (r: string)
    ensures |r| <= |s| && r == s[..|r|]
    ensures forall k :: |r| <= k < |s| ==> TrimmedAway(s[k])
    ensures r != [] ==> !TrimmedAway(r[|r| - 1])
  {
    if s != [] && TrimmedAway(s[|s| - 1]) then TrimEnd(s[..|s| - 1]) else s
  }

  /** String.trim. */
  function Trim(s: string): (r: string)
    ensures r != [] ==> !TrimmedAway(r[0]) && !TrimmedAway(r[|r| - 1])
    ensures (forall k :: 0 <= k < |s| ==> TrimmedAway(s[k])) ==> r == []
  {
    TrimEnd(TrimStart(s))
  }

  /** A text that neither starts nor ends with a trimmed character is its own trim. */
  lemma {:induction false} TrimKeepsTrimmed(s: string)
    requires s != [] ==> !TrimmedAway(s[0]) && !TrimmedAway(s[|s| - 1])
    ensures Trim(s) == s
  {
  }

  /** The trim of `s` is a slice of `s`. */
  lemma TrimSlice(s: string) returns (i: nat, j: nat)
    ensures i <= j <= |s| && Trim(s) == s[i..j]
  {
    var a := TrimStart(s);
    i, j := |s| - |a|, |s| - |a| + |TrimEnd(a)|;
    assert a[..|TrimEnd(a)|] == s[i..j];
  }

  /** What a slice contains, the whole text contains. */
  lemma ContainsInSlice(s: string, t: string, i: nat, j: nat)
    requires i <= j <= |s| && Contains(s[i..j], t)
    ensures Contains(s, t)
  {
    var k :| 0 <= k <= j - i && OccursAt(s[i..j], t, k);
    forall m | 0 <= m < |t|
      ensures s[i + k + m] == t[m]
    {
      assert s[i..j][k + m] == t[m];
    }
    assert s[i + k..i + k + |t|] == t;
    assert OccursAt(s, t, i + k);
  }

  /** Trimming twice is trimming once. */
  lemma TrimIdempotent(s: string)
    ensures Trim(Trim(s)) == Trim(s)
  {
    TrimKeepsTrimmed(Trim(s));
  }

  /** String.compareTo(a, b) < 0: lexicographic order on characters, a proper prefix first. */
  predicate Less(a: string, b: string) {
    if a == [] then b != []
    else if b == [] then false
    else if a[0] != b[0] then a[0] < b[0]
    else Less(a[1..], b[1..])
  }

  lemma {:induction false} LessIrreflexive(a: string)
    ensures !Less(a, a)
  {
    if a != [] {
      LessIrreflexive(a[1..]);
    }
  }

  lemma {:induction false} LessTransitive(a: string, b: string, c: string)
    requires Less(a, b) && Less(b, c)
    ensures Less(a, c)
  {
    if a != [] && b != [] && c != [] && a[0] == b[0] && b[0] == c[0] {
      LessTransitive(a[1..], b[1..], c[1..]);
    }
  }

  lemma {:induction false} LessTotal(a: string, b: string)
    ensures a == b || Less(a, b) || Less(b, a)
  {
    if a != [] && b != [] && a[0] == b[0] {
      LessTotal(a[1..], b[1..]);
      if a[1..] == b[1..] {
        assert a == [a[0]] + a[1..] && b == [b[0]] + b[1..];
      }
    }
  }

  lemma {:induction false} LessAsymmetric(a: string, b: string)
    requires Less(a, b)
    ensures !Less(b, a)
  {
    if a != [] && b != [] && a[0] == b[0] {
      LessAsymmetric(a[1..], b[1..]);
    }
  }

  /** String.join(sep, parts). */
  function Join(sep: string, parts: seq<string>): string {
    if parts == [] then []
    else if |parts| == 1 then parts[0]
    else parts[0] + sep + Join(sep, parts[1..])
  }

  /** Decimal rendering of an integer, as String.valueOf and "%d" produce it. */
  function IntToString(n: int): (r: string)
    ensures r != []
  {
    if n < 0 then "-" + NatToString(-n) else NatToString(n)
  }

  function NatToString(n: nat): (r: string)
    ensures r != [] && forall i | 0 <= i < |r| :: '0' <= r[i] <= '9'
  {
    if n < 10 then [DigitChar(n)] else NatToString(n / 10) + [DigitChar(n % 10)]
  }

  function DigitChar(d: nat): char
    requires d < 10
  {
    ['0', '1', '2', '3', '4', '5', '6', '7', '8', '9'][d]
  }

  /** Reads back what NatToString wrote: the decimal rendering loses nothing. */
  function ParseDigits(s: string): nat
    requires forall i | 0 <= i < |s| :: '0' <= s[i] <= '9'
  {
    if s == [] then 0 else 10 * ParseDigits(s[..|s| - 1]) + (s[|s| - 1] as int - '0' as int)
  }

  lemma {:induction false} NatToStringRoundTrip(n: nat)
    ensures ParseDigits(NatToString(n)) == n
  {
    if n >= 10 {
      NatToStringRoundTrip(n / 10);
      var s := NatToString(n);
      assert s[..|s| - 1] == NatToString(n / 10);
    }
  }

  /** Java `int` arithmetic: the value wrapped into the 32-bit two's-complement range. */
  function Wrap32(x: int): (r: int)
    ensures -0x8000_0000 <= r < 0x8000_0000
    ensures (r - x) % 0x1_0000_0000 == 0
  {
    (x + 0x8000_0000) % 0x1_0000_0000 - 0x8000_0000
  }

  /** String.hashCode: s[0]*31^(n-1) + ... + s[n-1] in `int` arithmetic. */
  function StringHash(s: string): int {
    if s == [] then 0 else Wrap32(31 * StringHash(s[..|s| - 1]) + s[|s| - 1] as int)
  }
}
