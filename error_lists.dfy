/** The error list an operator reports: `new ArrayList<>(new HashSet<>(errors))` sorted with
    String::compareTo, that is every distinct error once, in ascending order. */
module ErrorLists {
  import JavaText

  /** Ascending without repetition. */
  predicate StrictlySorted(s: seq<string>) {
    forall i, j :: 0 <= i < j < |s| ==> JavaText.Less(s[i], s[j])
  }

  /** Inserting into an ascending list: before the first larger error, and not at all when the
      error is already there. */
  function Insert(x: string, s: seq<string>): seq<string> {
    if s == [] then [x]
    else if x == s[0] then s
    else if JavaText.Less(x, s[0]) then [x] + s
    else [s[0]] + Insert(x, s[1..])
  }

  lemma {:induction false} InsertSorted(x: string, s: seq<string>)
    requires StrictlySorted(s)
    ensures StrictlySorted(Insert(x, s))
    ensures forall y :: y in Insert(x, s) <==> y == x || y in s
  {
    if s == [] {
    } else if x == s[0] {
    } else if JavaText.Less(x, s[0]) {
      var r := [x] + s;
      forall i, j | 0 <= i < j < |r| ensures JavaText.Less(r[i], r[j]) {
        if i == 0 && j > 1 {
          JavaText.LessTransitive(x, s[0], s[j - 1]);
        }
      }
    } else {
      JavaText.LessTotal(x, s[0]);
      InsertSorted(x, s[1..]);
      var t := Insert(x, s[1..]);
      var r := [s[0]] + t;
      assert forall y :: y in s <==> y == s[0] || y in s[1..];
      forall j | 0 <= j < |t| ensures JavaText.Less(s[0], t[j]) {
        assert t[j] in t;
        if t[j] != x {
          var m :| 1 <= m < |s| && s[m] == t[j];
        }
      }
      forall i, j | 0 <= i < j < |r| ensures JavaText.Less(r[i], r[j]) {
        if i > 0 {
          assert r[i] == t[i - 1] && r[j] == t[j - 1];
        }
      }
    }
  }

  /** The distinct errors of the list, ascending. */
  function SortedDistinct(errors: seq<string>): seq<string> {
    if errors == [] then []
    else Insert(errors[|errors| - 1], SortedDistinct(errors[..|errors| - 1]))
  }

  /** The reported list is ascending and holds exactly the errors of the list. */
  lemma {:induction false} SortedDistinctSpec(errors: seq<string>)
    ensures StrictlySorted(SortedDistinct(errors))
    ensures forall y :: y in SortedDistinct(errors) <==> y in errors
  {
    if errors != [] {
      var init := errors[..|errors| - 1];
      SortedDistinctSpec(init);
      InsertSorted(errors[|errors| - 1], SortedDistinct(init));
      assert errors == init + [errors[|errors| - 1]];
    }
  }

  /** Two ascending lists with the same errors are the same list. */
  lemma {:induction false} StrictlySortedUnique(a: seq<string>, b: seq<string>)
    requires StrictlySorted(a) && StrictlySorted(b)
    requires forall y :: y in a <==> y in b
    ensures a == b
    decreases |a|
  {
    assert forall i :: 0 <= i < |a| ==> a[i] in b;
    assert forall i :: 0 <= i < |b| ==> b[i] in a;
    if a != [] && b != [] {
      if a[0] != b[0] {
        var k :| 0 <= k < |b| && b[k] == a[0];
        var m :| 0 <= m < |a| && a[m] == b[0];
        assert JavaText.Less(b[0], a[0]);
        assert JavaText.Less(a[0], b[0]);
        JavaText.LessAsymmetric(a[0], b[0]);
      }
      forall y ensures y in a[1..] <==> y in b[1..] {
        if y in a[1..] {
          var m :| 1 <= m < |a| && a[m] == y;
          JavaText.LessIrreflexive(a[0]);
          assert y in b;
        }
        if y in b[1..] {
          var m :| 1 <= m < |b| && b[m] == y;
          JavaText.LessIrreflexive(b[0]);
          assert y in a;
        }
      }
      StrictlySortedUnique(a[1..], b[1..]);
      assert a == [a[0]] + a[1..] && b == [b[0]] + b[1..];
    }
  }

  /** The reported list depends only on which errors occur, not on their order or how often
      each occurs. */
  lemma SortedDistinctDependsOnlyOnElements(a: seq<string>, b: seq<string>)
    requires forall y :: y in a <==> y in b
    ensures SortedDistinct(a) == SortedDistinct(b)
  {
    SortedDistinctSpec(a);
    SortedDistinctSpec(b);
    StrictlySortedUnique(SortedDistinct(a), SortedDistinct(b));
  }
}
