/** joinResults: how the service folds the results of one phase into its answer. FAILED
    results win outright and only their descriptions are reported; otherwise the status is the
    worst of the rest and every non-OK description is reported, in order. */
module ResultJoining {
  import opened Wrappers
  import opened ServiceData

  /** StringBuilder.append(String): a null description is appended as "null". */
  function AppendedText(d: Option<string>): string {
    if d.Some? then d.value else "null"
  }

  /** One description as joinResults appends it: the text, ";" and the line separator. */
  function Entry(r: ControlTypeResult): (s: string)
    ensures |s| > 0
  {
    AppendedText(r.errorDescription) + ";" + LINE_SEPARATOR
  }

  /** The first loop's text: the entries of the FAILED results, in order. */
  function FailedText(rs: seq<ControlTypeResult>): string {
    if rs == [] then ""
    else FailedText(rs[..|rs| - 1]) + (if rs[|rs| - 1].status == Failed then Entry(rs[|rs| - 1]) else "")
  }

  /** The second loop's text: the entries of the results that are not OK, in order. */
  function NonOkText(rs: seq<ControlTypeResult>): string {
    if rs == [] then ""
    else NonOkText(rs[..|rs| - 1]) + (if rs[|rs| - 1].status != Ok then Entry(rs[|rs| - 1]) else "")
  }

  /** The second loop's status step: a result that is not OK sets the status while it is still
      OK or OK with warnings. */
  function Escalated(s: Status, r: ControlTypeResult): Status {
    if r.status != Ok && (s == Ok || s == OkWithWarnings) then r.status else s
  }

  /** The status after the second loop, starting from OK. */
  function FoldedStatus(rs: seq<ControlTypeResult>): Status {
    if rs == [] then Ok else Escalated(FoldedStatus(rs[..|rs| - 1]), rs[|rs| - 1])
  }

  /** The answer joinResults builds. */
  function Joined(rs: seq<ControlTypeResult>): ServiceResponse {
    var failed := FailedText(rs);
    if failed != "" then ServiceResponse(Failed, Some(failed))
    else
      var text := NonOkText(rs);
      ServiceResponse(FoldedStatus(rs), if text == "" then None else Some(text))
  }

  /** joinResults, with its StringBuilder and the mutable status of the answer. */
  method JoinResults(results: seq<ControlTypeResult>) returns (response: ServiceResponse)
    ensures response == Joined(results)
  {
    var status := Ok;
    var description := "";
    for i := 0 to |results|
      invariant description == FailedText(results[..i])
    {
      assert results[..i + 1][..i] == results[..i];
      if results[i].status == Failed {
        description := description + AppendedText(results[i].errorDescription) + ";" + LINE_SEPARATOR;
      }
    }
    assert results[..|results|] == results;
    if description != "" {
      return ServiceResponse(Failed, Some(description));
    }
    for i := 0 to |results|
      invariant description == NonOkText(results[..i])
      invariant status == FoldedStatus(results[..i])
    {
      assert results[..i + 1][..i] == results[..i];
      if results[i].status != Ok {
        description := description + AppendedText(results[i].errorDescription) + ";" + LINE_SEPARATOR;
        if status == Ok || status == OkWithWarnings {
          status := results[i].status;
        }
      }
    }
    if description != "" {
      return ServiceResponse(status, Some(description));
    }
    return ServiceResponse(status, None);
  }

  /** The results with the given status, in order. */
  function WithStatus(rs: seq<ControlTypeResult>, s: Status): (r: seq<ControlTypeResult>)
    ensures forall x :: x in r <==> x in rs && x.status == s
  {
    if rs == [] then []
    else WithStatus(rs[..|rs| - 1], s) + (if rs[|rs| - 1].status == s then [rs[|rs| - 1]] else [])
  }

  /** The results that are not OK, in order. */
  function NotOk(rs: seq<ControlTypeResult>): (r: seq<ControlTypeResult>)
    ensures forall x :: x in r <==> x in rs && x.status != Ok
  {
    if rs == [] then []
    else NotOk(rs[..|rs| - 1]) + (if rs[|rs| - 1].status != Ok then [rs[|rs| - 1]] else [])
  }

  /** The entries of all the results, concatenated in order. */
  function Entries(rs: seq<ControlTypeResult>): string {
    if rs == [] then "" else Entry(rs[0]) + Entries(rs[1..])
  }

  lemma {:induction false} EntriesAppend(a: seq<ControlTypeResult>, b: seq<ControlTypeResult>)
    ensures Entries(a + b) == Entries(a) + Entries(b)
  {
    if a == [] {
      assert a + b == b;
    } else {
      assert (a + b)[1..] == a[1..] + b;
      EntriesAppend(a[1..], b);
    }
  }

  /** The FAILED text is exactly the entries of the FAILED results, and the second loop's text
      exactly the entries of the results that are not OK. */
  lemma {:induction false} TextsAreEntriesOfSelected(rs: seq<ControlTypeResult>)
    ensures FailedText(rs) == Entries(WithStatus(rs, Failed))
    ensures NonOkText(rs) == Entries(NotOk(rs))
  {
    if rs != [] {
      var init, last := rs[..|rs| - 1], rs[|rs| - 1];
      TextsAreEntriesOfSelected(init);
      EntriesAppend(WithStatus(init, Failed), if last.status == Failed then [last] else []);
      EntriesAppend(NotOk(init), if last.status != Ok then [last] else []);
      assert Entries([last]) == Entry(last);
    }
  }

  /** The FAILED text is empty exactly when no result is FAILED. */
  lemma {:induction false} FailedTextEmptyIff(rs: seq<ControlTypeResult>)
    ensures FailedText(rs) == "" <==> forall i :: 0 <= i < |rs| ==> rs[i].status != Failed
  {
    if rs != [] {
      var init := rs[..|rs| - 1];
      FailedTextEmptyIff(init);
      assert forall i :: 0 <= i < |init| ==> init[i] == rs[i];
    }
  }

  /** The second loop's text is empty exactly when every result is OK. */
  lemma {:induction false} NonOkTextEmptyIff(rs: seq<ControlTypeResult>)
    ensures NonOkText(rs) == "" <==> forall i :: 0 <= i < |rs| ==> rs[i].status == Ok
  {
    if rs != [] {
      var init := rs[..|rs| - 1];
      NonOkTextEmptyIff(init);
      assert forall i :: 0 <= i < |init| ==> init[i] == rs[i];
    }
  }

  /** Without FAILED results the folded status is the worst one: ERROR if any result is ERROR,
      else OK with warnings if any result has warnings, else OK. */
  lemma {:induction false} FoldedStatusIsWorst(rs: seq<ControlTypeResult>)
    requires forall i :: 0 <= i < |rs| ==> rs[i].status != Failed
    ensures FoldedStatus(rs) ==
      if exists i :: 0 <= i < |rs| && rs[i].status == Error then Error
      else if exists i :: 0 <= i < |rs| && rs[i].status == OkWithWarnings then OkWithWarnings
      else Ok
  {
    if rs != [] {
      var init := rs[..|rs| - 1];
      assert forall i :: 0 <= i < |init| ==> init[i] == rs[i];
      FoldedStatusIsWorst(init);
      if exists i :: 0 <= i < |rs| && rs[i].status == Error {
        var i :| 0 <= i < |rs| && rs[i].status == Error;
        if i < |init| {
          assert init[i].status == Error;
        }
      } else if exists i :: 0 <= i < |rs| && rs[i].status == OkWithWarnings {
        var i :| 0 <= i < |rs| && rs[i].status == OkWithWarnings;
        if i < |init| {
          assert init[i].status == OkWithWarnings;
        }
      }
    }
  }

  /** The answer is FAILED exactly when some result is FAILED, and then it reports the entries
      of the FAILED results and nothing else. */
  lemma JoinedFailed(rs: seq<ControlTypeResult>)
    ensures Joined(rs).status == Failed <==> exists i :: 0 <= i < |rs| && rs[i].status == Failed
    ensures (exists i :: 0 <= i < |rs| && rs[i].status == Failed) ==>
      Joined(rs).errorDescription == Some(Entries(WithStatus(rs, Failed)))
  {
    FailedTextEmptyIff(rs);
    TextsAreEntriesOfSelected(rs);
    if forall i :: 0 <= i < |rs| ==> rs[i].status != Failed {
      FoldedStatusIsWorst(rs);
    }
  }

  /** Without FAILED results the answer carries the worst status, and the entries of every
      result that is not OK; it has no description exactly when every result is OK. */
  lemma JoinedWithoutFailure(rs: seq<ControlTypeResult>)
    requires forall i :: 0 <= i < |rs| ==> rs[i].status != Failed
    ensures Joined(rs).status ==
      if exists i :: 0 <= i < |rs| && rs[i].status == Error then Error
      else if exists i :: 0 <= i < |rs| && rs[i].status == OkWithWarnings then OkWithWarnings
      else Ok
    ensures Joined(rs).errorDescription.None? <==> forall i :: 0 <= i < |rs| ==> rs[i].status == Ok
    ensures Joined(rs).errorDescription.Some? ==> Joined(rs).errorDescription.value == Entries(NotOk(rs))
  {
    FailedTextEmptyIff(rs);
    NonOkTextEmptyIff(rs);
    FoldedStatusIsWorst(rs);
    TextsAreEntriesOfSelected(rs);
  }

  /** Every result is OK. */
  predicate AllOk(rs: seq<ControlTypeResult>) {
    forall i :: 0 <= i < |rs| ==> rs[i].status == Ok
  }

  /** The answer is OK exactly when every result is, and then it has no description. */
  lemma JoinedOk(rs: seq<ControlTypeResult>)
    ensures Joined(rs).status == Ok <==> AllOk(rs)
    ensures AllOk(rs) ==> Joined(rs) == ServiceResponse(Ok, None)
  {
    JoinedFailed(rs);
    if forall i :: 0 <= i < |rs| ==> rs[i].status != Failed {
      JoinedWithoutFailure(rs);
    }
  }

  /** Selecting the results that are not OK keeps them all when none is OK. */
  lemma {:induction false} NotOkKeepsAll(rs: seq<ControlTypeResult>)
    requires forall i :: 0 <= i < |rs| ==> rs[i].status != Ok
    ensures NotOk(rs) == rs
  {
    if rs != [] {
      NotOkKeepsAll(rs[..|rs| - 1]);
      assert rs[..|rs| - 1] + [rs[|rs| - 1]] == rs;
    }
  }
}
