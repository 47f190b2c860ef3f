/** The identifiers that come with a request (data.IdList, data.RequestIdentifier). The list is
    never changed after it is built, so it is a value; its lookups are first-match searches. */
module IdLists {
  import opened Wrappers
  import opened JavaText

  /** RequestIdentifier.Id, in declaration order. */
  datatype Id = IdIntegration | IdFilial | IdMasterSystem | IdMainCheckSystem | FilialId | RequestTypeId

  /** The column name each identifier carries. */
  function ColumnName(id: Id): string {
    match id
    case IdIntegration => "id_integration"
    case IdFilial => "id_filial"
    case IdMasterSystem => "id_master_system"
    case IdMainCheckSystem => "id_main_check_system"
    case FilialId => "filial_id"
    case RequestTypeId => "request_type_id"
  }

  /** A name and a value; the value may be null. */
  datatype RequestIdentifier = RequestIdentifier(idName: Id, idValue: Option<string>)

  /** The no-argument constructor: no identifiers at all. */
  function EmptyIdList(): (r: seq<RequestIdentifier>)
    ensures |r| == 0
  {
    []
  }

  /** contains: some identifier has the name. */
  function Contains(ids: seq<RequestIdentifier>, id: Id): (r: bool)
    ensures r <==> exists i :: 0 <= i < |ids| && ids[i].idName == id
  {
    if |ids| == 0 then false
    else if ids[0].idName == id then true
    else
      var r := Contains(ids[1..], id);
      assert forall i :: 1 <= i < |ids| ==> ids[i] == ids[1..][i - 1];
      r
  }

  /** `i` is the index of the first identifier with the name. */
  predicate FirstWithName(ids: seq<RequestIdentifier>, id: Id, i: int) {
    0 <= i < |ids| && ids[i].idName == id && forall j :: 0 <= j < i ==> ids[j].idName != id
  }

  /** get: the first identifier with the name, or null. */
  function Get(ids: seq<RequestIdentifier>, id: Id): (r: Option<RequestIdentifier>)
    ensures r.None? <==> forall i :: 0 <= i < |ids| ==> ids[i].idName != id
    ensures r.Some? ==> exists i :: FirstWithName(ids, id, i) && ids[i] == r.value
  {
    if |ids| == 0 then None
    else if ids[0].idName == id then
      assert FirstWithName(ids, id, 0);
      Some(ids[0])
    else
      var r := Get(ids[1..], id);
      assert forall i :: 1 <= i < |ids| ==> ids[i] == ids[1..][i - 1];
      assert r.Some? ==> exists i :: FirstWithName(ids, id, i) && ids[i] == r.value by {
        if r.Some? {
          var i :| FirstWithName(ids[1..], id, i) && ids[1..][i] == r.value;
          assert FirstWithName(ids, id, i + 1);
        }
      }
      r
  }

  /** getValue: the value of the first identifier with the name, or null when there is no such
      identifier. */
  function GetValue(ids: seq<RequestIdentifier>, id: Id): (r: Option<string>)
    ensures r.Some? ==> exists i :: FirstWithName(ids, id, i) && ids[i].idValue == r
  {
    if |ids| == 0 then None
    else if ids[0].idName == id then
      assert FirstWithName(ids, id, 0);
      ids[0].idValue
    else
      var r := GetValue(ids[1..], id);
      assert r.Some? ==> exists i :: FirstWithName(ids, id, i) && ids[i].idValue == r by {
        if r.Some? {
          var i :| FirstWithName(ids[1..], id, i) && ids[1..][i].idValue == r;
          assert FirstWithName(ids, id, i + 1);
        }
      }
      r
  }

  /** The first identifier with a name is unique. */
  lemma FirstWithNameUnique(ids: seq<RequestIdentifier>, id: Id, i: int, j: int)
    requires FirstWithName(ids, id, i) && FirstWithName(ids, id, j)
    ensures i == j
  {
  }

  /** The three lookups agree: contains holds exactly when get finds something, and getValue is
      the value of what get finds (null when it finds nothing). */
  lemma {:induction false} LookupsAgree(ids: seq<RequestIdentifier>, id: Id)
    ensures Contains(ids, id) <==> Get(ids, id).Some?
    ensures GetValue(ids, id) == if Get(ids, id).Some? then Get(ids, id).value.idValue else None
  {
    if |ids| > 0 && ids[0].idName != id {
      LookupsAgree(ids[1..], id);
      assert forall i :: 1 <= i < |ids| ==> ids[i] == ids[1..][i - 1];
    }
  }

  /** No two identifiers share a name. */
  predicate DistinctNames(ids: seq<RequestIdentifier>) {
    forall i, j :: 0 <= i < j < |ids| ==> ids[i].idName != ids[j].idName
  }

  /** The test the operators repeat for a required identifier: it is present and its value is
      neither null nor blank. */
  predicate HasValue(ids: seq<RequestIdentifier>, id: Id) {
    Get(ids, id).Some? && !IsNullOrBlank(Get(ids, id).value.idValue)
  }

  /** Testing through get and through getValue is the same test. */
  lemma HasValueByGetValue(ids: seq<RequestIdentifier>, id: Id)
    ensures HasValue(ids, id) <==> !IsNullOrBlank(GetValue(ids, id))
  {
    LookupsAgree(ids, id);
  }
}
