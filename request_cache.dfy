/** The request-level operations of RequestControlService: caching the values stored for a
    request before it goes to the master system, restoring them when the master system rejects
    it, and confirming it when the master system accepts it. The cache is the request_cache
    table, keyed by the message id. */
module RequestCaching {
  import opened Wrappers
  import opened IdLists
  import opened OperatorsModel
  import opened ServiceData
  import opened Storage
  import opened IdentifierQueries
  import opened RequestVersionOperator
  import ControlIdentifiersOperator
  import opened RequestRows

  // ---------------------------------------------------------------------------------------
  // The request_cache table

  /** The row cacheCurrentValues inserts: the message id, flow, filial and version of the
      values, and the value of each of the six identifiers in the list. */
  function CachedRowOf(cv: ServiceRequest, ids: seq<RequestIdentifier>): CacheRow {
    CacheRow(cv.messageId, FlowName(cv.dataFlowType), cv.filialName, cv.requestVersion, ColumnsOf(map[
      IdIntegration := GetValue(ids, IdIntegration),
      IdMasterSystem := GetValue(ids, IdMasterSystem),
      IdFilial := GetValue(ids, IdFilial),
      FilialId := GetValue(ids, FilialId),
      IdMainCheckSystem := GetValue(ids, IdMainCheckSystem),
      RequestTypeId := GetValue(ids, RequestTypeId)]))
  }

  /** cacheCurrentValues: `setInt` unboxes the version, so values without a version throw
      before anything is written, as do values without an identifier list. */
  function CacheCurrentValuesEffect(t: Tables, cv: ServiceRequest): Effect<()> {
    if cv.requestVersion.None? || cv.idList.None? then Effect(t, Failure(NULL_POINTER))
    else Effect(t.(cache := t.cache + [CachedRowOf(cv, cv.idList.value)]), Success(()))
  }

  method CacheCurrentValues(db: Database, cv: ServiceRequest) returns (r: Result<()>)
    modifies db
    ensures Effect(db.tables, r) == CacheCurrentValuesEffect(old(db.tables), cv)
  {
    if cv.requestVersion.None? || cv.idList.None? {
      return Failure(NULL_POINTER);
    }
    db.tables := db.tables.(cache := db.tables.cache + [CachedRowOf(cv, cv.idList.value)]);
    return Success(());
  }

  /** cacheCurrentValues as evidently intended: a missing version bound as SQL NULL, which the
      first-run path needs to store its row of nulls. Values without an identifier list still
      throw. */
  function CacheCurrentValuesNullable(t: Tables, cv: ServiceRequest): Effect<()> {
    if cv.idList.None? then Effect(t, Failure(NULL_POINTER))
    else Effect(t.(cache := t.cache + [CachedRowOf(cv, cv.idList.value)]), Success(()))
  }

  /** The two inserts differ only on values without a version, which the written one refuses
      without writing anything. */
  lemma CacheCurrentValuesAgree(t: Tables, cv: ServiceRequest)
    ensures cv.requestVersion.Some? ==> CacheCurrentValuesEffect(t, cv) == CacheCurrentValuesNullable(t, cv)
    ensures cv.requestVersion.None? ==> CacheCurrentValuesEffect(t, cv) == Effect(t, Failure(NULL_POINTER))
  {
  }

  /** The identifiers getCachedData reads after it has read the message's first cached row, at
      `k`: getIdentifiersFromResultSet calls `rs.next()` once more, so they come from the
      message's next cached row, and there are none when the message has no other row. */
  function NextRowIdentifiers(cache: seq<CacheRow>, messageId: string, k: nat): (ids: seq<RequestIdentifier>)
    requires k < |cache|
    ensures ids == [] <==> forall j :: k < j < |cache| ==> cache[j].messageId != messageId
  {
    var rest := cache[k + 1..];
    assert forall j :: k < j < |cache| ==> cache[j] == rest[j - k - 1];
    match FirstCached(rest, messageId)
    case None => []
    case Some(j) => RowIdentifiers(rest[j].columns)
  }

  /** getCachedData: the version of the message's first cached row (`getInt` reads a NULL one as
      0) and the identifiers of its next one, rebuilt as a request of the current flow and
      filial with no operators. */
  function CachedData(cache: seq<CacheRow>, sr: ServiceRequest): (r: Option<ServiceRequest>)
    ensures r.None? <==> forall i :: 0 <= i < |cache| ==> cache[i].messageId != sr.messageId
    ensures r.Some? ==> r.value.messageId == sr.messageId && r.value.dataFlowType == sr.dataFlowType
    ensures r.Some? ==> r.value.filialName == sr.filialName && r.value.requestVersion.Some? && r.value.idList.Some?
  {
    match FirstCached(cache, sr.messageId)
    case None => None
    case Some(k) =>
      Some(ServiceRequest(sr.filialName, sr.dataFlowType, sr.messageId, Some(cache[k].requestVersion.GetOr(0)),
        Some(NextRowIdentifiers(cache, sr.messageId, k)), None, map[]))
  }

  method GetCachedData(db: Database, sr: ServiceRequest) returns (r: Option<ServiceRequest>)
    ensures r == CachedData(db.tables.cache, sr)
  {
    var cache := db.tables.cache;
    var k := FirstCached(cache, sr.messageId);
    if k.None? {
      return None;
    }
    var requestVersion := cache[k.value].requestVersion.GetOr(0);
    var identifiers: seq<RequestIdentifier> := [];
    var next := FirstCached(cache[k.value + 1..], sr.messageId);
    if next.Some? {
      identifiers := RowIdentifiers(cache[k.value + 1..][next.value].columns);
    }
    return Some(ServiceRequest(sr.filialName, sr.dataFlowType, sr.messageId, Some(requestVersion),
      Some(identifiers), None, map[]));
  }

  /** getCachedData as evidently intended: the version and the identifiers of the same row, the
      message's first cached one. */
  function CachedDataIntended(cache: seq<CacheRow>, sr: ServiceRequest): (r: Option<ServiceRequest>)
    ensures r.None? <==> CachedData(cache, sr).None?
    ensures r.Some? ==> r.value == CachedData(cache, sr).value.(idList := r.value.idList)
  {
    match FirstCached(cache, sr.messageId)
    case None => None
    case Some(k) =>
      Some(ServiceRequest(sr.filialName, sr.dataFlowType, sr.messageId, Some(cache[k].requestVersion.GetOr(0)),
        Some(RowIdentifiers(cache[k].columns)), None, map[]))
  }

  /** The cached row holds the message id and version of the values and the value of each of
      the identifiers. */
  lemma CachedRowColumns(cv: ServiceRequest, ids: seq<RequestIdentifier>, id: Id)
    ensures CachedRowOf(cv, ids).messageId == cv.messageId && CachedRowOf(cv, ids).requestVersion == cv.requestVersion
    ensures Column(CachedRowOf(cv, ids).columns, id) == GetValue(ids, id)
  {
  }

  /** Values cached for a message that had no cached row: caching succeeds exactly when they
      have a version; as written, reading them back gives that version and no identifiers,
      because the message has only the one row; read as intended, every identifier's value
      comes back too. */
  lemma CachedValuesReadBack(t: Tables, cv: ServiceRequest, sr: ServiceRequest)
    requires cv.idList.Some? && sr.messageId == cv.messageId
    requires forall i :: 0 <= i < |t.cache| ==> t.cache[i].messageId != cv.messageId
    ensures CacheCurrentValuesEffect(t, cv).result == Success(()) <==> cv.requestVersion.Some?
    ensures var e := CacheCurrentValuesEffect(t, cv);
      var c := CachedData(e.tables.cache, sr);
      cv.requestVersion.Some? ==>
        c == Some(ServiceRequest(sr.filialName, sr.dataFlowType, sr.messageId, cv.requestVersion, Some([]), None, map[]))
    ensures var e := CacheCurrentValuesEffect(t, cv);
      var c := CachedDataIntended(e.tables.cache, sr);
      cv.requestVersion.Some? ==>
        c.Some? && c.value.requestVersion == cv.requestVersion
        && forall id :: GetValue(c.value.idList.value, id) == GetValue(cv.idList.value, id)
  {
    if cv.requestVersion.Some? {
      var row := CachedRowOf(cv, cv.idList.value);
      CachedRowColumns(cv, cv.idList.value, IdIntegration);
      hide CachedRowOf;
      var cache := t.cache + [row];
      assert cache[|t.cache|] == row;
      assert FirstCached(cache, sr.messageId) == Some(|t.cache|);
      assert NextRowIdentifiers(cache, sr.messageId, |t.cache|) == [];
      forall id ensures GetValue(RowIdentifiers(row.columns), id) == GetValue(cv.idList.value, id) {
        RowIdentifiersRoundTrip(row.columns, id);
        CachedRowColumns(cv, cv.idList.value, id);
      }
    }
  }

  const NOTHING_CACHED_TO_DELETE := "Данные для удаления из кеша базы данных не найдены."

  /** clearCachedData: delete every cached row of the message; deleting none is a database
      error. */
  function ClearCachedEffect(t: Tables, messageId: string): Effect<()> {
    var rows := DeleteCached(t.cache, messageId);
    Effect(t.(cache := rows), if |rows| == |t.cache| then Failure(ServiceFault(NOTHING_CACHED_TO_DELETE)) else Success(()))
  }

  method ClearCachedData(db: Database, messageId: string) returns (r: Result<()>)
    modifies db
    ensures Effect(db.tables, r) == ClearCachedEffect(old(db.tables), messageId)
  {
    var before := |db.tables.cache|;
    db.tables := db.tables.(cache := DeleteCached(db.tables.cache, messageId));
    if |db.tables.cache| == before {
      return Failure(ServiceFault(NOTHING_CACHED_TO_DELETE));
    }
    return Success(());
  }

  lemma {:induction false} DeleteCachedNoMatch(rows: seq<CacheRow>, messageId: string)
    requires forall i :: 0 <= i < |rows| ==> rows[i].messageId != messageId
    ensures DeleteCached(rows, messageId) == rows
  {
    if |rows| > 0 {
      DeleteCachedNoMatch(rows[1..], messageId);
      assert rows == [rows[0]] + rows[1..];
    }
  }

  /** Clearing fails exactly when the message has no cached row, and then changes nothing;
      afterwards no row of the message is left and every other row is. */
  lemma ClearCachedOutcome(t: Tables, messageId: string)
    ensures var e := ClearCachedEffect(t, messageId);
      (e.result.Failure? <==> forall i :: 0 <= i < |t.cache| ==> t.cache[i].messageId != messageId)
      && (e.result.Failure? ==> e.tables == t)
      && e.tables.identifiers == t.identifiers
      && FirstCached(e.tables.cache, messageId).None?
      && forall row :: row in e.tables.cache <==> row in t.cache && row.messageId != messageId
  {
    if forall i :: 0 <= i < |t.cache| ==> t.cache[i].messageId != messageId {
      DeleteCachedNoMatch(t.cache, messageId);
    }
    var rows := DeleteCached(t.cache, messageId);
    forall i | 0 <= i < |rows| ensures rows[i].messageId != messageId {
      assert rows[i] in rows;
    }
  }

  // ---------------------------------------------------------------------------------------
  // getCurrentValuesForCache

  /** The control-identifiers request of the message, which always builds. */
  function IdentifiersCtr(sr: ServiceRequest): (ctr: ControlTypeRequest)
    ensures GenerateControlTypeRequest(ControlIdentifiers, sr) == Success(ctr)
  {
    ControlTypeRequest(ControlIdentifiers, sr.dataFlowType, sr.filialName, None, None, sr.idList)
  }

  /** The request-version request of the message, which always builds. */
  function VersionCtr(sr: ServiceRequest): (ctr: ControlTypeRequest)
    ensures GenerateControlTypeRequest(RequestVersion, sr) == Success(ctr)
  {
    ControlTypeRequest(RequestVersion, sr.dataFlowType, sr.filialName, sr.requestVersion, None, sr.idList)
  }

  /** The identifiers stored for the message, as the identifiers operator reads them. */
  function StoredIds(t: Tables, sr: ServiceRequest): Result<seq<RequestIdentifier>> {
    IdentifiersFromDB(t.identifiers, IdentifiersCtr(sr))
  }

  /** The version stored for the message, as the version operator reads it. */
  function StoredVer(t: Tables, sr: ServiceRequest): Result<Option<int>> {
    StoredVersion(t.identifiers, VersionCtr(sr))
  }

  /** The values getCurrentValuesForCache starts from: the message's flow, filial, id and
      operators, and nothing else. */
  function BlankValues(sr: ServiceRequest): ServiceRequest {
    ServiceRequest(sr.filialName, sr.dataFlowType, sr.messageId, None, None, None, sr.operators)
  }

  /** The loop of getCurrentValuesForCache over the control types still to visit: each builds
      its request; the identifiers operator contributes the stored identifiers and the version
      operator the stored version; either one finding nothing stops with no values. */
  function CurrentValuesFrom(t: Tables, sr: ServiceRequest, ts: seq<ControlType>, acc: ServiceRequest)
    : Result<Option<ServiceRequest>>
    decreases |ts|
  {
    if ts == [] then Success(Some(acc))
    else
      match GenerateControlTypeRequest(ts[0], sr)
      case Failure(f) => Failure(f)
      case Success(ctr) =>
        if ts[0] == ControlIdentifiers then
          match IdentifiersFromDB(t.identifiers, ctr)
          case Failure(f) => Failure(f)
          case Success(ids) =>
            if ids == [] then Success(None) else CurrentValuesFrom(t, sr, ts[1..], acc.(idList := Some(ids)))
        else if ts[0] == RequestVersion then
          match StoredVersion(t.identifiers, ctr)
          case Failure(f) => Failure(f)
          case Success(v) =>
            if v.None? then Success(None) else CurrentValuesFrom(t, sr, ts[1..], acc.(requestVersion := v))
        else CurrentValuesFrom(t, sr, ts[1..], acc)
  }

  /** getCurrentValuesForCache: the loop over all the request's control types by priority. */
  function CurrentValues(t: Tables, sr: ServiceRequest): Result<Option<ServiceRequest>> {
    CurrentValuesFrom(t, sr, ByPriority(sr.operators, ALL_OPERATIONS), BlankValues(sr))
  }

  method GetCurrentValuesForCache(db: Database, sr: ServiceRequest) returns (r: Result<Option<ServiceRequest>>)
    ensures r == CurrentValues(db.tables, sr)
  {
    var controlTypes := ByPriority(sr.operators, ALL_OPERATIONS);
    var currentValues := BlankValues(sr);
    for i := 0 to |controlTypes|
      invariant CurrentValuesFrom(db.tables, sr, controlTypes[i..], currentValues) == CurrentValues(db.tables, sr)
    {
      assert controlTypes[i..][0] == controlTypes[i] && controlTypes[i..][1..] == controlTypes[i + 1..];
      var ctr := GenerateControlTypeRequest(controlTypes[i], sr);
      if ctr.Failure? {
        return Failure(ctr.fault);
      }
      if controlTypes[i] == ControlIdentifiers {
        var idListFromDb := GetIdentifiersFromDB(db, ctr.value);
        if idListFromDb.Failure? {
          return Failure(idListFromDb.fault);
        }
        if idListFromDb.value == [] {
          return Success(None);
        }
        currentValues := currentValues.(idList := Some(idListFromDb.value));
      } else if controlTypes[i] == RequestVersion {
        var requestVersion := GetRequestVersionFromDB(db, ctr.value);
        if requestVersion.Failure? {
          return Failure(requestVersion.fault);
        }
        if requestVersion.value.None? {
          return Success(None);
        }
        currentValues := currentValues.(requestVersion := requestVersion.value);
      }
    }
    assert controlTypes[|controlTypes|..] == [];
    return Success(Some(currentValues));
  }

  /** What the loop collects from a list of control types: the stored identifiers when the list
      holds the identifiers operator and the stored version when it holds the version operator,
      each found; every request in the list built; and it finds nothing only when one of the
      two lookups did. */
  lemma {:induction false} CurrentValuesFromCollects(t: Tables, sr: ServiceRequest, ts: seq<ControlType>, acc: ServiceRequest)
    ensures var r := CurrentValuesFrom(t, sr, ts, acc);
      r.Success? && r.value.Some? ==>
        (ControlIdentifiers in ts ==> StoredIds(t, sr).Success? && StoredIds(t, sr).value != [])
        && (RequestVersion in ts ==> StoredVer(t, sr).Success? && StoredVer(t, sr).value.Some?)
        && (forall c :: c in ts ==> GenerateControlTypeRequest(c, sr).Success?)
    ensures var r := CurrentValuesFrom(t, sr, ts, acc);
      r.Success? && r.value.Some? ==>
        r.value.value == acc.(idList := if ControlIdentifiers in ts then Some(StoredIds(t, sr).value) else acc.idList,
                              requestVersion := if RequestVersion in ts then StoredVer(t, sr).value else acc.requestVersion)
    ensures CurrentValuesFrom(t, sr, ts, acc) == Success(None) ==>
      (ControlIdentifiers in ts && StoredIds(t, sr) == Success([]))
      || (RequestVersion in ts && StoredVer(t, sr) == Success(None))
  {
    if ts != [] {
      assert forall c :: c in ts <==> c == ts[0] || c in ts[1..];
      var g := GenerateControlTypeRequest(ts[0], sr);
      if g.Success? {
        if ts[0] == ControlIdentifiers {
          var ids := IdentifiersFromDB(t.identifiers, g.value);
          if ids.Success? && ids.value != [] {
            CurrentValuesFromCollects(t, sr, ts[1..], acc.(idList := Some(ids.value)));
          }
        } else if ts[0] == RequestVersion {
          var v := StoredVersion(t.identifiers, g.value);
          if v.Success? && v.value.Some? {
            CurrentValuesFromCollects(t, sr, ts[1..], acc.(requestVersion := v.value));
          }
        } else {
          CurrentValuesFromCollects(t, sr, ts[1..], acc);
        }
      }
    }
  }

  /** getCurrentValuesForCache collects the stored identifiers exactly when the request has the
      identifiers operator and the stored version exactly when it has the version operator; it
      keeps the message's id, flow and filial; it finds nothing only when a lookup it made found
      nothing; and it succeeds with the client-attributes operator only when the request has a
      master-system identifier to build that operator's request from. */
  lemma CurrentValuesCollected(t: Tables, sr: ServiceRequest)
    ensures var r := CurrentValues(t, sr);
      r.Success? && r.value.Some? ==>
        var cv := r.value.value;
        cv.messageId == sr.messageId && cv.dataFlowType == sr.dataFlowType && cv.filialName == sr.filialName
        && cv.checkRequestBody.None?
        && (ControlIdentifiers in sr.operators <==> cv.idList.Some?)
        && (ControlIdentifiers in sr.operators ==> StoredIds(t, sr).Success? && cv.idList == Some(StoredIds(t, sr).value) && StoredIds(t, sr).value != [])
        && (RequestVersion in sr.operators <==> cv.requestVersion.Some?)
        && (RequestVersion in sr.operators ==> StoredVer(t, sr).Success? && cv.requestVersion == StoredVer(t, sr).value)
        && (ClientAttributes in sr.operators ==> sr.idList.Some? && Contains(sr.idList.value, IdMasterSystem))
    ensures CurrentValues(t, sr) == Success(None) ==>
      (ControlIdentifiers in sr.operators && StoredIds(t, sr) == Success([]))
      || (RequestVersion in sr.operators && StoredVer(t, sr) == Success(None))
  {
    AllKeysByPriority(sr.operators);
    CurrentValuesFromCollects(t, sr, ByPriority(sr.operators, ALL_OPERATIONS), BlankValues(sr));
  }

  // ---------------------------------------------------------------------------------------
  // processServiceFirstRunForCache and processCacheRequest

  /** The request processServiceFirstRunForCache caches: the message's flow, filial and id with
      an empty identifier list and no version. */
  function InsuranceRequest(sr: ServiceRequest): ServiceRequest {
    ServiceRequest(sr.filialName, sr.dataFlowType, sr.messageId, None, Some([]), None, map[])
  }

  /** The request has passed integration before: it carries a non-blank id_integration. */
  predicate PassedIntegration(sr: ServiceRequest) {
    sr.idList.Some? && HasValue(sr.idList.value, IdIntegration)
  }

  function NotFoundForCacheMessage(messageId: string): string {
    "Данные для запроса на кеширование с messageId " + messageId + " не найдены в базе данных"
  }

  /** processServiceFirstRunForCache: a request that passed integration caches the insurance
      request, any other one is an error. */
  function FirstRunEffect(t: Tables, sr: ServiceRequest): Effect<()> {
    if PassedIntegration(sr) then CacheCurrentValuesEffect(t, InsuranceRequest(sr))
    else Effect(t, Failure(ServiceFault(NotFoundForCacheMessage(sr.messageId))))
  }

  /** As written, the first-run path never caches anything: the insurance request has no
      version, and binding it throws. */
  lemma FirstRunAsWrittenNeverCaches(t: Tables, sr: ServiceRequest)
    ensures FirstRunEffect(t, sr).tables == t
    ensures PassedIntegration(sr) ==> FirstRunEffect(t, sr).result == Failure(NULL_POINTER)
    ensures !PassedIntegration(sr) ==> FirstRunEffect(t, sr).result == Failure(ServiceFault(NotFoundForCacheMessage(sr.messageId)))
  {
  }

  method ProcessServiceFirstRunForCache(db: Database, sr: ServiceRequest) returns (r: Result<()>)
    modifies db
    ensures Effect(db.tables, r) == FirstRunEffect(old(db.tables), sr)
  {
    if sr.idList.Some? && Get(sr.idList.value, IdIntegration).Some?
      && !JavaText.IsNullOrBlank(Get(sr.idList.value, IdIntegration).value.idValue)
    {
      r := CacheCurrentValues(db, InsuranceRequest(sr));
    } else {
      r := Failure(ServiceFault(NotFoundForCacheMessage(sr.messageId)));
    }
  }

  /** processServiceFirstRunForCache as evidently intended: the insurance row stored as a row
      of nulls. */
  function FirstRunIntended(t: Tables, sr: ServiceRequest): Effect<()> {
    if PassedIntegration(sr) then CacheCurrentValuesNullable(t, InsuranceRequest(sr))
    else Effect(t, Failure(ServiceFault(NotFoundForCacheMessage(sr.messageId))))
  }

  /** Corrected, a request that passed integration leaves a row of nulls in the cache, which
      getCachedData then finds, so that a later restore or confirm sees cached data; any other
      request is reported and nothing is written. */
  lemma FirstRunCachesNullRow(t: Tables, sr: ServiceRequest)
    requires forall i :: 0 <= i < |t.cache| ==> t.cache[i].messageId != sr.messageId
    ensures var e := FirstRunIntended(t, sr);
      PassedIntegration(sr) ==>
        e.result == Success(())
        && e.tables == t.(cache := t.cache + [CacheRow(sr.messageId, FlowName(sr.dataFlowType), sr.filialName, None, map[])])
        && CachedData(e.tables.cache, sr) == Some(ServiceRequest(sr.filialName, sr.dataFlowType, sr.messageId, Some(0),
             Some([]), None, map[]))
    ensures !PassedIntegration(sr) ==>
      FirstRunIntended(t, sr) == Effect(t, Failure(ServiceFault(NotFoundForCacheMessage(sr.messageId))))
  {
    if PassedIntegration(sr) {
      var row := CachedRowOf(InsuranceRequest(sr), []);
      assert row.columns == map[];
      var cache := t.cache + [row];
      assert cache[|t.cache|] == row;
      assert FirstCached(cache, sr.messageId) == Some(|t.cache|);
      assert NextRowIdentifiers(cache, sr.messageId, |t.cache|) == [];
    }
  }

  const CACHE_FAILED := "Невозможно сохранить данные в кеш БД. "

  /** `catch (Exception e)` rethrowing a service exception: the prefix, a line separator and the
      caught message. */
  function WrapAny(prefix: string, r: Result<()>): (w: Result<()>)
    ensures w.Success? <==> r.Success?
    ensures w.Failure? ==> w.fault == ServiceFault(prefix + LINE_SEPARATOR + r.fault.message)
  {
    if r.Failure? then Failure(ServiceFault(prefix + LINE_SEPARATOR + r.fault.message)) else r
  }

  /** `catch (RequestControlServiceException e)` rethrowing with a prefix; runtime exceptions
      pass through. */
  function WrapService(prefix: string, r: Result<()>): (w: Result<()>)
    ensures r.Failure? && r.fault.ServiceFault? ==> w == Failure(ServiceFault(prefix + LINE_SEPARATOR + r.fault.message))
    ensures !(r.Failure? && r.fault.ServiceFault?) ==> w == r
  {
    if r.Failure? && r.fault.ServiceFault? then Failure(ServiceFault(prefix + LINE_SEPARATOR + r.fault.message)) else r
  }

  /** The try block of processCacheRequest: cache the current values, or take the first-run
      path when there are none. */
  function CacheAttempt(t: Tables, sr: ServiceRequest): Effect<()> {
    match CurrentValues(t, sr)
    case Failure(f) => Effect(t, Failure(f))
    case Success(cv) => if cv.Some? then CacheCurrentValuesEffect(t, cv.value) else FirstRunEffect(t, sr)
  }

  /** processCacheRequest: nothing to cache for a first version; otherwise the attempt, with
      any exception it throws reported as failing to cache. The version test is outside the
      try, so a missing version throws unwrapped. */
  function CacheRequestEffect(t: Tables, sr: ServiceRequest): Effect<()> {
    match VersionIsOne(sr.requestVersion)
    case Failure(f) => Effect(t, Failure(f))
    case Success(isOne) =>
      if isOne then Effect(t, Success(()))
      else
        var e := CacheAttempt(t, sr);
        Effect(e.tables, WrapAny(CACHE_FAILED, e.result))
  }

  method ProcessCacheRequest(db: Database, sr: ServiceRequest) returns (r: Result<()>)
    modifies db
    ensures Effect(db.tables, r) == CacheRequestEffect(old(db.tables), sr)
  {
    var isOne := VersionIsOne(sr.requestVersion);
    if isOne.Failure? {
      return Failure(isOne.fault);
    }
    if isOne.value {
      return Success(());
    }
    var attempt: Result<()>;
    var currentValues := GetCurrentValuesForCache(db, sr);
    if currentValues.Failure? {
      attempt := Failure(currentValues.fault);
    } else if currentValues.value.Some? {
      attempt := CacheCurrentValues(db, currentValues.value.value);
    } else {
      attempt := ProcessServiceFirstRunForCache(db, sr);
    }
    r := WrapAny(CACHE_FAILED, attempt);
  }

  /** Caching writes at most one row, to request_cache only; a failure writes nothing and is
      reported as a service exception that it could not cache, except that a request without a
      version throws unwrapped; a first version writes nothing. */
  lemma CacheRequestOutcome(t: Tables, sr: ServiceRequest)
    ensures var e := CacheRequestEffect(t, sr);
      (e.result.Failure? || sr.requestVersion == Some(1) ==> e.tables == t)
      && (sr.requestVersion == Some(1) ==> e.result == Success(()))
      && (sr.requestVersion.None? ==> e.result.Failure? && e.result.fault.RuntimeFault?)
      && (e.result.Success? && sr.requestVersion != Some(1) ==>
            e.tables.identifiers == t.identifiers && e.tables.requests == t.requests && e.tables.templates == t.templates
            && |e.tables.cache| == |t.cache| + 1 && e.tables.cache[..|t.cache|] == t.cache)
      && (e.result.Failure? && sr.requestVersion.Some? ==>
            e.result.fault.ServiceFault? && e.result.fault.message[..|CACHE_FAILED|] == CACHE_FAILED)
  {
    var e := CacheRequestEffect(t, sr);
    if sr.requestVersion.Some? && sr.requestVersion != Some(1) {
      var a := CacheAttempt(t, sr);
      if a.result.Success? {
        assert a.tables.cache[..|t.cache|] == t.cache;
      }
    }
  }

  /** Caching a version other than the first succeeds only when the request asks for both the
      identifiers and the version operator: without the version operator no version is
      collected and binding it throws, without the identifiers operator the identifier list is
      missing, and the first-run path never succeeds. */
  lemma CachingNeedsVersionAndIdentifiers(t: Tables, sr: ServiceRequest)
    ensures CacheRequestEffect(t, sr).result.Success? && sr.requestVersion != Some(1) ==>
      RequestVersion in sr.operators && ControlIdentifiers in sr.operators
  {
    CurrentValuesCollected(t, sr);
    FirstRunAsWrittenNeverCaches(t, sr);
  }

  /** When the identifiers and the version of the request are both stored and both operators
      are asked for, a successful cache keeps the stored version; as written, reading the
      message's cache back then gives no identifiers, and read as intended it gives the value of
      every stored identifier. */
  lemma CachedStoredValuesReadBack(t: Tables, sr: ServiceRequest)
    requires sr.requestVersion.Some? && sr.requestVersion != Some(1)
    requires ControlIdentifiers in sr.operators && RequestVersion in sr.operators
    requires forall i :: 0 <= i < |t.cache| ==> t.cache[i].messageId != sr.messageId
    requires StoredIds(t, sr).Success? && StoredIds(t, sr).value != []
    requires StoredVer(t, sr).Success? && StoredVer(t, sr).value.Some?
    requires CacheRequestEffect(t, sr).result.Success?
    ensures var c := CachedData(CacheRequestEffect(t, sr).tables.cache, sr);
      c.Some? && c.value.requestVersion == StoredVer(t, sr).value && c.value.idList == Some([])
    ensures var c := CachedDataIntended(CacheRequestEffect(t, sr).tables.cache, sr);
      c.Some? && c.value.requestVersion == StoredVer(t, sr).value
      && forall id :: GetValue(c.value.idList.value, id) == GetValue(StoredIds(t, sr).value, id)
  {
    CurrentValuesCollected(t, sr);
    var cv := CurrentValues(t, sr).value.value;
    CachedValuesReadBack(t, cv, sr);
  }

  // ---------------------------------------------------------------------------------------
  // restoreRequest and processRestoreRequest

  /** restoreRequest: delete what is stored under the cached identifiers, then, when the cached
      values have a version and identifiers, insert them again. */
  function RestoreRequestEffect(t: Tables, cached: ServiceRequest): Effect<()> {
    var ctr := RequestCtr(cached);
    var d := DeleteIdentifiersEffect(t, ctr);
    if d.result.Failure? then d
    else if cached.requestVersion.Some? && cached.idList.Some? && cached.idList.value != [] then InsertRequestEffect(d.tables, ctr)
    else d
  }

  method RestoreRequest(db: Database, cached: ServiceRequest) returns (r: Result<()>)
    modifies db
    ensures Effect(db.tables, r) == RestoreRequestEffect(old(db.tables), cached)
  {
    var ctr := RequestCtr(cached);
    r := DeleteFromRequestIdentifiers(db, ctr);
    if r.Failure? {
      return;
    }
    if cached.requestVersion.Some? && cached.idList.Some? && cached.idList.value != [] {
      r := InsertIdentifiersAndRequestVersionToDB(db, ctr);
    }
  }

  const CACHE_NOT_FOUND := "Кешированные данные не найдены в базе данных"
  const RESTORE_FAILED := "Невозможно выполнить восстановление ранее сохраненных данных из кеша. "

  /** The try block of processRestoreRequest, given what getCachedData read. */
  function RestoreAttempt(t: Tables, sr: ServiceRequest, cachedData: Option<ServiceRequest>): Effect<()> {
    match cachedData
    case None => Effect(t, Failure(ServiceFault(CACHE_NOT_FOUND)))
    case Some(cached) =>
      var e := RestoreRequestEffect(t, cached);
      if e.result.Failure? then e else ClearCachedEffect(e.tables, sr.messageId)
  }

  /** processRestoreRequest: restore the cached values and clear the cache, reporting a
      service exception as failing to restore. */
  function RestoreEffect(t: Tables, sr: ServiceRequest): Effect<()> {
    var e := RestoreAttempt(t, sr, CachedData(t.cache, sr));
    Effect(e.tables, WrapService(RESTORE_FAILED, e.result))
  }

  method ProcessRestoreRequest(db: Database, sr: ServiceRequest) returns (r: Result<()>)
    modifies db
    ensures Effect(db.tables, r) == RestoreEffect(old(db.tables), sr)
  {
    var cachedData := GetCachedData(db, sr);
    var attempt: Result<()>;
    if cachedData.Some? {
      attempt := RestoreRequest(db, cachedData.value);
      if attempt.Success? {
        attempt := ClearCachedData(db, sr.messageId);
      }
    } else {
      attempt := Failure(ServiceFault(CACHE_NOT_FOUND));
    }
    r := WrapService(RESTORE_FAILED, attempt);
  }

  /** As written, a message with a single cached row cannot be restored: getCachedData reads no
      identifiers for it, so the delete has neither tuple to delete by, and the restore fails
      before anything is written. */
  lemma SingleCachedRowCannotBeRestored(t: Tables, sr: ServiceRequest)
    requires FirstCached(t.cache, sr.messageId).Some?
    requires forall j :: FirstCached(t.cache, sr.messageId).value < j < |t.cache| ==> t.cache[j].messageId != sr.messageId
    ensures RestoreEffect(t, sr) == Effect(t, Failure(ServiceFault(RESTORE_FAILED + LINE_SEPARATOR + NOTHING_TO_DELETE)))
  {
    var cached := CachedData(t.cache, sr).value;
    assert cached.idList == Some([]);
    assert !DeletesByMaster([]) && !DeletesByFilial([]);
  }

  /** processRestoreRequest with getCachedData as evidently intended. */
  function RestoreIntendedEffect(t: Tables, sr: ServiceRequest): Effect<()> {
    var e := RestoreAttempt(t, sr, CachedDataIntended(t.cache, sr));
    Effect(e.tables, WrapService(RESTORE_FAILED, e.result))
  }

  /** With getCachedData as intended, restoring a cached message whose stored rows can be
      deleted puts back one row with the cached version (0 for a NULL one) and the cached value
      of every identifier, and clears the message's cache. */
  lemma RestoreReinstatesCachedRow(t: Tables, sr: ServiceRequest)
    requires CachedDataIntended(t.cache, sr).Some?
    requires DeleteIdentifiersEffect(t, RequestCtr(CachedDataIntended(t.cache, sr).value)).result.Success?
    ensures var k := FirstCached(t.cache, sr.messageId).value;
      var d := DeleteIdentifiersEffect(t, RequestCtr(CachedDataIntended(t.cache, sr).value));
      var e := RestoreIntendedEffect(t, sr);
      e.result == Success(())
      && |e.tables.identifiers| == |d.tables.identifiers| + 1
      && e.tables.identifiers[..|d.tables.identifiers|] == d.tables.identifiers
      && e.tables.identifiers[|d.tables.identifiers|].requestVersion == Some(t.cache[k].requestVersion.GetOr(0))
      && (forall id :: Column(e.tables.identifiers[|d.tables.identifiers|].columns, id) == Column(t.cache[k].columns, id))
      && (forall row :: row in e.tables.cache <==> row in t.cache && row.messageId != sr.messageId)
  {
    var k := FirstCached(t.cache, sr.messageId).value;
    var cached := CachedDataIntended(t.cache, sr).value;
    var ctr := RequestCtr(cached);
    var d := DeleteIdentifiersEffect(t, ctr);
    var row := InsertedRequestRow(FlowName(sr.dataFlowType), sr.filialName, cached.requestVersion.value, cached.idList.value);
    var inserted := d.tables.(identifiers := d.tables.identifiers + [row]);
    assert RestoreRequestEffect(t, cached) == Effect(inserted, Success(()));
    assert inserted.cache == t.cache;
    ClearCachedOutcome(inserted, sr.messageId);
    forall id ensures Column(row.columns, id) == Column(t.cache[k].columns, id) {
      InsertedRequestRowColumns(FlowName(sr.dataFlowType), sr.filialName, cached.requestVersion.value, cached.idList.value, id);
      RowIdentifiersRoundTrip(t.cache[k].columns, id);
    }
    assert (d.tables.identifiers + [row])[..|d.tables.identifiers|] == d.tables.identifiers;
  }

  /** Restoring a message with no cached row changes nothing and reports it. */
  lemma RestoreWithoutCache(t: Tables, sr: ServiceRequest)
    requires forall i :: 0 <= i < |t.cache| ==> t.cache[i].messageId != sr.messageId
    ensures RestoreEffect(t, sr) == Effect(t, Failure(ServiceFault(RESTORE_FAILED + LINE_SEPARATOR + CACHE_NOT_FOUND)))
  {
  }

  /** Even with getCachedData as intended, a cached row of nulls cannot be restored: its
      identifiers give neither tuple to delete by, so the restore fails before anything is
      written. */
  lemma NullRowCannotBeRestored(t: Tables, sr: ServiceRequest)
    requires FirstCached(t.cache, sr.messageId).Some?
    requires t.cache[FirstCached(t.cache, sr.messageId).value].columns == map[]
    ensures RestoreIntendedEffect(t, sr).tables == t
    ensures RestoreIntendedEffect(t, sr).result == Failure(ServiceFault(RESTORE_FAILED + LINE_SEPARATOR + NOTHING_TO_DELETE))
  {
    var cached := CachedDataIntended(t.cache, sr).value;
    var ids := cached.idList.value;
    RowIdentifiersRoundTrip(map[], IdIntegration);
    assert !DeletesByMaster(ids) && !DeletesByFilial(ids);
  }

  // ---------------------------------------------------------------------------------------
  // processConfirmRequest and processRequestLevelOperations

  const CONFIRM_FAILED := "Невозможно выполнить подтверждение ранее полученного запроса. "

  /** The try block of processConfirmRequest: clear the cache and save the identifiers, which
      may have gained new ones. */
  function ConfirmAttempt(t: Tables, sr: ServiceRequest): Effect<()> {
    match CachedData(t.cache, sr)
    case None => Effect(t, Failure(ServiceFault(CACHE_NOT_FOUND + ".")))
    case Some(_) =>
      var c := ClearCachedEffect(t, sr.messageId);
      if c.result.Failure? then c else ControlIdentifiersOperator.SaveIdentifiersEffect(c.tables, IdentifiersCtr(sr))
  }

  /** processConfirmRequest, reporting a service exception as failing to confirm. */
  function ConfirmEffect(t: Tables, sr: ServiceRequest): Effect<()> {
    var e := ConfirmAttempt(t, sr);
    Effect(e.tables, WrapService(CONFIRM_FAILED, e.result))
  }

  method ProcessConfirmRequest(db: Database, sr: ServiceRequest) returns (r: Result<()>)
    modifies db
    ensures Effect(db.tables, r) == ConfirmEffect(old(db.tables), sr)
  {
    var cachedData := GetCachedData(db, sr);
    var attempt: Result<()>;
    if cachedData.Some? {
      attempt := ClearCachedData(db, sr.messageId);
      if attempt.Success? {
        var ctr := GenerateControlTypeRequest(ControlIdentifiers, sr);
        attempt := ControlIdentifiersOperator.SaveIdentifiersToDB(db, ctr.value);
      }
    } else {
      attempt := Failure(ServiceFault(CACHE_NOT_FOUND + "."));
    }
    r := WrapService(CONFIRM_FAILED, attempt);
  }

  /** Confirming a cached message clears its cache and saves the request's identifiers as the
      identifiers operator would; confirming one with no cached row changes nothing. */
  lemma ConfirmOutcome(t: Tables, sr: ServiceRequest)
    ensures var e := ConfirmEffect(t, sr);
      var saved := ControlIdentifiersOperator.SaveIdentifiersEffect(t, IdentifiersCtr(sr));
      CachedData(t.cache, sr).Some? ==>
        e.result == WrapService(CONFIRM_FAILED, saved.result)
        && e.tables.identifiers == saved.tables.identifiers
        && forall row :: row in e.tables.cache <==> row in t.cache && row.messageId != sr.messageId
    ensures CachedData(t.cache, sr).None? ==>
      ConfirmEffect(t, sr) == Effect(t, Failure(ServiceFault(CONFIRM_FAILED + LINE_SEPARATOR + (CACHE_NOT_FOUND + "."))))
  {
    ClearCachedOutcome(t, sr.messageId);
  }

  /** The operation the request asks of the REQUEST control type, if any. */
  function RequestOperation(sr: ServiceRequest): Option<Operation> {
    if Request in sr.operators then Some(sr.operators[Request]) else None
  }

  /** processRequestLevelOperations: cache, restore or confirm as the REQUEST operation says,
      and nothing for any other operation; whatever it throws is rethrown as a service
      exception with the same message. */
  function RequestLevelEffect(t: Tables, sr: ServiceRequest): Effect<()> {
    var op := RequestOperation(sr);
    var e :=
      if op == Some(Operation.CacheCurrentValues) then CacheRequestEffect(t, sr)
      else if op == Some(RestoreFromCache) then RestoreEffect(t, sr)
      else if op == Some(ConfirmRequest) then ConfirmEffect(t, sr)
      else Effect(t, Success(()));
    Effect(e.tables, if e.result.Failure? then Failure(ServiceFault(e.result.fault.message)) else e.result)
  }

  method ProcessRequestLevelOperations(db: Database, sr: ServiceRequest) returns (r: Result<()>)
    modifies db
    ensures Effect(db.tables, r) == RequestLevelEffect(old(db.tables), sr)
  {
    var op := RequestOperation(sr);
    if op == Some(Operation.CacheCurrentValues) {
      r := ProcessCacheRequest(db, sr);
    } else if op == Some(RestoreFromCache) {
      r := ProcessRestoreRequest(db, sr);
    } else if op == Some(ConfirmRequest) {
      r := ProcessConfirmRequest(db, sr);
    } else {
      r := Success(());
    }
    if r.Failure? {
      r := Failure(ServiceFault(r.fault.message));
    }
  }

  /** Whatever the request-level operations throw reaches the caller as a service exception, and
      an operation other than cache, restore or confirm does nothing. */
  lemma RequestLevelOutcome(t: Tables, sr: ServiceRequest)
    ensures RequestLevelEffect(t, sr).result.Failure? ==> RequestLevelEffect(t, sr).result.fault.ServiceFault?
    ensures RequestOperation(sr) !in {Some(Operation.CacheCurrentValues), Some(RestoreFromCache), Some(ConfirmRequest)} ==>
      RequestLevelEffect(t, sr) == Effect(t, Success(()))
  {
  }
}
