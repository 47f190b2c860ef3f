/** ClientAttributesServiceOperator: the operator that compares the client attributes of an
    incoming request with those of the request saved for the same message, and saves requests
    with their personal data hashed. It keeps two caches: compiled templates by name, and parsed
    saved requests by flow, filial and message id, which expire. The database is the Database
    object; the XML parser, the number parser, MD5, the text of a timestamp and the iteration
    order of HashMaps keyed by paths are the environment `Env`. */
module ClientAttributesOperator {
  import opened Wrappers
  import JavaText
  import opened IdLists
  import opened XmlPaths
  import opened XmlTree
  import TemplatePaths
  import opened AttributeValues
  import opened SimpleCaches
  import opened TempCaches
  import opened Storage
  import opened OperatorsModel
  import opened ServiceData
  import opened ClientAttributeErrors
  import opened AttributeMatching

  const CHECK_XML_FAILED := "Не удалось обработать xml структуру запроса на проверку клиентских атрибутов."
  const SAVE_XML_FAILED := "Не удалось обработать xml структуру запроса на сохранение."
  const HASHING_FAILED := "Не удалось выполнить хеширование персональных данных. " + LINE_SEPARATOR
  const INDEX_OUT_OF_BOUNDS := "IndexOutOfBoundsException"

  /** What the operator is given besides its requests and the database: XML parsing (None
      where the text is not well-formed) and the message of the parser's exception in that
      case ("" when it has none), number parsing, MD5 in hex, LocalDateTime.toString, and the
      iteration order of every HashMap keyed by paths. */
  datatype Env = Env(
    parseXml: string -> Option<XNode>,
    parseError: string -> string,
    parseNumber: string -> Option<real>,
    md5Hex: string -> string,
    timeText: int -> string,
    keyOrder: KeyOrder)

  ghost predicate ValidEnv(env: Env) {
    HashOrder(env.keyOrder)
  }

  /** String concatenation and `%s` of a possibly null string. */
  function NullText(s: Option<string>): string {
    if s.Some? then s.value else "null"
  }

  function TemplateNotFound(flow: string): string {
    "Не " + "найдены данные о шаблоне по клиентским атрибутам для потока " + flow
  }

  /** The ClientAttributesDataException of a stored template that does not parse. */
  function TemplateParseFailed(parserMessage: string): string {
    "Ошибка " + "обработки шаблона клиентских атрибутов." + LINE_SEPARATOR + parserMessage
  }

  function SavedRequestNotFound(id: Option<string>): string {
    "Невозможно выполнить проверку клиентских атрибутов. Сохраненное обращение с идентификатором "
    + NullText(id) + " не найдено"
  }

  // ---------------------------------------------------------------------------------------
  // validateRequest

  /** validateRequest: a non-empty identifier list with a non-blank master-system identifier,
      and a non-blank body. */
  function ValidateRequest(sr: ServiceRequest): (r: bool)
    ensures r <==> (sr.idList.Some? && |sr.idList.value| > 0
                    && Contains(sr.idList.value, IdMasterSystem)
                    && !JavaText.IsNullOrBlank(GetValue(sr.idList.value, IdMasterSystem))
                    && !JavaText.IsNullOrBlank(sr.checkRequestBody))
  {
    if sr.idList.Some? && |sr.idList.value| > 0 then
      LookupsAgree(sr.idList.value, IdMasterSystem);
      HasValue(sr.idList.value, IdMasterSystem) && sr.checkRequestBody.Some? && !JavaText.IsBlank(sr.checkRequestBody.value)
    else false
  }

  /** A validated request reaches neither the missing-identifier nor the empty-list failure of
      the check and the save: the first identifier exists and the master-system one is found. */
  lemma ValidatedRequestHasIdentifiers(sr: ServiceRequest)
    requires ValidateRequest(sr)
    ensures FirstIdValue(sr.idList).Success? && MasterId(sr.idList).Success?
    ensures MasterId(sr.idList).value.Some?
  {
    LookupsAgree(sr.idList.value, IdMasterSystem);
  }

  // ---------------------------------------------------------------------------------------
  // Identifiers of cached and saved requests

  /** getRequestIdentifier: the key of a parsed saved request in its cache. */
  function RequestIdentifierOf(flow: string, filial: string, messageId: Option<string>): string {
    flow + "." + filial + "." + NullText(messageId)
  }

  /** In a text starting with a dot-free part and a dot, that dot is the first one. */
  lemma FirstDot(a: string, x: string)
    requires '.' !in a
    ensures (a + "." + x)[|a|] == '.'
    ensures forall j :: 0 <= j < |a| ==> (a + "." + x)[j] != '.'
    ensures (a + "." + x)[..|a|] == a && (a + "." + x)[|a| + 1..] == x
  {
    assert forall j :: 0 <= j < |a| ==> (a + "." + x)[j] == a[j];
  }

  /** Splitting at the first dot: two texts without a dot followed by a dot are equal when what
      they start is. */
  lemma DotSeparated(a: string, b: string, x: string, y: string)
    requires '.' !in a && '.' !in b && a + "." + x == b + "." + y
    ensures a == b && x == y
  {
    FirstDot(a, x);
    FirstDot(b, y);
    assert |a| == |b|;
  }

  /** With flows and filials free of dots, two requests share a cache key exactly when they
      have the same flow, filial and message-id text. */
  lemma RequestIdentifierDistinguishes(f1: string, l1: string, m1: Option<string>, f2: string, l2: string, m2: Option<string>)
    requires '.' !in f1 && '.' !in f2 && '.' !in l1 && '.' !in l2
    ensures RequestIdentifierOf(f1, l1, m1) == RequestIdentifierOf(f2, l2, m2)
      <==> f1 == f2 && l1 == l2 && NullText(m1) == NullText(m2)
  {
    if RequestIdentifierOf(f1, l1, m1) == RequestIdentifierOf(f2, l2, m2) {
      assert RequestIdentifierOf(f1, l1, m1) == f1 + "." + (l1 + "." + NullText(m1));
      assert RequestIdentifierOf(f2, l2, m2) == f2 + "." + (l2 + "." + NullText(m2));
      DotSeparated(f1, f2, l1 + "." + NullText(m1), l2 + "." + NullText(m2));
      DotSeparated(l1, l2, NullText(m1), NullText(m2));
    }
  }

  /** A missing message id and the message id "null" share a cache key. */
  lemma NullMessageIdSharesKey(flow: string, filial: string)
    ensures RequestIdentifierOf(flow, filial, None) == RequestIdentifierOf(flow, filial, Some("null"))
  {
  }

  /** The message id the check looks the saved request up by: the first identifier's value.
      A missing list and an empty one throw. */
  function FirstIdValue(ids: Option<seq<RequestIdentifier>>): (r: Result<Option<string>>)
    ensures r.Success? <==> ids.Some? && |ids.value| > 0
    ensures r.Success? ==> r.value == ids.value[0].idValue
  {
    match ids
    case None => Failure(RuntimeFault(NULL_POINTER))
    case Some(list) => if |list| == 0 then Failure(RuntimeFault(INDEX_OUT_OF_BOUNDS)) else Success(list[0].idValue)
  }

  /** `getRequestIdentifiers().get(ID_MASTER_SYSTEM).getIdValue()`: a missing list or a missing
      identifier throws; the value itself may be null. */
  function MasterId(ids: Option<seq<RequestIdentifier>>): (r: Result<Option<string>>)
    ensures r.Success? <==> ids.Some? && Contains(ids.value, IdMasterSystem)
    ensures r.Success? ==> r.value == GetValue(ids.value, IdMasterSystem)
  {
    match ids
    case None => Failure(RuntimeFault(NULL_POINTER))
    case Some(list) =>
      LookupsAgree(list, IdMasterSystem);
      match Get(list, IdMasterSystem)
      case None => Failure(RuntimeFault(NULL_POINTER))
      case Some(id) => Success(id.idValue)
  }

  // ---------------------------------------------------------------------------------------
  // Templates

  /** generateTemplateName. */
  function GenerateTemplateName(flow: string, timestampText: string): string {
    flow + "-" + timestampText
  }

  /** A generated name has a hyphen, so it is never a flow name. */
  lemma GeneratedNameIsNoFlowName(f: DataFlowType, flow: string, timestampText: string)
    ensures JavaText.Contains(GenerateTemplateName(flow, timestampText), "-")
    ensures GenerateTemplateName(flow, timestampText) != FlowName(f)
  {
    var n := GenerateTemplateName(flow, timestampText);
    assert JavaText.OccursAt(n, "-", |flow|);
    FlowNameHasNoHyphen(f);
  }

  /** getEffectiveTemplate once its row is read: the stored text is parsed (a null text is
      dereferenced, a text that does not parse is a ClientAttributesDataException) and compiled
      to the paths of the document's first child, which must exist. */
  function CompileTemplate(env: Env, name: string, text: Option<string>): (r: Result<Template>)
    ensures text.None? ==> r == Failure(RuntimeFault(NULL_POINTER))
    ensures text.Some? && env.parseXml(text.value).None? ==>
      r == Failure(ServiceFault(TemplateParseFailed(env.parseError(text.value))))
    ensures text.Some? && env.parseXml(text.value).Some? && FirstChild(env.parseXml(text.value).value).None? ==>
      r == Failure(RuntimeFault(NULL_POINTER))
    ensures r.Success? <==>
      text.Some? && env.parseXml(text.value).Some? && FirstChild(env.parseXml(text.value).value).Some?
    ensures r.Success? ==>
      WellFormed(r.value) && r.value.name == name && r.value.doc == env.parseXml(text.value).value
  {
    if text.None? then Failure(RuntimeFault(NULL_POINTER))
    else match env.parseXml(text.value)
    case None => Failure(ServiceFault(TemplateParseFailed(env.parseError(text.value))))
    case Some(doc) =>
      match FirstChild(doc)
      case None => Failure(RuntimeFault(NULL_POINTER))
      case Some(root) =>
        CompiledTemplateWellFormed(name, doc);
        Success(Template(name, doc, TemplatePaths.TemplatePaths([], root, [0])))
  }

  lemma CompiledTemplateWellFormed(name: string, doc: XNode)
    requires doc.Element? && doc.kids != []
    ensures WellFormed(Template(name, doc, TemplatePaths.TemplatePaths([], doc.kids[0], [0])))
  {
    var m := TemplatePaths.TemplatePaths([], doc.kids[0], [0]);
    TemplatePaths.TemplatePathsValid([], doc.kids[0], [0]);
    forall k | k in m ensures |k| >= 1 && NodeAt(doc, m[k]).Some? {
      TemplatePaths.ValidEntryFacts([], doc.kids[0], [0], k, m[k]);
      var v := m[k];
      assert v[0] == v[..1][0] == 0;
      assert v[|[0]|..] == v[1..];
      assert NodeAt(doc, v) == NodeAt(doc.kids[0], v[1..]);
    }
  }

  /** Compiling a template never yields the missing-template fault: the messages differ in
      their first letter. */
  lemma CompileNeverMissesTemplate(env: Env, name: string, text: Option<string>, flow: string)
    ensures CompileTemplate(env, name, text) != Failure(ServiceFault(TemplateNotFound(flow)))
  {
    if text.Some? && env.parseXml(text.value).None? {
      var m := env.parseError(text.value);
      assert TemplateParseFailed(m)[0] == 'О' != 'Н' == TemplateNotFound(flow)[0];
    }
  }

  predicate TemplatesValid(m: map<string, Template>) {
    forall k :: k in m ==> WellFormed(m[k])
  }

  /** The template cache after a lookup and the lookup's outcome. */
  datatype TemplateLookup = TemplateLookup(cache: map<string, Template>, result: Result<Template>)

  /** getCurrentTemplate: the template in effect for the flow at the timestamp, from the cache
      when its name is there; otherwise the template is loaded as LoadTemplate says. */
  function CurrentTemplate(env: Env, rows: seq<TemplateRow>, cache: map<string, Template>, flow: string, timestamp: int)
    : (r: TemplateLookup)
    ensures TemplatesValid(cache) ==> TemplatesValid(r.cache) && (r.result.Success? ==> WellFormed(r.result.value))
    ensures r.result == Failure(ServiceFault(TemplateNotFound(flow))) <==> EffectiveTemplate(rows, flow, timestamp).None?
  {
    match EffectiveTemplate(rows, flow, timestamp)
    case None => TemplateLookup(cache, Failure(ServiceFault(TemplateNotFound(flow))))
    case Some(i) =>
      var name := rows[i].name;
      match Lookup(cache, name)
      case Some(t) => TemplateLookup(cache, Success(t))
      case None =>
        CompileNeverMissesTemplate(env, name, rows[i].template, flow);
        LoadTemplate(env, rows, cache, name, rows[i].template)
  }

  /** A miss in getCurrentTemplate: the cache is first cut down to the names returned by
      getAllEffectiveTemplateNames, which are flows, and the compiled template is added. */
  function LoadTemplate(env: Env, rows: seq<TemplateRow>, cache: map<string, Template>, name: string, text: Option<string>)
    : (r: TemplateLookup)
    ensures TemplatesValid(cache) ==> TemplatesValid(r.cache) && (r.result.Success? ==> WellFormed(r.result.value))
    ensures r.result == CompileTemplate(env, name, text)
  {
    var pruned := Retain(cache, TemplateFlows(rows));
    match CompileTemplate(env, name, text)
    case Failure(f) => TemplateLookup(pruned, Failure(f))
    case Success(t) => TemplateLookup(pruned[name := t], Success(t))
  }

  /** A lookup that misses loads the template in effect; one that hits returns what the cache
      holds under that template's name, and leaves the cache alone. */
  lemma CurrentTemplateSource(env: Env, rows: seq<TemplateRow>, cache: map<string, Template>, flow: string, timestamp: int)
    requires EffectiveTemplate(rows, flow, timestamp).Some?
    ensures var row := rows[EffectiveTemplate(rows, flow, timestamp).value];
      var r := CurrentTemplate(env, rows, cache, flow, timestamp);
      (row.name in cache ==> r == TemplateLookup(cache, Success(cache[row.name])))
      && (row.name !in cache ==>
            r.result == CompileTemplate(env, row.name, row.template)
            && (r.result.Success? ==> r.cache[row.name] == r.result.value))
  {
  }

  /** Once a lookup has succeeded, asking again with the same tables and timestamp hits: the
      same template, and the cache stays as it is. */
  lemma CurrentTemplateStable(env: Env, rows: seq<TemplateRow>, cache: map<string, Template>, flow: string, timestamp: int)
    requires CurrentTemplate(env, rows, cache, flow, timestamp).result.Success?
    ensures var r := CurrentTemplate(env, rows, cache, flow, timestamp);
      CurrentTemplate(env, rows, r.cache, flow, timestamp) == r
  {
    var i := EffectiveTemplate(rows, flow, timestamp).value;
    var name := rows[i].name;
    var r := CurrentTemplate(env, rows, cache, flow, timestamp);
    assert name in r.cache && r.cache[name] == r.result.value;
  }

  /** Pruning keeps only keys equal to a flow, and template names are never flows: when every
      cached name has a hyphen and no flow has one, a miss leaves only the loaded template in
      the cache. */
  lemma MissKeepsOnlyLoadedTemplate(env: Env, rows: seq<TemplateRow>, cache: map<string, Template>, flow: string, timestamp: int)
    requires EffectiveTemplate(rows, flow, timestamp).Some?
    requires rows[EffectiveTemplate(rows, flow, timestamp).value].name !in cache
    requires forall k :: k in cache ==> JavaText.Contains(k, "-")
    requires forall i :: 0 <= i < |rows| ==> !JavaText.Contains(rows[i].flow, "-")
    ensures CurrentTemplate(env, rows, cache, flow, timestamp).cache.Keys
      <= {rows[EffectiveTemplate(rows, flow, timestamp).value].name}
  {
    forall k | k in TemplateFlows(rows) ensures !JavaText.Contains(k, "-") {
      var i :| 0 <= i < |rows| && rows[i].flow == k;
    }
  }

  // ---------------------------------------------------------------------------------------
  // Saved requests

  predicate RequestsValid(m: map<string, Unit<ParsedRequest>>) {
    forall k :: k in m ==> Resolves(m[k].cacheUnit) && m[k].cacheUnit.lastUpdated.Some?
  }

  /** What getCachedUnit returns for the key when the cache iterates in `order`. */
  function CachedRequest(cache: map<string, Unit<ParsedRequest>>, order: seq<string>, key: string): (r: Option<ParsedRequest>)
    ensures RequestsValid(cache) && r.Some? ==> Resolves(r.value) && r.value.lastUpdated.Some?
  {
    if LastVisited(order, key) && key in cache then Some(cache[key].cacheUnit) else None
  }

  /** A saved row parsed along the template, without hashing, stamped with its update time. */
  ghost function ParsedSaved(env: Env, t: Template, row: SavedRequestRow): (r: Result<ParsedRequest>)
    requires ValidEnv(env) && WellFormed(t)
    ensures r.Success? ==> Resolves(r.value) && r.value.doc == row.request && r.value.lastUpdated == Some(row.updatedAt)
  {
    match MatchByPaths(t, env.keyOrder, env.md5Hex, false, row.request)
    case Failure(f) => Failure(f)
    case Success(m) =>
      MatchResolves(t, env.keyOrder, env.md5Hex, false, row.request, Some(row.updatedAt));
      Success(ParsedRequest(m.root, m.found, Some(row.updatedAt)))
  }

  /** The parsing half of getEffectiveRequest, on a fresh document object. */
  method ParseSavedRequest(env: Env, t: Template, row: SavedRequestRow) returns (r: Result<ParsedRequest>)
    requires ValidEnv(env) && WellFormed(t)
    ensures r == ParsedSaved(env, t, row)
  {
    var requestDoc := new RequestDocument(row.request);
    var found := MatchClientAttributesByPaths(t, env.keyOrder, env.md5Hex, requestDoc, false);
    if found.Failure? {
      return Failure(found.fault);
    }
    return Success(ParsedRequest(requestDoc.root, found.value, Some(row.updatedAt)));
  }

  /** A document with its personal data hashed along the template (hashPersonalData). */
  ghost function HashedDocument(env: Env, t: Template, doc: XNode): (r: Result<XNode>)
    requires ValidEnv(env) && WellFormed(t)
    ensures r.Success? ==> SameShape(doc, r.value)
  {
    match MatchByPaths(t, env.keyOrder, env.md5Hex, true, doc)
    case Failure(f) => Failure(f)
    case Success(m) => Success(m.root)
  }

  /** The outcome of getEffectiveRequest and the parsed request it caches, if any. */
  datatype RequestLookup = RequestLookup(result: Result<Option<ParsedRequest>>, store: Option<ParsedRequest>)

  /** getEffectiveRequest: null when nothing is saved under the key; the cached request when it
      carries the saved row's update time; otherwise the saved document parsed along the
      template, without hashing, which is then cached. */
  ghost function EffectiveRequest(env: Env, rows: seq<SavedRequestRow>, cached: Option<ParsedRequest>, flow: string,
                                  filial: string, messageId: Option<string>, t: Template): (r: RequestLookup)
    requires ValidEnv(env) && WellFormed(t)
    ensures (cached.Some? ==> Resolves(cached.value)) && r.result.Success? && r.result.value.Some? ==>
      Resolves(r.result.value.value)
    ensures r.store.Some? ==>
              r.result == Success(r.store) && Resolves(r.store.value) && r.store.value.lastUpdated.Some?
  {
    match FirstSaved(rows, flow, filial, messageId)
    case None => RequestLookup(Success(None), None)
    case Some(i) =>
      var lastUpdate := rows[i].updatedAt;
      if cached.Some? && cached.value.lastUpdated.None? then RequestLookup(Failure(RuntimeFault(NULL_POINTER)), None)
      else if cached.Some? && cached.value.lastUpdated == Some(lastUpdate) then RequestLookup(Success(cached), None)
      else match ParsedSaved(env, t, rows[i])
        case Failure(f) => RequestLookup(Failure(f), None)
        case Success(p) => RequestLookup(Success(Some(p)), Some(p))
  }

  /** The request the check compares against is current: null exactly when nothing is saved
      under the key, otherwise stamped with the update time of the saved row, and a freshly
      parsed one is the saved document itself. */
  lemma EffectiveRequestIsCurrent(env: Env, rows: seq<SavedRequestRow>, cached: Option<ParsedRequest>, flow: string,
                                  filial: string, messageId: Option<string>, t: Template)
    requires ValidEnv(env) && WellFormed(t)
    ensures var r := EffectiveRequest(env, rows, cached, flow, filial, messageId, t);
      var i := FirstSaved(rows, flow, filial, messageId);
      (r.result == Success(None) <==> i.None?)
      && (r.result.Success? && r.result.value.Some? ==> r.result.value.value.lastUpdated == Some(rows[i.value].updatedAt))
      && (r.store.Some? ==> r.store.value.doc == rows[i.value].request)
  {
  }

  /** A saved request with a null message id is never found. */
  lemma NullMessageIdNeverFound(env: Env, rows: seq<SavedRequestRow>, cached: Option<ParsedRequest>, flow: string,
                                filial: string, t: Template)
    requires ValidEnv(env) && WellFormed(t)
    ensures EffectiveRequest(env, rows, cached, flow, filial, None, t).result == Success(None)
  {
    assert FirstSaved(rows, flow, filial, None).None? by {
      forall i | 0 <= i < |rows| ensures !SavedRequestKey(rows[i], flow, filial, None) {
      }
    }
  }

  /** A cached request that is exactly what parsing the current saved row would give does not
      change the outcome: the cache only saves work. */
  lemma CachedRequestCoherent(env: Env, rows: seq<SavedRequestRow>, p: ParsedRequest, flow: string,
                              filial: string, messageId: Option<string>, t: Template)
    requires ValidEnv(env) && WellFormed(t)
    requires FirstSaved(rows, flow, filial, messageId).Some?
    requires ParsedSaved(env, t, rows[FirstSaved(rows, flow, filial, messageId).value]) == Success(p)
    ensures EffectiveRequest(env, rows, Some(p), flow, filial, messageId, t).result
      == EffectiveRequest(env, rows, None, flow, filial, messageId, t).result
  {
  }

  // ---------------------------------------------------------------------------------------
  // checkClientAttributes

  /** The template cache, the parsed request stored in the saved-request cache (if any) and
      the result of one check. */
  datatype CheckOutcome = CheckOutcome(templates: map<string, Template>, store: Option<ParsedRequest>,
                                       result: Result<ControlTypeResult>)

  /** The verdict under the request's own control type. */
  function VerdictFor(ct: ControlType, errors: seq<string>): (r: ControlTypeResult)
    ensures r.controlType == ct && r.status == Verdict(errors).status
    ensures r.errorDescription == Verdict(errors).errorDescription
  {
    var v := Verdict(errors);
    ControlTypeResult(ct, v.status, v.errorDescription)
  }

  /** The comparison of the incoming document with the saved request: the walk along the
      template hashing personal data, then checkClientAttributesMatch and the verdict. */
  ghost function CompareWithSaved(env: Env, t: Template, ct: ControlType, doc: XNode, saved: ParsedRequest)
    : (r: Result<ControlTypeResult>)
    requires ValidEnv(env) && WellFormed(t) && Resolves(saved)
    ensures r.Success? ==> r.value.controlType == ct && (r.value.status == Ok || r.value.status == Error)
  {
    match MatchByPaths(t, env.keyOrder, env.md5Hex, true, doc)
    case Failure(f) => Failure(f)
    case Success(m) =>
      var check := ParsedRequest(m.root, m.found, None);
      MatchResolves(t, env.keyOrder, env.md5Hex, true, doc, None);
      match ClientAttributesMatch(env.parseNumber, env.keyOrder, t, saved, check)
      case Failure(f) => Failure(f)
      case Success(errors) => Success(VerdictFor(ct, errors))
  }

  /** The comparison, on a fresh document object for the incoming request. */
  method CompareWithSavedRequest(env: Env, t: Template, ct: ControlType, doc: XNode, saved: ParsedRequest)
      returns (r: Result<ControlTypeResult>)
    requires ValidEnv(env) && WellFormed(t) && Resolves(saved)
    ensures r == CompareWithSaved(env, t, ct, doc, saved)
  {
    var checkDoc := new RequestDocument(doc);
    var checkPaths := MatchClientAttributesByPaths(t, env.keyOrder, env.md5Hex, checkDoc, true);
    if checkPaths.Failure? {
      return Failure(checkPaths.fault);
    }
    MatchResolves(t, env.keyOrder, env.md5Hex, true, doc, None);
    var check := ParsedRequest(checkDoc.root, checkPaths.value, None);
    var errors := CheckClientAttributesMatch(env.parseNumber, env.keyOrder, t, saved, check);
    if errors.Failure? {
      return Failure(errors.fault);
    }
    return Success(VerdictFor(ct, errors.value));
  }

  /** The parsed request a check stores in the saved-request cache (if any) and its result. */
  datatype CheckStep = CheckStep(store: Option<ParsedRequest>, result: Result<ControlTypeResult>)

  /** What the check makes of the saved-request lookup: FAILED when nothing is saved, the
      comparison otherwise. */
  ghost function CheckSaved(env: Env, t: Template, ct: ControlType, doc: XNode, id: Option<string>, l: RequestLookup)
    : (r: CheckStep)
    requires ValidEnv(env) && WellFormed(t)
    requires l.result.Success? && l.result.value.Some? ==> Resolves(l.result.value.value)
    ensures r.store == l.store
    ensures r.result.Success? ==> r.result.value.controlType == ct && r.result.value.status != OkWithWarnings
  {
    match l.result
    case Failure(f) => CheckStep(l.store, Failure(f))
    case Success(None) => CheckStep(l.store, Success(ControlTypeResult(ct, Failed, Some(SavedRequestNotFound(id)))))
    case Success(Some(saved)) => CheckStep(l.store, CompareWithSaved(env, t, ct, doc, saved))
  }

  /** The end of checkClientAttributes' try block once the saved request is looked up: FAILED
      when nothing is saved, the comparison otherwise. */
  method ReportOnSaved(env: Env, t: Template, ct: ControlType, doc: XNode, id: Option<string>,
                       effective: Result<Option<ParsedRequest>>, ghost store: Option<ParsedRequest>)
      returns (r: Result<ControlTypeResult>)
    requires ValidEnv(env) && WellFormed(t)
    requires effective.Success? && effective.value.Some? ==> Resolves(effective.value.value)
    ensures r == CheckSaved(env, t, ct, doc, id, RequestLookup(effective, store)).result
  {
    if effective.Failure? {
      r := Failure(effective.fault);
    } else if effective.value.None? {
      r := Success(ControlTypeResult(ct, Failed, Some(SavedRequestNotFound(id))));
    } else {
      r := CompareWithSavedRequest(env, t, ct, doc, effective.value.value);
    }
  }

  /** checkClientAttributes once the template is known: parse the incoming request, find the
      saved one, and compare. */
  ghost function CheckWithTemplate(env: Env, rows: seq<SavedRequestRow>, scache: map<string, Unit<ParsedRequest>>,
                                   cacheOrder: seq<string>, ctr: ControlTypeRequest, t: Template): (r: CheckStep)
    requires ValidEnv(env) && WellFormed(t) && RequestsValid(scache)
    ensures r.store.Some? ==> Resolves(r.store.value) && r.store.value.lastUpdated.Some?
    ensures r.result.Success? ==> r.result.value.controlType == ctr.controlType && r.result.value.status != OkWithWarnings
  {
    if ctr.request.None? then CheckStep(None, Failure(RuntimeFault(NULL_POINTER)))
    else match env.parseXml(ctr.request.value)
    case None => CheckStep(None, Success(ControlTypeResult(ctr.controlType, Failed, Some(CHECK_XML_FAILED))))
    case Some(doc) =>
      match FirstIdValue(ctr.requestIdentifiers)
      case Failure(f) => CheckStep(None, Failure(f))
      case Success(id) =>
        var flow := FlowName(ctr.dataFlowType);
        var cached := CachedRequest(scache, cacheOrder, RequestIdentifierOf(flow, ctr.filial, id));
        CheckSaved(env, t, ctr.controlType, doc, id, EffectiveRequest(env, rows, cached, flow, ctr.filial, id, t))
  }

  /** checkClientAttributes: the template in effect now, then the check with it; every
      RequestControlServiceException becomes a FAILED result carrying its message. */
  ghost function CheckingOutcome(env: Env, tables: Tables, tcache: map<string, Template>, scache: map<string, Unit<ParsedRequest>>,
                       cacheOrder: seq<string>, ctr: ControlTypeRequest, now: int): (r: CheckOutcome)
    requires ValidEnv(env) && TemplatesValid(tcache) && RequestsValid(scache)
    ensures TemplatesValid(r.templates)
    ensures r.store.Some? ==> Resolves(r.store.value) && r.store.value.lastUpdated.Some?
  {
    var lookup := CurrentTemplate(env, tables.templates, tcache, FlowName(ctr.dataFlowType), now);
    match lookup.result
    case Failure(f) => CheckOutcome(lookup.cache, None, CaughtResult(ctr.controlType, Failure(f)))
    case Success(t) =>
      var c := CheckWithTemplate(env, tables.requests, scache, cacheOrder, ctr, t);
      CheckOutcome(lookup.cache, c.store, CaughtResult(ctr.controlType, c.result))
  }

  /** The check answers with a result under the request's control type and never with OK with
      warnings; only runtime exceptions escape it. */
  lemma CheckCatchesServiceFaults(env: Env, tables: Tables, tcache: map<string, Template>,
                                  scache: map<string, Unit<ParsedRequest>>, cacheOrder: seq<string>,
                                  ctr: ControlTypeRequest, now: int)
    requires ValidEnv(env) && TemplatesValid(tcache) && RequestsValid(scache)
    ensures var r := CheckingOutcome(env, tables, tcache, scache, cacheOrder, ctr, now).result;
      (r.Failure? ==> r.fault.RuntimeFault?)
      && (r.Success? ==> r.value.controlType == ctr.controlType && r.value.status != OkWithWarnings)
  {
    hide CurrentTemplate, CheckWithTemplate;
  }

  /** Without a template in effect for the flow the check fails with the template message, and
      neither cache changes. */
  lemma CheckWithoutTemplate(env: Env, tables: Tables, tcache: map<string, Template>,
                             scache: map<string, Unit<ParsedRequest>>, cacheOrder: seq<string>,
                             ctr: ControlTypeRequest, now: int)
    requires ValidEnv(env) && TemplatesValid(tcache) && RequestsValid(scache)
    requires EffectiveTemplate(tables.templates, FlowName(ctr.dataFlowType), now).None?
    ensures CheckingOutcome(env, tables, tcache, scache, cacheOrder, ctr, now)
      == CheckOutcome(tcache, None,
                      Success(ControlTypeResult(ctr.controlType, Failed, Some(TemplateNotFound(FlowName(ctr.dataFlowType))))))
  {
  }

  /** A template in effect whose stored text does not parse, and which is not cached under its
      name, makes every check of the flow fail with the template-processing message; the cache
      keeps only the entries pruning leaves. */
  lemma CheckWithMalformedTemplate(env: Env, tables: Tables, tcache: map<string, Template>,
                                   scache: map<string, Unit<ParsedRequest>>, cacheOrder: seq<string>,
                                   ctr: ControlTypeRequest, now: int)
    requires ValidEnv(env) && TemplatesValid(tcache) && RequestsValid(scache)
    requires EffectiveTemplate(tables.templates, FlowName(ctr.dataFlowType), now).Some?
    requires var row := tables.templates[EffectiveTemplate(tables.templates, FlowName(ctr.dataFlowType), now).value];
      row.name !in tcache && row.template.Some? && env.parseXml(row.template.value).None?
    ensures var row := tables.templates[EffectiveTemplate(tables.templates, FlowName(ctr.dataFlowType), now).value];
      CheckingOutcome(env, tables, tcache, scache, cacheOrder, ctr, now)
      == CheckOutcome(Retain(tcache, TemplateFlows(tables.templates)), None,
                      Success(ControlTypeResult(ctr.controlType, Failed,
                                                Some(TemplateParseFailed(env.parseError(row.template.value))))))
  {
    CurrentTemplateSource(env, tables.templates, tcache, FlowName(ctr.dataFlowType), now);
  }

  /** With the template in effect and a well-formed incoming request, a check for a message
      nothing is saved under fails with the saved-request message and caches nothing. */
  lemma CheckWithoutSavedRequest(env: Env, tables: Tables, tcache: map<string, Template>,
                                 scache: map<string, Unit<ParsedRequest>>, cacheOrder: seq<string>,
                                 ctr: ControlTypeRequest, now: int)
    requires ValidEnv(env) && TemplatesValid(tcache) && RequestsValid(scache)
    requires CurrentTemplate(env, tables.templates, tcache, FlowName(ctr.dataFlowType), now).result.Success?
    requires ctr.request.Some? && env.parseXml(ctr.request.value).Some?
    requires FirstIdValue(ctr.requestIdentifiers).Success?
    requires FirstSaved(tables.requests, FlowName(ctr.dataFlowType), ctr.filial, FirstIdValue(ctr.requestIdentifiers).value).None?
    ensures var c := CheckingOutcome(env, tables, tcache, scache, cacheOrder, ctr, now);
      var id := FirstIdValue(ctr.requestIdentifiers).value;
      c.store.None? && c.result == Success(ControlTypeResult(ctr.controlType, Failed, Some(SavedRequestNotFound(id))))
  {
    hide CompareWithSaved, ParsedSaved;
  }

  /** A check that passes compared the incoming request with the saved request current in the
      database and found no change: the saved request is the one of the first row under the
      key, as of its last update. */
  lemma CheckPassesOnCurrentRequest(env: Env, tables: Tables, tcache: map<string, Template>,
                                    scache: map<string, Unit<ParsedRequest>>, cacheOrder: seq<string>,
                                    ctr: ControlTypeRequest, now: int)
    requires ValidEnv(env) && TemplatesValid(tcache) && RequestsValid(scache)
    requires var r := CheckingOutcome(env, tables, tcache, scache, cacheOrder, ctr, now).result; r.Success? && r.value.status == Ok
    ensures FirstIdValue(ctr.requestIdentifiers).Success?
    ensures FirstSaved(tables.requests, FlowName(ctr.dataFlowType), ctr.filial, FirstIdValue(ctr.requestIdentifiers).value).Some?
    ensures var flow := FlowName(ctr.dataFlowType);
      var id := FirstIdValue(ctr.requestIdentifiers).value;
      var t := CurrentTemplate(env, tables.templates, tcache, flow, now).result;
      var cached := CachedRequest(scache, cacheOrder, RequestIdentifierOf(flow, ctr.filial, id));
      t.Success?
      && var l := EffectiveRequest(env, tables.requests, cached, flow, ctr.filial, id, t.value);
      l.result.Success? && l.result.value.Some?
      && l.result.value.value.lastUpdated
           == Some(tables.requests[FirstSaved(tables.requests, flow, ctr.filial, id).value].updatedAt)
  {
    hide EffectiveRequest, CompareWithSaved, SavingOutcome, HashedDocument;
    var flow := FlowName(ctr.dataFlowType);
    var t := CurrentTemplate(env, tables.templates, tcache, flow, now).result;
    assert t.Success?;
    assert ctr.request.Some? && env.parseXml(ctr.request.value).Some?;
    var id := FirstIdValue(ctr.requestIdentifiers).value;
    var cached := CachedRequest(scache, cacheOrder, RequestIdentifierOf(flow, ctr.filial, id));
    EffectiveRequestIsCurrent(env, tables.requests, cached, flow, ctr.filial, id, t.value);
  }

  // ---------------------------------------------------------------------------------------
  // saveRequest and saveOrUpdateRequest

  /** A RequestControlServiceException thrown while hashing becomes one whose message starts
      with the hashing message; other exceptions pass through. */
  function HashingFault(f: Fault): (r: Fault)
    ensures f.ServiceFault? ==> r == ServiceFault(HASHING_FAILED + f.message)
    ensures f.RuntimeFault? ==> r == f
  {
    if f.ServiceFault? then ServiceFault(HASHING_FAILED + f.message) else f
  }

  /** A saved row updated in place by saveOrUpdateRequest. */
  function Refreshed(row: SavedRequestRow, flow: string, filial: string, masterId: Option<string>, now: int, doc: XNode)
    : SavedRequestRow
  {
    if SavedRequestKey(row, flow, filial, masterId) then row.(updatedAt := now, request := doc) else row
  }

  /** saveOrUpdateRequest on client_attrs_requests: an INSERT when nothing is saved under the
      key yet, otherwise an UPDATE of every row under it. */
  function SaveOrUpdate(rows: seq<SavedRequestRow>, flow: string, filial: string, masterId: Option<string>, now: int,
                        doc: XNode): (r: seq<SavedRequestRow>)
  {
    if FirstSaved(rows, flow, filial, masterId).None? then rows + [SavedRequestRow(flow, filial, masterId, now, doc)]
    else seq(|rows|, i requires 0 <= i < |rows| => Refreshed(rows[i], flow, filial, masterId, now, doc))
  }

  /** After a save under a master id, the saved request under that key is the one just
      written, as of now; rows under other keys keep their place and contents. */
  lemma SaveOrUpdateFound(rows: seq<SavedRequestRow>, flow: string, filial: string, masterId: Option<string>, now: int,
                          doc: XNode)
    requires masterId.Some?
    ensures var r := SaveOrUpdate(rows, flow, filial, masterId, now, doc);
      var i := FirstSaved(r, flow, filial, masterId);
      i.Some? && r[i.value].updatedAt == now && r[i.value].request == doc
    ensures var r := SaveOrUpdate(rows, flow, filial, masterId, now, doc);
      |r| >= |rows| && forall j :: 0 <= j < |rows| && !SavedRequestKey(rows[j], flow, filial, masterId) ==> r[j] == rows[j]
  {
    var r := SaveOrUpdate(rows, flow, filial, masterId, now, doc);
    if FirstSaved(rows, flow, filial, masterId).None? {
      assert SavedRequestKey(r[|rows|], flow, filial, masterId);
    } else {
      var k := FirstSaved(rows, flow, filial, masterId).value;
      assert SavedRequestKey(r[k], flow, filial, masterId);
    }
  }

  /** A request without a master id is stored under a null message id, which no lookup
      matches: each such save adds a row and the request is never found again. */
  lemma SaveWithoutMasterIdAppends(rows: seq<SavedRequestRow>, flow: string, filial: string, now: int, doc: XNode)
    ensures SaveOrUpdate(rows, flow, filial, None, now, doc) == rows + [SavedRequestRow(flow, filial, None, now, doc)]
    ensures FirstSaved(SaveOrUpdate(rows, flow, filial, None, now, doc), flow, filial, None).None?
  {
    var r := SaveOrUpdate(rows, flow, filial, None, now, doc);
    assert forall i :: 0 <= i < |r| ==> !SavedRequestKey(r[i], flow, filial, None);
  }

  /** The template cache, the saved requests and the outcome of one save. */
  datatype SaveOutcome = SaveOutcome(templates: map<string, Template>, requests: seq<SavedRequestRow>, result: Result<()>)

  /** saveRequest once the document is parsed: hash its personal data along the template in
      effect now and save it under the master-system identifier. */
  ghost function SaveParsed(env: Env, tables: Tables, tcache: map<string, Template>, ctr: ControlTypeRequest,
                            now: int, doc: XNode): (r: SaveOutcome)
    requires ValidEnv(env) && TemplatesValid(tcache)
    ensures TemplatesValid(r.templates)
    ensures r.result.Failure? ==> r.requests == tables.requests
  {
    var flow := FlowName(ctr.dataFlowType);
    var lookup := CurrentTemplate(env, tables.templates, tcache, flow, now);
    match lookup.result
    case Failure(f) => SaveOutcome(lookup.cache, tables.requests, Failure(HashingFault(f)))
    case Success(t) =>
      match HashedDocument(env, t, doc)
      case Failure(f) => SaveOutcome(lookup.cache, tables.requests, Failure(HashingFault(f)))
      case Success(hashed) =>
        match MasterId(ctr.requestIdentifiers)
        case Failure(f) => SaveOutcome(lookup.cache, tables.requests, Failure(f))
        case Success(id) =>
          SaveOutcome(lookup.cache, SaveOrUpdate(tables.requests, flow, ctr.filial, id, now, hashed), Success(()))
  }

  /** saveRequest: parse the request; an unparsable one is refused with the saving message. */
  ghost function SavingOutcome(env: Env, tables: Tables, tcache: map<string, Template>, ctr: ControlTypeRequest, now: int)
    : (r: SaveOutcome)
    requires ValidEnv(env) && TemplatesValid(tcache)
    ensures TemplatesValid(r.templates)
    ensures r.result.Failure? ==> r.requests == tables.requests
  {
    if ctr.request.None? then SaveOutcome(tcache, tables.requests, Failure(RuntimeFault(NULL_POINTER)))
    else match env.parseXml(ctr.request.value)
    case None => SaveOutcome(tcache, tables.requests, Failure(ServiceFault(SAVE_XML_FAILED)))
    case Some(doc) => SaveParsed(env, tables, tcache, ctr, now, doc)
  }

  /** A save that succeeds stores the incoming document with its personal data hashed along
      the template in effect, stamped now, under the flow, filial and master-system id. */
  lemma SavedRequestIsHashedDocument(env: Env, tables: Tables, tcache: map<string, Template>, ctr: ControlTypeRequest,
                                     now: int)
    requires ValidEnv(env) && TemplatesValid(tcache)
    requires SavingOutcome(env, tables, tcache, ctr, now).result.Success?
    ensures ctr.request.Some? && env.parseXml(ctr.request.value).Some?
    ensures var flow := FlowName(ctr.dataFlowType);
      var doc := env.parseXml(ctr.request.value).value;
      var t := CurrentTemplate(env, tables.templates, tcache, flow, now).result;
      t.Success?
      && var hashed := HashedDocument(env, t.value, doc);
      hashed.Success? && MasterId(ctr.requestIdentifiers).Success?
      && var id := MasterId(ctr.requestIdentifiers).value;
      SavingOutcome(env, tables, tcache, ctr, now).requests
        == SaveOrUpdate(tables.requests, flow, ctr.filial, id, now, hashed.value)
  {
  }

  /** A check of a validated request right after its save finds the saved request as of the
      save, with its hashed document, whatever the cache held. */
  lemma CheckAfterSaveFindsIt(env: Env, tables: Tables, tcache: map<string, Template>, ctr: ControlTypeRequest,
                              now: int, cached: Option<ParsedRequest>, t: Template)
    requires ValidEnv(env) && TemplatesValid(tcache) && WellFormed(t)
    requires SavingOutcome(env, tables, tcache, ctr, now).result.Success?
    requires MasterId(ctr.requestIdentifiers).Success? && MasterId(ctr.requestIdentifiers).value.Some?
    requires cached.Some? ==> cached.value.lastUpdated.Some? && cached.value.lastUpdated.value != now
    ensures var flow := FlowName(ctr.dataFlowType);
      var id := MasterId(ctr.requestIdentifiers).value;
      var rows := SavingOutcome(env, tables, tcache, ctr, now).requests;
      var l := EffectiveRequest(env, rows, cached, flow, ctr.filial, id, t);
      l.result.Success? ==>
        l.result.value.Some? && l.result.value.value.lastUpdated == Some(now)
        && l.store.Some? && l.store.value.doc == rows[FirstSaved(rows, flow, ctr.filial, id).value].request
  {
    hide SavingOutcome, SaveParsed, HashedDocument, CurrentTemplate, CheckingOutcome, CheckWithTemplate;
    var flow := FlowName(ctr.dataFlowType);
    var id := MasterId(ctr.requestIdentifiers).value;
    SavedRequestIsHashedDocument(env, tables, tcache, ctr, now);
    var doc := env.parseXml(ctr.request.value).value;
    var tv := CurrentTemplate(env, tables.templates, tcache, flow, now).result.value;
    var hashed := HashedDocument(env, tv, doc);
    SaveOrUpdateFound(tables.requests, flow, ctr.filial, id, now, hashed.value);
    var rows := SavingOutcome(env, tables, tcache, ctr, now).requests;
    EffectiveRequestIsCurrent(env, rows, cached, flow, ctr.filial, id, t);
  }

  // ---------------------------------------------------------------------------------------
  // saveTemplate

  /** saveTemplate: a new template row for the flow, created at the timestamp, under a
      generated name. */
  function SaveTemplateRow(env: Env, rows: seq<TemplateRow>, flow: string, timestamp: int, template: Option<string>)
    : (r: seq<TemplateRow>)
    ensures |r| == |rows| + 1 && r[..|rows|] == rows
    ensures r[|rows|] == TemplateRow(flow, timestamp, GenerateTemplateName(flow, env.timeText(timestamp)), template)
  {
    rows + [TemplateRow(flow, timestamp, GenerateTemplateName(flow, env.timeText(timestamp)), template)]
  }

  /** A template is in effect only strictly after it was created: at its own timestamp the
      flow keeps the template it had, and afterwards the one in effect is at least as recent. */
  lemma {:induction false} SavedTemplateTakesEffectLater(env: Env, rows: seq<TemplateRow>, flow: string, timestamp: int,
                                                          template: Option<string>, later: int)
    requires timestamp < later
    ensures EffectiveTemplate(SaveTemplateRow(env, rows, flow, timestamp, template), flow, timestamp)
      == EffectiveTemplate(rows, flow, timestamp)
    ensures var r := SaveTemplateRow(env, rows, flow, timestamp, template);
      var i := EffectiveTemplate(r, flow, later);
      i.Some? && r[i.value].createdAt >= timestamp
  {
    var r := SaveTemplateRow(env, rows, flow, timestamp, template);
    assert r == rows + [r[|rows|]];
    EffectiveTemplateIgnoresAppended(rows, r[|rows|], flow, timestamp);
    assert r[|rows|].flow == flow && r[|rows|].createdAt < later;
  }

  // ---------------------------------------------------------------------------------------
  // The operator

  /** The saved-request cache after a lookup that stored `store` under `key`, and left it as
      it was otherwise. */
  predicate StoredUnder(after: map<string, Unit<ParsedRequest>>, before: map<string, Unit<ParsedRequest>>,
                        key: string, store: Option<ParsedRequest>)
  {
    if store.None? then after == before
    else key in after && after[key].cacheUnit == store.value && after - {key} == before - {key}
  }

  /** The key a check stores the saved request it parsed under. */
  function CheckKey(ctr: ControlTypeRequest): string {
    var id := FirstIdValue(ctr.requestIdentifiers);
    RequestIdentifierOf(FlowName(ctr.dataFlowType), ctr.filial, if id.Success? then id.value else None)
  }

  /** The check reaches the saved-request lookup once the template is known: the incoming
      request is present and parses, and its first identifier has a value or none. */
  ghost predicate LooksUpSaved(env: Env, ctr: ControlTypeRequest) {
    ctr.request.Some? && env.parseXml(ctr.request.value).Some? && FirstIdValue(ctr.requestIdentifiers).Success?
  }

  /** checkClientAttributes consults the saved-request cache: a template is in effect for the
      flow and the lookup is reached. */
  ghost predicate CheckLooksUp(env: Env, tables: Tables, tcache: map<string, Template>, ctr: ControlTypeRequest,
                               now: int)
  {
    CurrentTemplate(env, tables.templates, tcache, FlowName(ctr.dataFlowType), now).result.Success? && LooksUpSaved(env, ctr)
  }

  class ClientAttributesServiceOperator {
    /** Compiled templates by name. */
    const templateCache: SimpleCache<Template>
    /** Parsed saved requests by getRequestIdentifier, each with its last access. */
    const savedRequestsCache: TempCache<ParsedRequest>

    /** Every cached template is well-formed; every cached request resolves and carries the
        update time it was parsed at. */
    ghost predicate Valid()
      reads templateCache, savedRequestsCache
    {
      TemplatesValid(templateCache.cache) && RequestsValid(savedRequestsCache.cache)
    }

    constructor (templateCache: SimpleCache<Template>, savedRequestsCache: TempCache<ParsedRequest>)
      requires templateCache.cache == map[] && savedRequestsCache.cache == map[]
      ensures this.templateCache == templateCache && this.savedRequestsCache == savedRequestsCache
      ensures Valid()
    {
      this.templateCache := templateCache;
      this.savedRequestsCache := savedRequestsCache;
    }

    /** getCurrentTemplate, with the queries of getEffectiveTemplateName,
        getAllEffectiveTemplateNames and getEffectiveTemplate on the database. */
    method GetCurrentTemplate(env: Env, db: Database, flow: string, timestamp: int) returns (r: Result<Template>)
      requires Valid()
      modifies templateCache
      ensures var l := CurrentTemplate(env, db.tables.templates, old(templateCache.cache), flow, timestamp);
        r == l.result && templateCache.cache == l.cache
      ensures Valid()
    {
      var rows := db.tables.templates;
      var effective := EffectiveTemplate(rows, flow, timestamp);
      if effective.None? {
        return Failure(ServiceFault(TemplateNotFound(flow)));
      }
      var name := rows[effective.value].name;
      var cached := templateCache.GetCachedUnit(name);
      if cached.Some? {
        return Success(cached.value);
      }
      templateCache.ClearCachedUnitExcept(TemplateFlows(rows));
      var template := CompileTemplate(env, name, rows[effective.value].template);
      if template.Failure? {
        return template;
      }
      templateCache.CacheUnit(name, template.value);
      return template;
    }

    /** getEffectiveRequest: the cache is consulted (touching the entry) before the update time
        is read from the database. */
    method GetEffectiveRequest(env: Env, db: Database, flow: string, filial: string, messageId: Option<string>,
                               t: Template, now: int, cacheOrder: seq<string>) returns (r: Result<Option<ParsedRequest>>)
      requires Valid() && ValidEnv(env) && WellFormed(t)
      requires IterationOrder(cacheOrder, savedRequestsCache.cache.Keys)
      modifies savedRequestsCache, savedRequestsCache.cache.Values
      ensures var key := RequestIdentifierOf(flow, filial, messageId);
        var l := EffectiveRequest(env, db.tables.requests, CachedRequest(old(savedRequestsCache.cache), cacheOrder, key),
                                  flow, filial, messageId, t);
        r == l.result && StoredUnder(savedRequestsCache.cache, old(savedRequestsCache.cache), key, l.store)
      ensures Stamped(old(savedRequestsCache.cache), RequestIdentifierOf(flow, filial, messageId), now)
      ensures Valid()
    {
      hide EffectiveRequest;
      var key := RequestIdentifierOf(flow, filial, messageId);
      var cacheData := savedRequestsCache.GetCachedUnit(key, now, cacheOrder);
      assert cacheData.Some? ==> LastVisited(cacheOrder, key) && key in old(savedRequestsCache.cache) by {
        if cacheData.Some? {
          LastVisitedIsPresent(cacheOrder, old(savedRequestsCache.cache).Keys, key);
        }
      }
      assert Stamped(old(savedRequestsCache.cache), key, now);
      var cached := if cacheData.Some? then Some(cacheData.value.cacheUnit) else None;
      r := LookupSavedRequest(env, db, flow, filial, messageId, t, now, cached);
    }

    /** The rest of getEffectiveRequest, once the cache has answered `cached`: compare with the
        saved row's update time, and parse and cache the saved row when they differ. */
    method LookupSavedRequest(env: Env, db: Database, flow: string, filial: string, messageId: Option<string>,
                              t: Template, now: int, cached: Option<ParsedRequest>) returns (r: Result<Option<ParsedRequest>>)
      requires Valid() && ValidEnv(env) && WellFormed(t)
      modifies savedRequestsCache
      ensures var l := EffectiveRequest(env, db.tables.requests, cached, flow, filial, messageId, t);
        r == l.result
        && StoredUnder(savedRequestsCache.cache, old(savedRequestsCache.cache), RequestIdentifierOf(flow, filial, messageId), l.store)
      ensures Valid()
    {
      hide ParsedSaved;
      var rows := db.tables.requests;
      var first := FirstSaved(rows, flow, filial, messageId);
      if first.None? {
        return Success(None);
      }
      var lastUpdate := rows[first.value].updatedAt;
      if cached.Some? {
        if cached.value.lastUpdated.None? {
          return Failure(RuntimeFault(NULL_POINTER));
        }
        if cached.value.lastUpdated.value == lastUpdate {
          return Success(cached);
        }
      }
      var parsed := ParseSavedRequest(env, t, rows[first.value]);
      if parsed.Failure? {
        return Failure(parsed.fault);
      }
      var unit := new Unit(parsed.value, now);
      savedRequestsCache.CacheUnit(RequestIdentifierOf(flow, filial, messageId), unit);
      return Success(Some(parsed.value));
    }

    /** The try block of checkClientAttributes once the template is known. */
    method CheckWithTemplateMethod(env: Env, db: Database, ctr: ControlTypeRequest, t: Template, now: int,
                                   cacheOrder: seq<string>) returns (r: Result<ControlTypeResult>)
      requires Valid() && ValidEnv(env) && WellFormed(t)
      requires IterationOrder(cacheOrder, savedRequestsCache.cache.Keys)
      modifies savedRequestsCache, savedRequestsCache.cache.Values
      ensures var c := CheckWithTemplate(env, db.tables.requests, old(savedRequestsCache.cache), cacheOrder, ctr, t);
        r == c.result && StoredUnder(savedRequestsCache.cache, old(savedRequestsCache.cache), CheckKey(ctr), c.store)
      ensures StampedIf(LooksUpSaved(env, ctr), old(savedRequestsCache.cache), CheckKey(ctr), now)
      ensures Valid()
    {
      hide EffectiveRequest, CompareWithSaved, CachedRequest, ParsedSaved;
      if ctr.request.None? {
        return Failure(RuntimeFault(NULL_POINTER));
      }
      var parsed := env.parseXml(ctr.request.value);
      if parsed.None? {
        return Success(ControlTypeResult(ctr.controlType, Failed, Some(CHECK_XML_FAILED)));
      }
      var id := FirstIdValue(ctr.requestIdentifiers);
      if id.Failure? {
        return Failure(id.fault);
      }
      r := CheckAgainstSaved(env, db, ctr, t, now, cacheOrder, parsed.value, id.value);
    }

    /** The rest of that try block, once the incoming request is parsed and its id known: find
        the saved request and compare. */
    method CheckAgainstSaved(env: Env, db: Database, ctr: ControlTypeRequest, t: Template, now: int,
                             cacheOrder: seq<string>, doc: XNode, id: Option<string>) returns (r: Result<ControlTypeResult>)
      requires Valid() && ValidEnv(env) && WellFormed(t)
      requires IterationOrder(cacheOrder, savedRequestsCache.cache.Keys)
      modifies savedRequestsCache, savedRequestsCache.cache.Values
      ensures var flow := FlowName(ctr.dataFlowType);
        var key := RequestIdentifierOf(flow, ctr.filial, id);
        var c := CheckSaved(env, t, ctr.controlType, doc, id,
                            EffectiveRequest(env, db.tables.requests, CachedRequest(old(savedRequestsCache.cache), cacheOrder, key),
                                             flow, ctr.filial, id, t));
        r == c.result && StoredUnder(savedRequestsCache.cache, old(savedRequestsCache.cache), key, c.store)
      ensures Stamped(old(savedRequestsCache.cache), RequestIdentifierOf(FlowName(ctr.dataFlowType), ctr.filial, id), now)
      ensures Valid()
    {
      hide EffectiveRequest, CompareWithSaved, CachedRequest, ParsedSaved, CheckSaved;
      ghost var key := RequestIdentifierOf(FlowName(ctr.dataFlowType), ctr.filial, id);
      ghost var l := EffectiveRequest(env, db.tables.requests, CachedRequest(savedRequestsCache.cache, cacheOrder, key),
                                      FlowName(ctr.dataFlowType), ctr.filial, id, t);
      var effective := GetEffectiveRequest(env, db, FlowName(ctr.dataFlowType), ctr.filial, id, t, now, cacheOrder);
      assert RequestLookup(effective, l.store) == l;
      r := ReportOnSaved(env, t, ctr.controlType, doc, id, effective, l.store);
    }

    /** checkClientAttributes: a RequestControlServiceException anywhere becomes FAILED with
        its message. */
    method CheckClientAttributes(env: Env, db: Database, ctr: ControlTypeRequest, now: int, cacheOrder: seq<string>)
        returns (r: Result<ControlTypeResult>)
      requires Valid() && ValidEnv(env)
      requires IterationOrder(cacheOrder, savedRequestsCache.cache.Keys)
      modifies templateCache, savedRequestsCache, savedRequestsCache.cache.Values
      ensures var c := CheckingOutcome(env, db.tables, old(templateCache.cache), old(savedRequestsCache.cache), cacheOrder, ctr, now);
        r == c.result && templateCache.cache == c.templates
        && StoredUnder(savedRequestsCache.cache, old(savedRequestsCache.cache), CheckKey(ctr), c.store)
      ensures StampedIf(CheckLooksUp(env, db.tables, old(templateCache.cache), ctr, now), old(savedRequestsCache.cache),
                        CheckKey(ctr), now)
      ensures Valid()
    {
      hide CurrentTemplate, CheckWithTemplate;
      var template := GetCurrentTemplate(env, db, FlowName(ctr.dataFlowType), now);
      if template.Failure? {
        return CaughtResult(ctr.controlType, Failure(template.fault));
      }
      r := CheckWithTemplateMethod(env, db, ctr, template.value, now, cacheOrder);
      r := CaughtResult(ctr.controlType, r);
    }

    /** saveRequest: parse, hash the personal data along the template in effect, save. */
    method SaveRequest(env: Env, db: Database, ctr: ControlTypeRequest, now: int) returns (r: Result<()>)
      requires Valid() && ValidEnv(env)
      modifies templateCache, db
      ensures var s := SavingOutcome(env, old(db.tables), old(templateCache.cache), ctr, now);
        r == s.result && templateCache.cache == s.templates && db.tables == old(db.tables).(requests := s.requests)
      ensures Valid()
    {
      hide CurrentTemplate, MatchByPaths;
      if ctr.request.None? {
        return Failure(RuntimeFault(NULL_POINTER));
      }
      var parsed := env.parseXml(ctr.request.value);
      if parsed.None? {
        return Failure(ServiceFault(SAVE_XML_FAILED));
      }
      var preparedDoc := new RequestDocument(parsed.value);
      var template := GetCurrentTemplate(env, db, FlowName(ctr.dataFlowType), now);
      if template.Failure? {
        return Failure(HashingFault(template.fault));
      }
      var hashed := HashPersonalData(template.value, env.keyOrder, env.md5Hex, preparedDoc);
      if hashed.Failure? {
        return Failure(HashingFault(hashed.fault));
      }
      r := SaveOrUpdateRequest(db, ctr, preparedDoc.root, now);
    }

    /** saveOrUpdateRequest with the serialised document. */
    method SaveOrUpdateRequest(db: Database, ctr: ControlTypeRequest, doc: XNode, now: int) returns (r: Result<()>)
      modifies db
      ensures var id := MasterId(ctr.requestIdentifiers);
        (id.Success? ==> r == Success(())) && (id.Failure? ==> r == Failure(id.fault) && db.tables == old(db.tables))
        && (id.Success? ==>
              db.tables == old(db.tables).(requests :=
                SaveOrUpdate(old(db.tables.requests), FlowName(ctr.dataFlowType), ctr.filial, id.value, now, doc)))
    {
      var flow := FlowName(ctr.dataFlowType);
      var masterId := MasterId(ctr.requestIdentifiers);
      if masterId.Failure? {
        return Failure(masterId.fault);
      }
      var rows := db.tables.requests;
      if FirstSaved(rows, flow, ctr.filial, masterId.value).None? {
        db.tables := db.tables.(requests := rows + [SavedRequestRow(flow, ctr.filial, masterId.value, now, doc)]);
      } else {
        db.tables := db.tables.(requests :=
          seq(|rows|, i requires 0 <= i < |rows| => Refreshed(rows[i], flow, ctr.filial, masterId.value, now, doc)));
      }
      return Success(());
    }

    /** saveTemplate: one INSERT into client_attrs_templates. */
    method SaveTemplate(env: Env, db: Database, flow: string, timestamp: int, template: Option<string>)
      modifies db
      ensures db.tables == old(db.tables).(templates := SaveTemplateRow(env, old(db.tables.templates), flow, timestamp, template))
    {
      var name := GenerateTemplateName(flow, env.timeText(timestamp));
      db.tables := db.tables.(templates := db.tables.templates + [TemplateRow(flow, timestamp, name, template)]);
    }

    /** cleanSavedRequestsCache: the scheduled expiry of saved requests not used for a period. */
    method CleanSavedRequestsCache(now: int)
      requires Valid()
      modifies savedRequestsCache
      ensures savedRequestsCache.cache == Live(old(savedRequestsCache.cache), savedRequestsCache.cachePeriod, now)
      ensures Valid()
    {
      savedRequestsCache.CleanExpiredCache(now);
    }
  }
}
