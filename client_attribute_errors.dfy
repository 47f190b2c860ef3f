/** The comparison half of ClientAttributesServiceOperator: for every client attribute of the
    saved request, whether the incoming request changed it, and for every attribute only the
    incoming request has, whether it may appear; the error texts of both; and the verdict built
    from them (checkClientAttributesMatch, getCheckRequestNonMatchErrors,
    getCheckRequestAdditionalErrors, getErrorDescription and the aggregation in
    checkClientAttributes). The maps of the source are iterated in HashMap order, which depends
    on hash codes: the order is a parameter. */
module ClientAttributeErrors {
  import opened Wrappers
  import JavaText
  import opened XmlPaths
  import opened XmlTree
  import opened XmlMarks
  import opened DynamicPaths
  import opened AttributeValues
  import opened DynamicErrors
  import opened OperatorsModel
  import opened ServiceData
  import opened ErrorLists

  const NULL_POINTER := "NullPointerException"
  const UNKNOWN_STRUCTURE := "Обнаружена неизвестная структура данных."
  const NOT_TRANSMITTED := ". Ранее указанный атрибут не передавался."
  const PREVIOUS_VALUE := ". Ранее передаваемое значение атрибута - "

  // ---------------------------------------------------------------------------------------
  // The compiled template and the parsed requests.

  /** XmlRequestTemplate: the template's name, its document and the client-attribute leaf of
      each template path. */
  datatype Template = Template(name: string, doc: XNode, paths: map<Path, Pos>)

  /** What getTemplatePathsFromNode guarantees of a template: every path has a step and leads
      to a node of the document. */
  predicate WellFormed(t: Template) {
    forall k :: k in t.paths ==> |k| >= 1 && NodeAt(t.doc, t.paths[k]).Some?
  }

  /** XmlRequestPaths / ParsedXmlRequest: a request document, the node found under each path
      (null where the search recorded none) and, for a saved request, when it was stored. */
  datatype ParsedRequest = ParsedRequest(doc: XNode, paths: map<Path, Option<Pos>>, lastUpdated: Option<int>)

  /** Every recorded node is a node of the document. */
  predicate Resolves(r: ParsedRequest) {
    forall k :: k in r.paths && r.paths[k].Some? ==> NodeAt(r.doc, r.paths[k].value).Some?
  }

  predicate Inputs(t: Template, saved: ParsedRequest, check: ParsedRequest) {
    WellFormed(t) && Resolves(saved) && Resolves(check)
  }

  /** `order` lists the keys of a map once each, as its entry-set iterator visits them. */
  ghost predicate Enumerates(order: seq<Path>, keys: set<Path>) {
    (forall k :: k in order <==> k in keys)
    && (forall i, j :: 0 <= i < j < |order| ==> order[i] != order[j])
  }

  /** The iteration order of every HashMap keyed by paths: a function of the key set. */
  type KeyOrder = set<Path> -> seq<Path>

  ghost predicate HashOrder(keyOrder: KeyOrder) {
    forall s :: Enumerates(keyOrder(s), s)
  }

  // ---------------------------------------------------------------------------------------
  // getErrorDescription

  /** The template path a request path is looked up under: a dynamic path has its section
      values replaced by the template's dynamic steps. */
  function TemplatePathOf(p: Path): Path {
    if IsDynamicPath(p) then CreateTemplateDynamicPath(p) else p
  }

  /** getErrorDescription for the template leaf at `tpos` and the request leaf at `rpos` of
      `doc`: a dynamic path names its section instance; a static one uses the leaf's
      errorDescription, whose absence is a data error. */
  function ErrorDescription(pathIsDynamic: bool, templatePath: Path, t: Template, tpos: Pos, doc: XNode, rpos: Pos)
    : (r: Result<string>)
    requires NodeAt(t.doc, tpos).Some? && NodeAt(doc, rpos).Some?
    ensures !pathIsDynamic && NodeAt(t.doc, tpos).value.Element? ==>
      (r.Success? <==> GetErrorDescription(NodeAt(t.doc, tpos).value).Some?)
      && (r.Success? ==> r.value == GetErrorDescription(NodeAt(t.doc, tpos).value).value)
      && (r.Failure? ==> r.fault == ServiceFault(NO_ERROR_DESCRIPTION + NodeName(NodeAt(t.doc, tpos).value)))
    ensures pathIsDynamic ==> r == DynamicErrorDescription(templatePath, t.doc, tpos, doc, rpos)
  {
    if pathIsDynamic then DynamicErrorDescription(templatePath, t.doc, tpos, doc, rpos)
    else
      var templateNode := NodeAt(t.doc, tpos).value;
      if templateNode.Text? then Failure(RuntimeFault(NULL_POINTER))
      else match GetErrorDescription(templateNode)
        case None => Failure(ServiceFault(NO_ERROR_DESCRIPTION + NodeName(templateNode)))
        case Some(error) => Success(error)
  }

  // ---------------------------------------------------------------------------------------
  // getCheckRequestNonMatchErrors

  /** A leaf without a value: absent, without a first child, or whose first child has a null
      or blank value. */
  predicate NoValue(n: Option<XNode>) {
    n.None? || JavaText.IsNullOrBlank(FirstChildValue(n.value))
  }

  /** The outcome of comparing a saved leaf with the incoming one, and the saved value as the
      error text then reads it. */
  datatype Comparison = Comparison(matches: bool, savedValue: string)

  function Compare(parse: string -> Option<real>, saved: XNode, check: Option<XNode>): Comparison {
    if NoValue(Some(saved)) then Comparison(NoValue(check), "null")
    else if NoValue(check) then Comparison(true, FirstChildValue(saved).value)
    else
      var savedValue := CheckFileAttribute(FirstChildValue(saved).value);
      var requestValue := CheckFileAttribute(FirstChildValue(check.value).value);
      Comparison(CompareClientAttrsValues(parse, savedValue, requestValue), savedValue)
  }

  /** The rules of the comparison: a saved leaf without a value matches exactly an incoming
      leaf without one; a saved value is kept by an incoming leaf without one; otherwise the
      two values must agree once file references are reduced to their hash and numbers are
      compared by value. */
  lemma MatchRules(parse: string -> Option<real>, saved: XNode, check: Option<XNode>)
    ensures NoValue(Some(saved)) ==> (Compare(parse, saved, check).matches <==> NoValue(check))
    ensures !NoValue(Some(saved)) && NoValue(check) ==> Compare(parse, saved, check).matches
    ensures !NoValue(Some(saved)) && !NoValue(check) ==>
      FirstChildValue(saved).Some? && FirstChildValue(check.value).Some?
      && (Compare(parse, saved, check).matches <==>
          CompareClientAttrsValues(parse, CheckFileAttribute(FirstChildValue(saved).value),
                                   CheckFileAttribute(FirstChildValue(check.value).value)))
  {
  }

  /** An attribute sent again unchanged always matches, and between two leaves with values the
      comparison does not depend on which one was saved. */
  lemma UnchangedAttributeMatches(parse: string -> Option<real>, saved: XNode, check: XNode)
    ensures Compare(parse, saved, Some(saved)).matches
    ensures !NoValue(Some(saved)) && !NoValue(Some(check)) ==>
      Compare(parse, saved, Some(check)).matches == Compare(parse, check, Some(saved)).matches
  {
    if !NoValue(Some(saved)) {
      CompareClientAttrsValuesReflexive(parse, CheckFileAttribute(FirstChildValue(saved).value));
      if !NoValue(Some(check)) {
        CompareClientAttrsValuesSymmetric(parse, CheckFileAttribute(FirstChildValue(saved).value),
          CheckFileAttribute(FirstChildValue(check).value));
      }
    }
  }

  /** The error text of a changed attribute: the description, then either the note that the
      attribute was not sent before (the saved leaf has no child) or, unless the attribute is
      personal data or its saved value is a hash, the previous value. */
  function MismatchMessage(error: string, saved: XNode, savedValue: string, templateNode: XNode): string {
    if FirstChild(saved).None? then error + NOT_TRANSMITTED
    else if !NodeHasPersonalDataMark(templateNode) && !JavaText.Contains(savedValue, HASH) then
      error + PREVIOUS_VALUE + ConcatFirstChildValue(saved).value
    else error
  }

  /** The message never discloses a personal-data attribute's previous value: it is the
      description, with at most the note that the attribute was not sent before. A hashed saved
      value is not disclosed either. */
  lemma PersonalDataNotDisclosed(error: string, saved: XNode, savedValue: string, templateNode: XNode)
    requires NodeHasPersonalDataMark(templateNode) || JavaText.Contains(savedValue, HASH)
    ensures var m := MismatchMessage(error, saved, savedValue, templateNode);
      m == (if FirstChild(saved).None? then error + NOT_TRANSMITTED else error)
  {
  }

  /** Any other changed attribute with a previous child reports the previous value as the
      saved document holds it ("null" for a child without a value). */
  lemma PreviousValueReported(error: string, saved: XNode, savedValue: string, templateNode: XNode)
    requires FirstChild(saved).Some?
    requires !NodeHasPersonalDataMark(templateNode) && !JavaText.Contains(savedValue, HASH)
    ensures MismatchMessage(error, saved, savedValue, templateNode)
      == error + PREVIOUS_VALUE + NodeValue(FirstChild(saved).value).GetOr("null")
  {
  }

  /** The leaf the incoming request recorded under the path, if any. */
  function CheckNode(check: ParsedRequest, path: Path): Option<XNode>
    requires Resolves(check)
  {
    if path in check.paths && check.paths[path].Some? then NodeAt(check.doc, check.paths[path].value) else None
  }

  /** One iteration of getCheckRequestNonMatchErrors: None when the attribute under `path` is
      unchanged, its error text when it changed. A path the template does not know, and a
      saved path with no node, throw. */
  function NonMatchEntry(parse: string -> Option<real>, t: Template, saved: ParsedRequest, check: ParsedRequest, path: Path)
    : Result<Option<string>>
    requires Inputs(t, saved, check) && path in saved.paths
  {
    var templatePath := TemplatePathOf(path);
    if templatePath !in t.paths then Failure(RuntimeFault(UNKNOWN_STRUCTURE))
    else
      var tpos := t.paths[templatePath];
      match saved.paths[path]
      case None => Failure(RuntimeFault(NULL_POINTER))
      case Some(spos) =>
        var savedNode := NodeAt(saved.doc, spos).value;
        var c := Compare(parse, savedNode, CheckNode(check, path));
        if c.matches then Success(None)
        else match ErrorDescription(IsDynamicPath(path), templatePath, t, tpos, saved.doc, spos)
          case Failure(f) => Failure(f)
          case Success(error) => Success(Some(MismatchMessage(error, savedNode, c.savedValue, NodeAt(t.doc, tpos).value)))
  }

  /** One iteration of getCheckRequestNonMatchErrors, step by step. */
  method CompareSavedPath(parse: string -> Option<real>, t: Template, saved: ParsedRequest, check: ParsedRequest,
                          currentPath: Path) returns (r: Result<Option<string>>)
    requires Inputs(t, saved, check) && currentPath in saved.paths
    ensures r == NonMatchEntry(parse, t, saved, check, currentPath)
  {
    var templatePath := currentPath;
    var pathIsDynamic := IsDynamicPath(currentPath);
    if pathIsDynamic {
      templatePath := CreateTemplateDynamicPath(currentPath);
    }
    if templatePath !in t.paths {
      return Failure(RuntimeFault(UNKNOWN_STRUCTURE));
    }
    var checkReqPathNode := CheckNode(check, currentPath);
    if saved.paths[currentPath].None? {
      return Failure(RuntimeFault(NULL_POINTER));
    }
    var savedPos := saved.paths[currentPath].value;
    var savedReqPathNode := NodeAt(saved.doc, savedPos).value;
    var c := Compare(parse, savedReqPathNode, checkReqPathNode);
    if c.matches {
      return Success(None);
    }
    var error := ErrorDescription(pathIsDynamic, templatePath, t, t.paths[templatePath], saved.doc, savedPos);
    if error.Failure? {
      return Failure(error.fault);
    }
    var templatePathNode := NodeAt(t.doc, t.paths[templatePath]).value;
    return Success(Some(MismatchMessage(error.value, savedReqPathNode, c.savedValue, templatePathNode)));
  }

  // ---------------------------------------------------------------------------------------
  // The accumulation both loops share.

  /** The error of one entry, when there is one, appended to the list. */
  function Appended(errors: seq<string>, e: Option<string>): seq<string> {
    if e.Some? then errors + [e.value] else errors
  }

  /** The errors of the entries in order; the first entry that throws ends the loop. */
  function Collect(entries: seq<Result<Option<string>>>): Result<seq<string>> {
    if entries == [] then Success([])
    else match Collect(entries[..|entries| - 1])
      case Failure(f) => Failure(f)
      case Success(errors) =>
        match entries[|entries| - 1]
        case Failure(f) => Failure(f)
        case Success(e) => Success(Appended(errors, e))
  }

  /** The accumulation succeeds exactly when no entry throws, and then holds exactly the errors
      of the entries. */
  lemma {:induction false} CollectElements(entries: seq<Result<Option<string>>>)
    ensures Collect(entries).Success? <==> forall i :: 0 <= i < |entries| ==> entries[i].Success?
    ensures Collect(entries).Success? ==>
      forall e :: e in Collect(entries).value <==> exists i :: 0 <= i < |entries| && entries[i] == Success(Some(e))
  {
    if entries != [] {
      var init := entries[..|entries| - 1];
      CollectElements(init);
      assert forall i :: 0 <= i < |init| ==> init[i] == entries[i];
    }
  }

  /** Once an entry has thrown, the later ones change nothing. */
  lemma {:induction false} CollectFailureStays(entries: seq<Result<Option<string>>>, n: nat)
    requires n <= |entries| && Collect(entries[..n]).Failure?
    ensures Collect(entries) == Collect(entries[..n])
    decreases |entries| - n
  {
    if n < |entries| {
      assert entries[..n + 1][..n] == entries[..n];
      CollectFailureStays(entries, n + 1);
    } else {
      assert entries[..n] == entries;
    }
  }

  /** One more entry in the loop. */
  lemma CollectStep(entries: seq<Result<Option<string>>>, n: nat, errors: seq<string>)
    requires n < |entries| && Collect(entries[..n]) == Success(errors)
    ensures entries[n].Failure? ==> Collect(entries) == Failure(entries[n].fault)
    ensures entries[n].Success? ==> Collect(entries[..n + 1]) == Success(Appended(errors, entries[n].value))
  {
    assert entries[..n + 1][..n] == entries[..n];
    if entries[n].Failure? {
      CollectFailureStays(entries, n + 1);
    }
  }

  predicate Covers(order: seq<Path>, keys: set<Path>) {
    forall i :: 0 <= i < |order| ==> order[i] in keys
  }

  /** The outcome of every saved path of `order`. */
  function NonMatchEntries(parse: string -> Option<real>, t: Template, saved: ParsedRequest, check: ParsedRequest,
                           order: seq<Path>): (es: seq<Result<Option<string>>>)
    requires Inputs(t, saved, check) && Covers(order, saved.paths.Keys)
    ensures |es| == |order|
    ensures forall i :: 0 <= i < |order| ==> es[i] == NonMatchEntry(parse, t, saved, check, order[i])
  {
    seq(|order|, i requires 0 <= i < |order| => NonMatchEntry(parse, t, saved, check, order[i]))
  }

  /** getCheckRequestNonMatchErrors over the saved paths in `order`. */
  method GetCheckRequestNonMatchErrors(parse: string -> Option<real>, t: Template, saved: ParsedRequest,
                                       check: ParsedRequest, order: seq<Path>) returns (r: Result<seq<string>>)
    requires Inputs(t, saved, check) && Enumerates(order, saved.paths.Keys)
    ensures r == Collect(NonMatchEntries(parse, t, saved, check, order))
  {
    ghost var entries := NonMatchEntries(parse, t, saved, check, order);
    var errors: seq<string> := [];
    for i := 0 to |order|
      invariant Collect(entries[..i]) == Success(errors)
    {
      var e := CompareSavedPath(parse, t, saved, check, order[i]);
      CollectStep(entries, i, errors);
      if e.Failure? {
        return Failure(e.fault);
      }
      errors := Appended(errors, e.value);
    }
    assert entries[..|order|] == entries;
    return Success(errors);
  }

  // ---------------------------------------------------------------------------------------
  // getCheckRequestAdditionalErrors

  /** The entries of the incoming request whose path the saved request lacks
      (Collectors.toMap, which rejects a null node). */
  function AdditionalPaths(saved: ParsedRequest, check: ParsedRequest): (r: Result<map<Path, Pos>>)
    ensures r.Failure? <==> exists k :: k in check.paths && k !in saved.paths && check.paths[k].None?
    ensures r.Success? ==> r.value.Keys == check.paths.Keys - saved.paths.Keys
    ensures r.Success? ==> forall k :: k in r.value ==> check.paths[k] == Some(r.value[k])
  {
    if exists k :: k in check.paths && k !in saved.paths && check.paths[k].None? then Failure(RuntimeFault(NULL_POINTER))
    else Success(map k | k in check.paths && k !in saved.paths :: check.paths[k].value)
  }

  /** Every node of the additional entries is a node of the incoming document. */
  predicate Located(doc: XNode, additional: map<Path, Pos>) {
    forall k :: k in additional ==> NodeAt(doc, additional[k]).Some?
  }

  /** One iteration of getCheckRequestAdditionalErrors: an attribute the saved request did
      not have is an error unless its node is not a single-text node or holds the number
      zero. */
  function AdditionalEntry(parse: string -> Option<real>, t: Template, doc: XNode, path: Path, pos: Pos)
    : Result<Option<string>>
    requires WellFormed(t) && NodeAt(doc, pos).Some?
  {
    var node := NodeAt(doc, pos).value;
    if !IsTextValueNode(node) then Success(None)
    else if CheckIsZeroNumberAttribute(parse, node) == Success(true) then Success(None)
    else
      var templatePath := TemplatePathOf(path);
      if templatePath !in t.paths then Failure(RuntimeFault(UNKNOWN_STRUCTURE))
      else match ErrorDescription(IsDynamicPath(path), templatePath, t, t.paths[templatePath], doc, pos)
        case Failure(f) => Failure(f)
        case Success(error) => Success(Some(error + NOT_TRANSMITTED))
  }

  /** A new attribute is passed over exactly when its node is not a single-text node or holds
      zero; otherwise it is reported, and the report always ends with the note that the
      attribute was not sent before. */
  lemma AdditionalEntryRule(parse: string -> Option<real>, t: Template, doc: XNode, path: Path, pos: Pos)
    requires WellFormed(t) && NodeAt(doc, pos).Some?
    ensures var node := NodeAt(doc, pos).value;
      (!IsTextValueNode(node) || parse(FirstChildValue(node).value) == Some(0.0)) <==>
        AdditionalEntry(parse, t, doc, path, pos) == Success(None)
    ensures var r := AdditionalEntry(parse, t, doc, path, pos);
      r.Success? && r.value.Some? ==>
        |r.value.value| >= |NOT_TRANSMITTED| && r.value.value[|r.value.value| - |NOT_TRANSMITTED|..] == NOT_TRANSMITTED
  {
    var node := NodeAt(doc, pos).value;
    if IsTextValueNode(node) {
      CheckIsZeroOnTextValueNode(parse, node);
    }
  }

  /** The outcome of every additional path of `order`. */
  function AdditionalEntries(parse: string -> Option<real>, t: Template, doc: XNode, additional: map<Path, Pos>,
                             order: seq<Path>): (es: seq<Result<Option<string>>>)
    requires WellFormed(t) && Located(doc, additional) && Covers(order, additional.Keys)
    ensures |es| == |order|
    ensures forall i :: 0 <= i < |order| ==> es[i] == AdditionalEntry(parse, t, doc, order[i], additional[order[i]])
  {
    seq(|order|, i requires 0 <= i < |order| => AdditionalEntry(parse, t, doc, order[i], additional[order[i]]))
  }

  /** One iteration of getCheckRequestAdditionalErrors, step by step. */
  method CheckAdditionalPath(parse: string -> Option<real>, t: Template, doc: XNode, currentPath: Path, pos: Pos)
      returns (r: Result<Option<string>>)
    requires WellFormed(t) && NodeAt(doc, pos).Some?
    ensures r == AdditionalEntry(parse, t, doc, currentPath, pos)
  {
    var pathNode := NodeAt(doc, pos).value;
    if !IsTextValueNode(pathNode) {
      return Success(None);
    }
    if CheckIsZeroNumberAttribute(parse, pathNode) == Success(true) {
      return Success(None);
    }
    var templatePath := currentPath;
    var pathIsDynamic := IsDynamicPath(currentPath);
    if pathIsDynamic {
      templatePath := CreateTemplateDynamicPath(currentPath);
    }
    if templatePath !in t.paths {
      return Failure(RuntimeFault(UNKNOWN_STRUCTURE));
    }
    var error := ErrorDescription(pathIsDynamic, templatePath, t, t.paths[templatePath], doc, pos);
    if error.Failure? {
      return Failure(error.fault);
    }
    return Success(Some(error.value + NOT_TRANSMITTED));
  }

  /** getCheckRequestAdditionalErrors over the additional paths in `order`. */
  method GetCheckRequestAdditionalErrors(parse: string -> Option<real>, t: Template, doc: XNode,
                                         additional: map<Path, Pos>, order: seq<Path>) returns (r: Result<seq<string>>)
    requires WellFormed(t) && Located(doc, additional) && Enumerates(order, additional.Keys)
    ensures r == Collect(AdditionalEntries(parse, t, doc, additional, order))
  {
    ghost var entries := AdditionalEntries(parse, t, doc, additional, order);
    var errors: seq<string> := [];
    for i := 0 to |order|
      invariant Collect(entries[..i]) == Success(errors)
    {
      var e := CheckAdditionalPath(parse, t, doc, order[i], additional[order[i]]);
      CollectStep(entries, i, errors);
      if e.Failure? {
        return Failure(e.fault);
      }
      errors := Appended(errors, e.value);
    }
    assert entries[..|order|] == entries;
    return Success(errors);
  }

  // ---------------------------------------------------------------------------------------
  // checkClientAttributesMatch and the verdict.

  /** checkClientAttributesMatch: the errors of the saved paths, then those of the paths only
      the incoming request has. */
  function ClientAttributesMatch(parse: string -> Option<real>, keyOrder: KeyOrder, t: Template,
                                 saved: ParsedRequest, check: ParsedRequest): Result<seq<string>>
    requires HashOrder(keyOrder) && Inputs(t, saved, check)
  {
    var order := keyOrder(saved.paths.Keys);
    match Collect(NonMatchEntries(parse, t, saved, check, order))
    case Failure(f) => Failure(f)
    case Success(errors) =>
      match AdditionalPaths(saved, check)
      case Failure(f) => Failure(f)
      case Success(additional) =>
        var more := keyOrder(additional.Keys);
        match Collect(AdditionalEntries(parse, t, check.doc, additional, more))
        case Failure(f) => Failure(f)
        case Success(additionalErrors) => Success(errors + additionalErrors)
  }

  /** checkClientAttributesMatch, step by step. */
  method CheckClientAttributesMatch(parse: string -> Option<real>, keyOrder: KeyOrder, t: Template,
                                    saved: ParsedRequest, check: ParsedRequest) returns (r: Result<seq<string>>)
    requires HashOrder(keyOrder) && Inputs(t, saved, check)
    ensures r == ClientAttributesMatch(parse, keyOrder, t, saved, check)
  {
    var errors := GetCheckRequestNonMatchErrors(parse, t, saved, check, keyOrder(saved.paths.Keys));
    if errors.Failure? {
      return errors;
    }
    var additional := AdditionalPaths(saved, check);
    if additional.Failure? {
      return Failure(additional.fault);
    }
    var additionalErrors := GetCheckRequestAdditionalErrors(parse, t, check.doc, additional.value, keyOrder(additional.value.Keys));
    if additionalErrors.Failure? {
      return additionalErrors;
    }
    return Success(errors.value + additionalErrors.value);
  }

  /** The comparison of some saved path throws. */
  predicate SavedPathThrows(parse: string -> Option<real>, t: Template, saved: ParsedRequest, check: ParsedRequest)
    requires Inputs(t, saved, check)
  {
    exists k :: k in saved.paths && NonMatchEntry(parse, t, saved, check, k).Failure?
  }

  /** `e` is the error text of a changed saved attribute. */
  predicate ChangedAttributeError(parse: string -> Option<real>, t: Template, saved: ParsedRequest, check: ParsedRequest,
                                  e: string)
    requires Inputs(t, saved, check)
  {
    exists k :: k in saved.paths && NonMatchEntry(parse, t, saved, check, k) == Success(Some(e))
  }

  /** The check of some additional path throws. */
  predicate AdditionalPathThrows(parse: string -> Option<real>, t: Template, doc: XNode, additional: map<Path, Pos>)
    requires WellFormed(t) && Located(doc, additional)
  {
    exists k :: k in additional && AdditionalEntry(parse, t, doc, k, additional[k]).Failure?
  }

  /** `e` is the error text of an attribute only the incoming request has. */
  predicate NewAttributeError(parse: string -> Option<real>, t: Template, doc: XNode, additional: map<Path, Pos>, e: string)
    requires WellFormed(t) && Located(doc, additional)
  {
    exists k :: k in additional && AdditionalEntry(parse, t, doc, k, additional[k]) == Success(Some(e))
  }

  /** Over the saved paths in any order, the loop throws exactly when some saved path throws,
      and otherwise reports exactly the errors of the changed attributes. */
  lemma NonMatchErrorsOfPaths(parse: string -> Option<real>, t: Template, saved: ParsedRequest, check: ParsedRequest,
                              order: seq<Path>)
    requires Inputs(t, saved, check) && Enumerates(order, saved.paths.Keys)
    ensures Collect(NonMatchEntries(parse, t, saved, check, order)).Failure? <==> SavedPathThrows(parse, t, saved, check)
    ensures Collect(NonMatchEntries(parse, t, saved, check, order)).Success? ==>
      forall e :: e in Collect(NonMatchEntries(parse, t, saved, check, order)).value
        <==> ChangedAttributeError(parse, t, saved, check, e)
  {
    hide NonMatchEntries, NonMatchEntry, ChangedAttributeError, SavedPathThrows, Inputs;
    var es := NonMatchEntries(parse, t, saved, check, order);
    CollectElements(es);
    NonMatchThrows(parse, t, saved, check, order);
    if Collect(es).Success? {
      forall e ensures e in Collect(es).value <==> ChangedAttributeError(parse, t, saved, check, e) {
        NonMatchReports(parse, t, saved, check, order, e);
      }
    }
  }

  /** Some saved path of the iteration order throws exactly when some saved path throws. */
  lemma NonMatchThrows(parse: string -> Option<real>, t: Template, saved: ParsedRequest, check: ParsedRequest,
                       order: seq<Path>)
    requires Inputs(t, saved, check) && Enumerates(order, saved.paths.Keys)
    ensures (exists i :: 0 <= i < |order| && NonMatchEntries(parse, t, saved, check, order)[i].Failure?)
      <==> SavedPathThrows(parse, t, saved, check)
  {
    var es := NonMatchEntries(parse, t, saved, check, order);
    if SavedPathThrows(parse, t, saved, check) {
      var k :| k in saved.paths && NonMatchEntry(parse, t, saved, check, k).Failure?;
      var i :| 0 <= i < |order| && order[i] == k;
      assert es[i].Failure?;
    }
    if exists i :: 0 <= i < |order| && es[i].Failure? {
      var i :| 0 <= i < |order| && es[i].Failure?;
      assert order[i] in saved.paths;
    }
  }

  /** An error text is produced by some saved path of the iteration order exactly when it is
      the error of a changed saved attribute. */
  lemma NonMatchReports(parse: string -> Option<real>, t: Template, saved: ParsedRequest, check: ParsedRequest,
                        order: seq<Path>, e: string)
    requires Inputs(t, saved, check) && Enumerates(order, saved.paths.Keys)
    ensures (exists i :: 0 <= i < |order| && NonMatchEntries(parse, t, saved, check, order)[i] == Success(Some(e)))
      <==> ChangedAttributeError(parse, t, saved, check, e)
  {
    var es := NonMatchEntries(parse, t, saved, check, order);
    if ChangedAttributeError(parse, t, saved, check, e) {
      var k :| k in saved.paths && NonMatchEntry(parse, t, saved, check, k) == Success(Some(e));
      var i :| 0 <= i < |order| && order[i] == k;
      assert es[i] == Success(Some(e));
    }
    if exists i :: 0 <= i < |order| && es[i] == Success(Some(e)) {
      var i :| 0 <= i < |order| && es[i] == Success(Some(e));
      assert order[i] in saved.paths;
    }
  }

  /** The same for the additional paths. */
  lemma AdditionalErrorsOfPaths(parse: string -> Option<real>, t: Template, doc: XNode, additional: map<Path, Pos>,
                                order: seq<Path>)
    requires WellFormed(t) && Located(doc, additional) && Enumerates(order, additional.Keys)
    ensures Collect(AdditionalEntries(parse, t, doc, additional, order)).Failure?
      <==> AdditionalPathThrows(parse, t, doc, additional)
    ensures Collect(AdditionalEntries(parse, t, doc, additional, order)).Success? ==>
      forall e :: e in Collect(AdditionalEntries(parse, t, doc, additional, order)).value
        <==> NewAttributeError(parse, t, doc, additional, e)
  {
    var es := AdditionalEntries(parse, t, doc, additional, order);
    CollectElements(es);
    if AdditionalPathThrows(parse, t, doc, additional) {
      var k :| k in additional && AdditionalEntry(parse, t, doc, k, additional[k]).Failure?;
      var i :| 0 <= i < |order| && order[i] == k;
      assert es[i].Failure?;
    }
    if Collect(es).Success? {
      forall e ensures e in Collect(es).value <==> NewAttributeError(parse, t, doc, additional, e) {
        if NewAttributeError(parse, t, doc, additional, e) {
          var k :| k in additional && AdditionalEntry(parse, t, doc, k, additional[k]) == Success(Some(e));
          var i :| 0 <= i < |order| && order[i] == k;
          assert es[i] == Success(Some(e));
        }
      }
    }
  }

  /** The additional entries of requests that satisfy Resolves are nodes of the incoming
      document. */
  lemma AdditionalPathsLocated(saved: ParsedRequest, check: ParsedRequest)
    requires Resolves(check) && AdditionalPaths(saved, check).Success?
    ensures Located(check.doc, AdditionalPaths(saved, check).value)
  {
  }

  /** Whatever the iteration order, the comparison throws exactly when a saved path throws,
      a new path has no node, or a new path throws; otherwise its errors are exactly the texts of
      the changed saved attributes and of the new ones. */
  lemma ClientAttributesMatchElements(parse: string -> Option<real>, keyOrder: KeyOrder, t: Template,
                                      saved: ParsedRequest, check: ParsedRequest)
    requires HashOrder(keyOrder) && Inputs(t, saved, check)
    ensures AdditionalPaths(saved, check).Success? ==> Located(check.doc, AdditionalPaths(saved, check).value)
    ensures ClientAttributesMatch(parse, keyOrder, t, saved, check).Failure? <==>
      SavedPathThrows(parse, t, saved, check) || AdditionalPaths(saved, check).Failure?
      || AdditionalPathThrows(parse, t, check.doc, AdditionalPaths(saved, check).value)
    ensures ClientAttributesMatch(parse, keyOrder, t, saved, check).Success? ==>
      forall e :: e in ClientAttributesMatch(parse, keyOrder, t, saved, check).value
        <==> ChangedAttributeError(parse, t, saved, check, e)
             || NewAttributeError(parse, t, check.doc, AdditionalPaths(saved, check).value, e)
  {
    var order := keyOrder(saved.paths.Keys);
    assert Enumerates(order, saved.paths.Keys);
    NonMatchErrorsOfPaths(parse, t, saved, check, order);
    var a := AdditionalPaths(saved, check);
    if a.Success? {
      AdditionalPathsLocated(saved, check);
      var more := keyOrder(a.value.Keys);
      assert Enumerates(more, a.value.Keys);
      AdditionalErrorsOfPaths(parse, t, check.doc, a.value, more);
    }
  }

  /** The aggregation at the end of checkClientAttributes: OK without errors, otherwise ERROR
      with each distinct error once, ascending, joined by ";" and a line separator. */
  function Verdict(errors: seq<string>): (r: ControlTypeResult)
    ensures r.controlType == ClientAttributes
    ensures r.status == Ok <==> errors == []
    ensures r.status != Ok ==> r.status == Error && r.errorDescription == Some(JavaText.Join(ERROR_SEPARATOR, SortedDistinct(errors)))
  {
    if errors == [] then Passed(ClientAttributes)
    else ControlTypeResult(ClientAttributes, Error, Some(JavaText.Join(ERROR_SEPARATOR, SortedDistinct(errors))))
  }

  /** The reported errors are distinct and ascending and are exactly the errors found. */
  lemma VerdictLists(errors: seq<string>)
    requires errors != []
    ensures StrictlySorted(SortedDistinct(errors))
    ensures forall e :: e in SortedDistinct(errors) <==> e in errors
    ensures Verdict(errors).errorDescription == Some(JavaText.Join(ERROR_SEPARATOR, SortedDistinct(errors)))
  {
    SortedDistinctSpec(errors);
  }

  /** The verdict does not depend on the HashMap iteration order: two orders either both throw
      or give the same verdict. */
  lemma VerdictIndependentOfOrder(parse: string -> Option<real>, o1: KeyOrder, o2: KeyOrder, t: Template,
                                  saved: ParsedRequest, check: ParsedRequest)
    requires HashOrder(o1) && HashOrder(o2) && Inputs(t, saved, check)
    ensures ClientAttributesMatch(parse, o1, t, saved, check).Success?
      <==> ClientAttributesMatch(parse, o2, t, saved, check).Success?
    ensures ClientAttributesMatch(parse, o1, t, saved, check).Success? ==>
      Verdict(ClientAttributesMatch(parse, o1, t, saved, check).value)
        == Verdict(ClientAttributesMatch(parse, o2, t, saved, check).value)
  {
    ClientAttributesMatchElements(parse, o1, t, saved, check);
    ClientAttributesMatchElements(parse, o2, t, saved, check);
    var r1 := ClientAttributesMatch(parse, o1, t, saved, check);
    var r2 := ClientAttributesMatch(parse, o2, t, saved, check);
    if r1.Success? {
      SortedDistinctDependsOnlyOnElements(r1.value, r2.value);
      assert r1.value == [] <==> r2.value == [] by {
        if r1.value != [] { assert r1.value[0] in r2.value; }
        if r2.value != [] { assert r2.value[0] in r1.value; }
      }
    }
  }
}
