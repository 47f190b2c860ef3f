# srv-request-control-service in Dafny

This project models the core of srv-request-control-service. The service receives one request
about a client's application (its flow, filial, message id, version, identifiers and XML body).
For each control type the request names, it decides whether the request may go on, and it
records what it accepts. There are four control types:
- REQUEST: the cache, restore and confirm operations on the whole request;
- CONTROL_IDENTIFIERS: the stored identifiers must match the request's;
- REQUEST_VERSION: the version must be newer than the stored one;
- CLIENT_ATTRIBUTES: the attributes that a template marks in the XML body must match the saved request.

The model is organised as follows.

- **Path algebra.** `PathNodes` models `XmlPathNode` and `XmlPaths` models `XmlPath`. Both are
  values with structural equality and Java hash codes. `XmlPath` is also a class whose element
  list is appended to in place, with the `containsPath` loop.
- **XML trees and the template compiler.** `XmlTree` models a DOM document as a tree datatype.
  A node is identified by its position, a sequence of child indices, so its parent is the
  position without its last index. Children are visited in a stable sort by name.
  `XmlMarks` models the attribute marks. `TemplatePaths` models `getTemplatePathsFromNode`, as
  a specification function and as methods that fill the map in loops. `DynamicPaths` and
  `DynamicErrors` model dynamic path segments and the error descriptions.
- **The differ.** `PathMatching` models `findNodesMatchingPathFromParent`,
  `updateDynamicPathNodeIfSingle`, `getChildNodesByPathsDiff` and
  `findParentNodeByBackwardPath`. `AttributeValues` models the value comparison, the file
  attribute and personal-data hashing. `AttributeMatching` models
  `matchClientAttributesByPaths`. `ClientAttributeErrors` models the mismatch and additional
  error lists and the check's verdict.
- **Caches.** `SimpleCaches` and `TempCaches` are classes holding a `map`. The clock is a
  parameter. So is the order in which a hash map's iterator visits keys, because the temp
  cache's lookup depends on it.
- **Identifier and version rules.** `IdLists` and `OperatorsModel` are the request's data.
  `ControlIdentifiersOperator` and `RequestVersionOperator` are the two operators.
  `ClientAttributesOperator` is the third operator, a class owning both caches. The
  database is the `Storage.Database` object, which holds four in-memory tables. Every SQL
  statement becomes a function on the rows: first match, update count, UPDATE ... WHERE,
  DELETE ... WHERE. Every method that writes the tables is proved equal to a specification
  function of the old tables. The methods that read the saved-request cache also state which
  units they stamp with the current time.
- **Pipeline.** `IdentifierQueries`, `RequestRows` and `RequestCaching` model the service's
  own queries, writes and REQUEST-level operations. `ResultJoining` models `joinResults`.
  `RequestControl` is the service class with `processServiceRequest`: validation, the
  request-level operation, the checks, then the updates.
- **Java library behaviour.** `JavaText` covers `isBlank`, `indexOf`, `substringAfter`,
  `compareTo`, `String.join`, decimal rendering and `int` wrap-around. `Wrappers` supplies
  `Option` and `Result`.

Exceptions are values. `Fault` is either `ServiceFault(message)` or `RuntimeFault(message)`:
- `ServiceFault(message)` is a `RequestControlServiceException` or one of its subclasses;
- `RuntimeFault(message)` is a NullPointerException, an IllegalArgumentException, an
  IndexOutOfBoundsException or an IllegalStateException.

Each operation returns a `Result`. Operations that write return an `Effect`: the new tables
together with the result, since a failing statement may follow a successful one. Where the
code and the design it documents disagree, the model follows the code: the pipeline runs the
REQUEST validation, the first-run cache, the cache read and the temp cache lookup as written.
Where the code is evidently wrong, the section "Findings" gives the input that shows it, and
defines and proves the corrected behaviour beside the as-written one.

## Model

| member | source | states |
|---|---|---|
| JavaText.EmptyIsBlank | src/main/java/org/myprojects/srvrequestcontrolservice/RequestControlService.java:903-924 | a null-or-empty value is also null-or-blank, so the isEmpty test is the weaker of the two |
| JavaText.IndexOf | src/main/java/org/myprojects/srvrequestcontrolservice/utils/XmlUtils.java:560 | indexOf gives -1 exactly when the text does not occur, and otherwise its first occurrence |
| JavaText.IndexFrom | src/main/java/org/myprojects/srvrequestcontrolservice/utils/XmlUtils.java:560 | searching on from a point before which the text does not occur finds its first occurrence, or -1 exactly when it does not occur |
| JavaText.SubstringAfter | src/main/java/org/myprojects/srvrequestcontrolservice/utils/XmlUtils.java:560 | substringAfter gives what follows the first occurrence of the separator, and the empty string when the separator does not occur or the text is empty |
| JavaText.IndexOfPrefix | src/main/java/org/myprojects/srvrequestcontrolservice/utils/XmlUtils.java:560 | a text that starts with the separator has its first occurrence at 0 |
| JavaText.ContainsPrefix | src/main/java/org/myprojects/srvrequestcontrolservice/utils/XmlUtils.java:560 | a text that starts with the separator contains it |
| JavaText.LessIrreflexive | src/main/java/org/myprojects/srvrequestcontrolservice/ClientAttributesServiceOperator.java:130 | no string sorts before itself under compareTo |
| JavaText.LessTransitive | src/main/java/org/myprojects/srvrequestcontrolservice/ClientAttributesServiceOperator.java:130 | the compareTo order is transitive |
| JavaText.LessTotal | src/main/java/org/myprojects/srvrequestcontrolservice/ClientAttributesServiceOperator.java:130 | any two distinct strings are ordered one way or the other |
| JavaText.LessAsymmetric | src/main/java/org/myprojects/srvrequestcontrolservice/ClientAttributesServiceOperator.java:130 | two strings are never each before the other |
| JavaText.IntToString | src/main/java/org/myprojects/srvrequestcontrolservice/RequestVersionServiceOperator.java:75 | the decimal rendering of a version is never empty |
| JavaText.NatToString | src/main/java/org/myprojects/srvrequestcontrolservice/RequestVersionServiceOperator.java:75 | a non-negative number renders as a non-empty string of digits |
| JavaText.NatToStringRoundTrip | src/main/java/org/myprojects/srvrequestcontrolservice/RequestVersionServiceOperator.java:75 | reading the digits back gives the number: the rendering loses nothing |
| JavaText.Wrap32 | src/main/java/org/myprojects/srvrequestcontrolservice/XmlPath.java:48-50 | int arithmetic keeps a value in the 32-bit two's-complement range and congruent to the exact value modulo 2^32 |
| JavaText.TrimStart | src/main/java/org/myprojects/srvrequestcontrolservice/utils/XmlUtils.java:578 | the leading part of the text made of characters up to U+0020 is dropped, and the rest is kept as a suffix starting with a character above U+0020 |
| JavaText.TrimEnd | src/main/java/org/myprojects/srvrequestcontrolservice/utils/XmlUtils.java:578 | the trailing part of the text made of characters up to U+0020 is dropped, and the rest is kept as a prefix ending with a character above U+0020 |
| JavaText.Trim | src/main/java/org/myprojects/srvrequestcontrolservice/utils/XmlUtils.java:578 | String.trim leaves a text that neither starts nor ends with a character up to U+0020, and nothing of a text made only of such characters |
| JavaText.TrimKeepsTrimmed | src/main/java/org/myprojects/srvrequestcontrolservice/utils/XmlUtils.java:578 | a text that neither starts nor ends with a character up to U+0020 is its own trim |
| JavaText.TrimSlice | src/main/java/org/myprojects/srvrequestcontrolservice/utils/XmlUtils.java:578 | the trim of a text is a contiguous slice of it |
| JavaText.ContainsInSlice | src/main/java/org/myprojects/srvrequestcontrolservice/utils/XmlUtils.java:572 | whatever a slice of a text contains, the text contains |
| JavaText.TrimIdempotent | src/main/java/org/myprojects/srvrequestcontrolservice/utils/XmlUtils.java:578 | trimming twice is trimming once |
| PathNodes.Named | src/main/java/org/myprojects/srvrequestcontrolservice/XmlPathNode.java:34-37 | the two-argument constructor sets type and name and leaves both the value and the child list null |
| PathNodes.WithValue | src/main/java/org/myprojects/srvrequestcontrolservice/XmlPathNode.java:39-42 | the value constructor sets type, name and value and leaves the child list null |
| PathNodes.WithChildren | src/main/java/org/myprojects/srvrequestcontrolservice/XmlPathNode.java:44-47 | the child-list constructor sets type, name and children and leaves the value null |
| PathNodes.GetChildNodes | src/main/java/org/myprojects/srvrequestcontrolservice/XmlPathNode.java:26-32 | a node built without a child list reports no children; otherwise its own children |
| PathNodes.EqualsIsValueEquality | src/main/java/org/myprojects/srvrequestcontrolservice/XmlPathNode.java:50-57 | equals holds exactly when type, name, value and child list all agree, so it is reflexive and symmetric |
| PathNodes.NoListDiffersFromEmptyList | src/main/java/org/myprojects/srvrequestcontrolservice/XmlPathNode.java:26-32 | a null child list and an empty one read the same through getChildNodes but the two nodes are not equal |
| PathNodes.ConcreteDynamicChildDiffers | src/main/java/org/myprojects/srvrequestcontrolservice/XmlPathNode.java:50-57 | a dynamic child carrying a concrete value never equals the value-less template child of the same name |
| PathNodes.HashConsistentWithEquals | src/main/java/org/myprojects/srvrequestcontrolservice/XmlPathNode.java:59-62 | equal nodes have equal hash codes |
| XmlPaths.LastCommonIndex | src/main/java/org/myprojects/srvrequestcontrolservice/XmlPath.java:64-80 | -1 when the start index is past this path or the paths differ there; otherwise the last index of the run of equal elements that starts at the index |
| XmlPaths.LastCommonIndexIsCommonPrefix | src/main/java/org/myprojects/srvrequestcontrolservice/XmlPath.java:64-80 | from index 0 a non-negative result ends the longest common prefix of the two paths; -1 means one is empty or they differ at once |
| XmlPaths.XmlPath.constructor | src/main/java/org/myprojects/srvrequestcontrolservice/XmlPath.java:9 | a new path is empty |
| XmlPaths.XmlPath.FromNodes | src/main/java/org/myprojects/srvrequestcontrolservice/XmlPath.java:11-17 | the path holds the given elements in order |
| XmlPaths.XmlPath.Copy | src/main/java/org/myprojects/srvrequestcontrolservice/XmlPath.java:19-21 | the copy holds the other path's elements |
| XmlPaths.XmlPath.AddPathElement | src/main/java/org/myprojects/srvrequestcontrolservice/XmlPath.java:23-25 | appends one element and keeps the earlier ones |
| XmlPaths.XmlPath.AddAllElements | src/main/java/org/myprojects/srvrequestcontrolservice/XmlPath.java:52-56 | appends the other path's elements in order |
| XmlPaths.XmlPath.AddAllNodes | src/main/java/org/myprojects/srvrequestcontrolservice/XmlPath.java:58-62 | appends the given elements in order |
| XmlPaths.XmlPath.GetPathElement | src/main/java/org/myprojects/srvrequestcontrolservice/XmlPath.java:82-88 | null exactly past the end, the element at the index otherwise |
| XmlPaths.XmlPath.GetPathElementsLength | src/main/java/org/myprojects/srvrequestcontrolservice/XmlPath.java:90-92 | the number of elements |
| XmlPaths.XmlPath.GetPathElementsSubList | src/main/java/org/myprojects/srvrequestcontrolservice/XmlPath.java:31-33 | the elements from one index up to another, exclusive, in order |
| XmlPaths.XmlPath.GetPathElementsSubListFrom | src/main/java/org/myprojects/srvrequestcontrolservice/XmlPath.java:35-37 | the elements before the index followed by the result are the whole path |
| XmlPaths.XmlPath.ContainsPath | src/main/java/org/myprojects/srvrequestcontrolservice/XmlPath.java:64-80 | the loop returns the last common index from the start index |
| XmlPaths.HashConsistentWithEquals | src/main/java/org/myprojects/srvrequestcontrolservice/XmlPath.java:39-50 | equal paths have equal hash codes |
| XmlTree.TextValueNodeHasValue | src/main/java/org/myprojects/srvrequestcontrolservice/utils/XmlUtils.java:282-286 | a text-value node's first child has a non-null value, so reading it never dereferences null |
| XmlTree.SetFirstChildText | src/main/java/org/myprojects/srvrequestcontrolservice/utils/XmlUtils.java:333-339 | after setNodeValue on the first child the node is still a text-value node with the same name and now carries exactly the new text |
| XmlTree.ReplaceAtSameShape | src/main/java/org/myprojects/srvrequestcontrolservice/utils/XmlUtils.java:333-339 | rewriting one node's text in place leaves the shape of the whole document (names, attributes, children) unchanged |
| XmlTree.SameShapeNodeAt | src/main/java/org/myprojects/srvrequestcontrolservice/utils/XmlUtils.java:333-339 | every position that reaches a node before an in-place text rewrite still reaches one after it |
| XmlTree.InsertByNameMembers | src/main/java/org/myprojects/srvrequestcontrolservice/utils/XmlUtils.java:159-165 | inserting an element index into the sorted list adds exactly that index |
| XmlTree.InsertByNameSorted | src/main/java/org/myprojects/srvrequestcontrolservice/utils/XmlUtils.java:159-165 | inserting a later element keeps the list sorted by name, ties kept in document order (the sort is stable) |
| XmlTree.SortedPrefixMembers | src/main/java/org/myprojects/srvrequestcontrolservice/utils/XmlUtils.java:152-166 | sorting the first n children keeps exactly the element children among them |
| XmlTree.SortedPrefixSorted | src/main/java/org/myprojects/srvrequestcontrolservice/utils/XmlUtils.java:152-166 | sorting the first n children yields a list ordered by name, ties in document order |
| XmlTree.SortedElementIndicesMembers | src/main/java/org/myprojects/srvrequestcontrolservice/utils/XmlUtils.java:152-166 | getElementNodesSorted keeps every element child and drops every text child |
| XmlTree.SortedElementIndicesSorted | src/main/java/org/myprojects/srvrequestcontrolservice/utils/XmlUtils.java:152-166 | getElementNodesSorted orders by node name, equal names in document order, and lists no child twice |
| XmlMarks.NodeHasClientAttributeMark | src/main/java/org/myprojects/srvrequestcontrolservice/utils/XmlUtils.java:288-301 | an element carries the clientAttribute attribute with the value "true"; a node without attributes never does |
| XmlMarks.NodeHasPathMark | src/main/java/org/myprojects/srvrequestcontrolservice/utils/XmlUtils.java:303-316 | an element carries the path attribute with the value "true"; a node without attributes never does |
| XmlMarks.NodeHasPersonalDataMark | src/main/java/org/myprojects/srvrequestcontrolservice/utils/XmlUtils.java:318-331 | an element carries the personalData attribute with the value "true"; a node without attributes never does |
| XmlMarks.GetErrorDescription | src/main/java/org/myprojects/srvrequestcontrolservice/utils/XmlUtils.java:341-350 | the errorDescription attribute's value when the element has one, null exactly when it has none |
| XmlMarks.GetPrefixDescription | src/main/java/org/myprojects/srvrequestcontrolservice/utils/XmlUtils.java:379-388 | the prefix description attribute's value when present, null exactly when absent |
| XmlMarks.GetPostfixDescription | src/main/java/org/myprojects/srvrequestcontrolservice/utils/XmlUtils.java:390-399 | the postfix description attribute's value when present, null exactly when absent |
| DynamicPaths.AnyDynamicChild | src/main/java/org/myprojects/srvrequestcontrolservice/utils/XmlUtils.java:243-247 | true exactly when some child of the list is a dynamic child |
| DynamicPaths.IsDynamicPath | src/main/java/org/myprojects/srvrequestcontrolservice/utils/XmlUtils.java:231-239 | true exactly when some element of the path has children and one of them is a dynamic child |
| DynamicPaths.TemplateChildren | src/main/java/org/myprojects/srvrequestcontrolservice/utils/XmlUtils.java:259-269 | the rewritten child list has the same length, each dynamic child replaced by its value-less form and every other child kept |
| DynamicPaths.CreateTemplateDynamicPath | src/main/java/org/myprojects/srvrequestcontrolservice/utils/XmlUtils.java:253-280 | same length, names and kinds; every non-dynamic element kept as it is; every dynamic element rebuilt with a child list in which dynamic children lose their values and other children are kept |
| DynamicPaths.TemplateNodeIdempotent | src/main/java/org/myprojects/srvrequestcontrolservice/utils/XmlUtils.java:253-280 | rewriting a rewritten element changes nothing |
| DynamicPaths.CreateTemplateDynamicPathIdempotent | src/main/java/org/myprojects/srvrequestcontrolservice/utils/XmlUtils.java:253-280 | rewriting a rewritten path changes nothing |
| DynamicPaths.CreateTemplateDynamicPathKeepsDynamic | src/main/java/org/myprojects/srvrequestcontrolservice/utils/XmlUtils.java:231-280 | the rewritten path is dynamic exactly when the original is |
| DynamicPaths.TemplateShapedIsFixpoint | src/main/java/org/myprojects/srvrequestcontrolservice/utils/XmlUtils.java:253-280 | a path already in template form (dynamic children without values) is returned unchanged |
| DynamicErrors.FirstDynamicChildName | src/main/java/org/myprojects/srvrequestcontrolservice/utils/XmlUtils.java:192-199 | none exactly when no child is dynamic; otherwise the name of a dynamic child with no dynamic child before it |
| DynamicErrors.FirstDynamicChildAt | src/main/java/org/myprojects/srvrequestcontrolservice/utils/XmlUtils.java:192-199 | a dynamic child with no dynamic child before it is the one found |
| DynamicErrors.NearestDynamicIndex | src/main/java/org/myprojects/srvrequestcontrolservice/utils/XmlUtils.java:189-205 | none exactly when no element below the bound is dynamic; otherwise a dynamic element with no dynamic element after it |
| DynamicErrors.NearestDynamicStep | src/main/java/org/myprojects/srvrequestcontrolservice/utils/XmlUtils.java:189-205 | the backward search takes the element just below the bound when it is dynamic and goes on below it otherwise |
| DynamicErrors.DynamicIffFirstChild | src/main/java/org/myprojects/srvrequestcontrolservice/utils/XmlUtils.java:191-200 | an element is dynamic exactly when it has children and a first dynamic child, which is what the search tests |
| DynamicErrors.DynamicElementHasDynamicChild | src/main/java/org/myprojects/srvrequestcontrolservice/utils/XmlUtils.java:191-200 | a dynamic element always yields a dynamic child name |
| DynamicErrors.FindDynamicChild | src/main/java/org/myprojects/srvrequestcontrolservice/utils/XmlUtils.java:192-199 | the inner loop returns the first dynamic child's name |
| DynamicErrors.FindNearestDynamicElement | src/main/java/org/myprojects/srvrequestcontrolservice/utils/XmlUtils.java:186-205 | the loop returns -1 exactly when no element is dynamic; otherwise the innermost dynamic element's index and its first dynamic child's name |
| DynamicErrors.NearestDynamicChildFound | src/main/java/org/myprojects/srvrequestcontrolservice/utils/XmlUtils.java:184-219 | a node found is the child, named like the first dynamic child, of the ancestor that many levels up which matches the dynamic element |
| DynamicErrors.GetNearestDynamicNodeChild | src/main/java/org/myprojects/srvrequestcontrolservice/utils/XmlUtils.java:184-219 | the method returns the nearest dynamic child as specified, null when the path has none, a null-dereference fault when the climb fails |
| DynamicErrors.ConcatFirstChildValue | src/main/java/org/myprojects/srvrequestcontrolservice/utils/XmlUtils.java:368 | a first child's value as string concatenation renders it: none exactly when there is no first child, the text itself when it has one |
| DynamicErrors.DynamicErrorDescriptionParts | src/main/java/org/myprojects/srvrequestcontrolservice/utils/XmlUtils.java:352-377 | a successful description is the prefix, the request's section value, ". " and the error text, or, without a prefix, the error text, ". ", the postfix and the section value |
| DynamicErrors.StaticPathHasNoDynamicDescription | src/main/java/org/myprojects/srvrequestcontrolservice/utils/XmlUtils.java:354-358 | a path without dynamic elements fails with the incorrect-structure error |
| DynamicErrors.GetDynamicErrorDescription | src/main/java/org/myprojects/srvrequestcontrolservice/utils/XmlUtils.java:352-377 | the method computes the dynamic description, including every error path (no dynamic node, no error text, no variable part) |
| PathMatching.FirstMatchIsFirst | src/main/java/org/myprojects/srvrequestcontrolservice/utils/XmlUtils.java:526-546 | the child found by name (and text) is the first accepted one in sorted order |
| PathMatching.NodeHasChildNodesByChildPaths | src/main/java/org/myprojects/srvrequestcontrolservice/utils/XmlUtils.java:632-647 | true exactly when every fingerprint child is present: by name for a child without a value, by name and text otherwise |
| PathMatching.ConcreteChild | src/main/java/org/myprojects/srvrequestcontrolservice/utils/XmlUtils.java:597-620 | a concrete child found has the template child's name and no child list; a dynamic one stays dynamic, any other carries the template's own value |
| PathMatching.ConcreteChildrenMembers | src/main/java/org/myprojects/srvrequestcontrolservice/utils/XmlUtils.java:597-627 | each built child is the concrete form of its template child, and the build fails exactly when some fingerprint child is missing |
| PathMatching.CreateParentDynamicNode | src/main/java/org/myprojects/srvrequestcontrolservice/utils/XmlUtils.java:591-630 | a step built from a request element is a NODE_WITH_CHILDREN step with the template step's name |
| PathMatching.CreateParentDynamicNodeByTemplatePathNode | src/main/java/org/myprojects/srvrequestcontrolservice/utils/XmlUtils.java:591-630 | the loop returns the concrete step, or null at the first missing fingerprint child |
| PathMatching.CreateParentDynamicNodeTemplate | src/main/java/org/myprojects/srvrequestcontrolservice/utils/XmlUtils.java:591-630 | the concrete step is still dynamic and turns back into the template step under createTemplateDynamicPath |
| PathMatching.ReplaceFirstInjective | src/main/java/org/myprojects/srvrequestcontrolservice/utils/XmlUtils.java:464-471 | replacing the shared first element of the keys cannot merge two entries |
| PathMatching.UpdateDynamicPathNodeIfSingleMembers | src/main/java/org/myprojects/srvrequestcontrolservice/utils/XmlUtils.java:447-478 | when every key starts with the same section instance, each key has that element replaced by the template step and keeps its node, and no other key appears |
| PathMatching.UpdateDynamicPathNodeIfSingleLoop | src/main/java/org/myprojects/srvrequestcontrolservice/utils/XmlUtils.java:447-478 | the loop over the entries decides "single" exactly when all keys share their first element, and the result is the rewritten map or the map unchanged |
| PathMatching.FirstPathNodeMatches | src/main/java/org/myprojects/srvrequestcontrolservice/utils/XmlUtils.java:411-423 | the step recorded for a request element stands for the template step |
| PathMatching.StepMatchesItself | src/main/java/org/myprojects/srvrequestcontrolservice/utils/XmlUtils.java:411-423 | a non-dynamic step stands for itself; a dynamic template step stands for itself |
| PathMatching.PrefixedMembers | src/main/java/org/myprojects/srvrequestcontrolservice/utils/XmlUtils.java:429-436 | every key of the merged map is the parent step followed by a key found below, with that key's node |
| PathMatching.ChildMatchesValid | src/main/java/org/myprojects/srvrequestcontrolservice/utils/XmlUtils.java:406-438 | every path found below one child follows the template path from that child |
| PathMatching.MatchEntriesValid | src/main/java/org/myprojects/srvrequestcontrolservice/utils/XmlUtils.java:406-439 | every path collected by the loop follows the template path |
| PathMatching.UpdateValid | src/main/java/org/myprojects/srvrequestcontrolservice/utils/XmlUtils.java:444-478 | rewriting a single dynamic section keeps every entry following the template path |
| PathMatching.FindNodesMatchingValid | src/main/java/org/myprojects/srvrequestcontrolservice/utils/XmlUtils.java:401-445 | every entry returned follows the template path below the start node: element children named after the steps, recorded by steps that stand for them |
| PathMatching.MatchEntrySteps | src/main/java/org/myprojects/srvrequestcontrolservice/utils/XmlUtils.java:401-445 | a following entry has one step per template step, each standing for its template step, and ends on an element named like the last step |
| PathMatching.FindNodesMatchingKeys | src/main/java/org/myprojects/srvrequestcontrolservice/utils/XmlUtils.java:401-445 | every key has one step per template step and each stands for its template step; its node lies below the start node and is named like the last step |
| PathMatching.NonDynamicPathMatchesItself | src/main/java/org/myprojects/srvrequestcontrolservice/utils/XmlUtils.java:401-445 | for a template path with no dynamic element every key is the template path itself, so at most one node is found |
| PathMatching.TemplatePathMatchesTemplate | src/main/java/org/myprojects/srvrequestcontrolservice/utils/XmlUtils.java:401-445 | for a template path every key found turns back into that template path under createTemplateDynamicPath |
| PathMatching.MatchChild | src/main/java/org/myprojects/srvrequestcontrolservice/utils/XmlUtils.java:406-438 | one iteration of the loop adds exactly the paths found below that child |
| PathMatching.FindNodesMatchingPathFromParent | src/main/java/org/myprojects/srvrequestcontrolservice/utils/XmlUtils.java:401-445 | the method returns the matches over the sorted element children, with a single dynamic section rewritten |
| PathMatching.BackwardMatchesFirst | src/main/java/org/myprojects/srvrequestcontrolservice/utils/XmlUtils.java:485-506 | the first backward step is checked against the starting node itself |
| PathMatching.BackwardMatchesStep | src/main/java/org/myprojects/srvrequestcontrolservice/utils/XmlUtils.java:485-510 | a matching walk is a matching first step followed by a matching walk from the parent |
| PathMatching.BackwardStops | src/main/java/org/myprojects/srvrequestcontrolservice/utils/XmlUtils.java:488-506 | a step that does not match ends the walk with null |
| PathMatching.BackwardLast | src/main/java/org/myprojects/srvrequestcontrolservice/utils/XmlUtils.java:507-512 | a matching last step ends the walk on the current node without climbing further |
| PathMatching.BackwardClimbs | src/main/java/org/myprojects/srvrequestcontrolservice/utils/XmlUtils.java:507-510 | after a matching step that is not the last the walk climbs to the parent, and the document node has none |
| PathMatching.BackwardCharacterized | src/main/java/org/myprojects/srvrequestcontrolservice/utils/XmlUtils.java:480-513 | the walk ends on the ancestor as many levels up as there are steps after the first exactly when every step matches the ancestor at its level, and is null otherwise |
| PathMatching.BackwardExists | src/main/java/org/myprojects/srvrequestcontrolservice/utils/XmlUtils.java:480-513 | a node the walk returns exists in the document |
| PathMatching.FindParentNodeByBackwardPath | src/main/java/org/myprojects/srvrequestcontrolservice/utils/XmlUtils.java:480-513 | the loop returns the node the backward walk specifies |
| PathMatching.Reverse | src/main/java/org/myprojects/srvrequestcontrolservice/utils/XmlUtils.java:211-212 | the reversed copy has the same length, its elements read from the end |
| PathMatching.BackParentExists | src/main/java/org/myprojects/srvrequestcontrolservice/utils/XmlUtils.java:665-672 | the node the diff search restarts from exists |
| PathMatching.SingleKey | src/main/java/org/myprojects/srvrequestcontrolservice/utils/XmlUtils.java:686-692 | a map with one entry has one key |
| PathMatching.RekeySingle | src/main/java/org/myprojects/srvrequestcontrolservice/utils/XmlUtils.java:686-692 | with one node found the result holds it under the new path |
| PathMatching.GetChildNodesByPathsDiff | src/main/java/org/myprojects/srvrequestcontrolservice/utils/XmlUtils.java:649-696 | the method returns the diff result: empty when the paths share no start, the recorded node when they are equal, the ancestor when the new path is a prefix, a duplicate-key fault when several nodes are found |
| PathMatching.PathsDiffKeys | src/main/java/org/myprojects/srvrequestcontrolservice/utils/XmlUtils.java:649-696 | every entry of the diff result is keyed by the new path, and paths with no common start give nothing |
| PathMatching.PathsDiffSamePath | src/main/java/org/myprojects/srvrequestcontrolservice/utils/XmlUtils.java:658-662 | the same path again gives the node recorded for it |
| PathMatching.FoundNodeBelow | src/main/java/org/myprojects/srvrequestcontrolservice/utils/XmlUtils.java:401-445 | a node found from a start node lies below it, as many levels down as the path has steps, and carries the last step's name |
| PathMatching.RekeyBelow | src/main/java/org/myprojects/srvrequestcontrolservice/utils/XmlUtils.java:682-692 | a node the diff search stores under the new path lies below the restart node and carries the new path's last name |
| PathMatching.PathsDiffExtends | src/main/java/org/myprojects/srvrequestcontrolservice/utils/XmlUtils.java:649-696 | when the new path extends the old one, a node found lies below the old node, as many levels down as the new steps, named like the new path's last step |
| TemplatePaths.FilterMembers | src/main/java/org/myprojects/srvrequestcontrolservice/utils/XmlUtils.java:102-106 | a stream filter keeps exactly the listed children that pass the test |
| TemplatePaths.FilterFilter | src/main/java/org/myprojects/srvrequestcontrolservice/utils/XmlUtils.java:102-106 | filtering twice, the second test stronger, is filtering once |
| TemplatePaths.WithoutIsFilter | src/main/java/org/myprojects/srvrequestcontrolservice/utils/XmlUtils.java:131 | removeAll of the children failing a test is the filter by that test |
| TemplatePaths.PathChildren | src/main/java/org/myprojects/srvrequestcontrolservice/utils/XmlUtils.java:178-182 | every child listed is path-marked |
| TemplatePaths.ClientAttrChildren | src/main/java/org/myprojects/srvrequestcontrolservice/utils/XmlUtils.java:104-106 | every child listed is clientAttribute-marked |
| TemplatePaths.ChildListsMembers | src/main/java/org/myprojects/srvrequestcontrolservice/utils/XmlUtils.java:100-106 | the path-marked, clientAttribute-marked and remaining lists hold exactly the element children of each kind |
| TemplatePaths.RemoveMarkedIsOther | src/main/java/org/myprojects/srvrequestcontrolservice/utils/XmlUtils.java:131-141 | the two removeAll calls leave exactly the unmarked element children (and path-marked ones never count as client attributes) |
| TemplatePaths.FingerprintChild | src/main/java/org/myprojects/srvrequestcontrolservice/utils/XmlUtils.java:112-121 | a fingerprint child carries the element's name; it is a CHILD_NODE with the element's text when the element holds only text, and a value-less dynamic child otherwise |
| TemplatePaths.Fingerprint | src/main/java/org/myprojects/srvrequestcontrolservice/utils/XmlUtils.java:110-123 | one fingerprint child per path-marked child, in order |
| TemplatePaths.ParentStepShape | src/main/java/org/myprojects/srvrequestcontrolservice/utils/XmlUtils.java:108-129 | the step added for an element carries its name; it is NODE_WITH_CHILDREN with the fingerprint exactly when some child is path-marked, and a plain NODE otherwise |
| TemplatePaths.TemplatePaths | src/main/java/org/myprojects/srvrequestcontrolservice/utils/XmlUtils.java:90-94 | a node that is not an element yields no paths |
| TemplatePaths.ClientAttrEntriesValid | src/main/java/org/myprojects/srvrequestcontrolservice/utils/XmlUtils.java:135-139 | each clientAttribute child is stored one level down under the current path plus a NODE step with its name |
| TemplatePaths.LiftEntry | src/main/java/org/myprojects/srvrequestcontrolservice/utils/XmlUtils.java:144-147 | a path found below an unmarked child is a path of its parent |
| TemplatePaths.LiftEntries | src/main/java/org/myprojects/srvrequestcontrolservice/utils/XmlUtils.java:144-147 | every path found below an unmarked child is a path of its parent |
| TemplatePaths.UnionValid | src/main/java/org/myprojects/srvrequestcontrolservice/utils/XmlUtils.java:144-147 | putAll of two maps of lifted paths is a map of lifted paths |
| TemplatePaths.ChildSubValid | src/main/java/org/myprojects/srvrequestcontrolservice/utils/XmlUtils.java:144-147 | the recursive call for an unmarked child yields paths of the parent, more than one level down |
| TemplatePaths.ChildEntriesValid | src/main/java/org/myprojects/srvrequestcontrolservice/utils/XmlUtils.java:143-147 | the loop over the unmarked children collects paths of the parent, more than one level down |
| TemplatePaths.UnionValidEntries | src/main/java/org/myprojects/srvrequestcontrolservice/utils/XmlUtils.java:135-147 | putAll of two maps of paths of an element is a map of paths of that element |
| TemplatePaths.TemplatePathsValid | src/main/java/org/myprojects/srvrequestcontrolservice/utils/XmlUtils.java:90-150 | every entry starts with the path to the parent, follows template-shaped steps one per element down to its node, and ends on a clientAttribute-marked element whose name is the last step |
| TemplatePaths.ParentStepIsTemplateStep | src/main/java/org/myprojects/srvrequestcontrolservice/utils/XmlUtils.java:108-129 | the step added for an element is template-shaped and carries its name |
| TemplatePaths.EntryShape | src/main/java/org/myprojects/srvrequestcontrolservice/utils/XmlUtils.java:90-150 | an entry's key holds one template-shaped step per element from the start down to the leaf |
| TemplatePaths.EntryLeaf | src/main/java/org/myprojects/srvrequestcontrolservice/utils/XmlUtils.java:135-139 | an entry leads to a clientAttribute-marked element whose NODE step ends the key |
| TemplatePaths.ValidEntryFacts | src/main/java/org/myprojects/srvrequestcontrolservice/utils/XmlUtils.java:90-150 | an entry's key extends the path to the parent, is left unchanged by createTemplateDynamicPath, and its node lies below the start and is clientAttribute-marked |
| TemplatePaths.ClientAttrKeysPresent | src/main/java/org/myprojects/srvrequestcontrolservice/utils/XmlUtils.java:135-139 | every clientAttribute child puts its key into the map |
| TemplatePaths.UnionKeepsShortKey | src/main/java/org/myprojects/srvrequestcontrolservice/utils/XmlUtils.java:144-147 | the deeper paths merged later never overwrite a one-level client-attribute key |
| TemplatePaths.ClientAttrLeaf | src/main/java/org/myprojects/srvrequestcontrolservice/utils/XmlUtils.java:135-139 | a one-level entry stores a clientAttribute-marked child whose name ends the key |
| TemplatePaths.ClientAttrChildMappedStep | src/main/java/org/myprojects/srvrequestcontrolservice/utils/XmlUtils.java:135-147 | each clientAttribute child's key is in the final map and stores a marked child of that name |
| TemplatePaths.ClientAttrChildMapped | src/main/java/org/myprojects/srvrequestcontrolservice/utils/XmlUtils.java:90-150 | every clientAttribute-marked child of an element is mapped under the current path plus its NODE step, to a marked child with its name |
| TemplatePaths.BuildFingerprint | src/main/java/org/myprojects/srvrequestcontrolservice/utils/XmlUtils.java:110-123 | the loop builds the fingerprint of the path-marked children |
| TemplatePaths.ClassifyChildren | src/main/java/org/myprojects/srvrequestcontrolservice/utils/XmlUtils.java:100-106 | the three lists are the path-marked, clientAttribute-marked and remaining element children in sorted order |
| TemplatePaths.ParentPath | src/main/java/org/myprojects/srvrequestcontrolservice/utils/XmlUtils.java:96-129 | the current path is the path to the parent plus the element's step |
| TemplatePaths.PutClientAttrPaths | src/main/java/org/myprojects/srvrequestcontrolservice/utils/XmlUtils.java:135-139 | the loop puts one entry per clientAttribute child |
| TemplatePaths.PutChildPaths | src/main/java/org/myprojects/srvrequestcontrolservice/utils/XmlUtils.java:143-147 | the loop merges in the paths of every remaining child, later entries winning |
| TemplatePaths.GetTemplatePathsFromNode | src/main/java/org/myprojects/srvrequestcontrolservice/utils/XmlUtils.java:90-150 | the method computes the template path map of the element |
| AttributeValues.CheckFileAttribute | src/main/java/org/myprojects/srvrequestcontrolservice/utils/XmlUtils.java:716-723 | a value naming a segment, a key and a hash is reduced to "hash" followed by what comes after the first "hash"; every other value is kept as it is |
| AttributeValues.CheckFileAttributeStartsWithHash | src/main/java/org/myprojects/srvrequestcontrolservice/utils/XmlUtils.java:716-723 | a reduced file reference always starts with "hash" |
| AttributeValues.ReducedIsHashAndSuffix | src/main/java/org/myprojects/srvrequestcontrolservice/utils/XmlUtils.java:716-723 | a file reference is reduced to "hash" followed by a suffix of the value that starts right after an occurrence of "hash" |
| AttributeValues.CheckFileAttributeIdempotent | src/main/java/org/myprojects/srvrequestcontrolservice/ClientAttributesServiceOperator.java:300-301 | reducing an already reduced value changes nothing, so the saved and the checked value can both be reduced before they are compared |
| AttributeValues.CompareClientAttrsValuesSymmetric | src/main/java/org/myprojects/srvrequestcontrolservice/utils/XmlUtils.java:698-714 | the comparison gives the same answer whichever value is the saved one |
| AttributeValues.CompareClientAttrsValuesReflexive | src/main/java/org/myprojects/srvrequestcontrolservice/utils/XmlUtils.java:698-714 | every value matches itself |
| AttributeValues.CompareClientAttrsValuesCases | src/main/java/org/myprojects/srvrequestcontrolservice/utils/XmlUtils.java:698-714 | when both values parse as numbers they match exactly when the numbers are equal; when either does not parse they match exactly when the texts are equal |
| AttributeValues.CompareClientAttrsValuesTransitive | src/main/java/org/myprojects/srvrequestcontrolservice/utils/XmlUtils.java:698-714 | matching is transitive, so matching values form classes |
| AttributeValues.CheckIsZeroNumberAttribute | src/main/java/org/myprojects/srvrequestcontrolservice/utils/XmlUtils.java:725-733 | fails (a null dereference) exactly when the node has no first-child text; otherwise true exactly when that text parses as the number zero |
| AttributeValues.CheckIsZeroOnTextValueNode | src/main/java/org/myprojects/srvrequestcontrolservice/ClientAttributesServiceOperator.java:342-348 | on a node that passed the text-value test the zero test never fails |
| AttributeValues.HashedAt | src/main/java/org/myprojects/srvrequestcontrolservice/utils/XmlUtils.java:333-339 | a text-value node keeps its name and its text becomes the MD5 of the old text; any other node leaves the document unchanged |
| AttributeValues.HashedAtSameShape | src/main/java/org/myprojects/srvrequestcontrolservice/utils/XmlUtils.java:333-339 | hashing rewrites one text and keeps the shape of the whole document |
| AttributeValues.RequestDocument.constructor | src/main/java/org/myprojects/srvrequestcontrolservice/ClientAttributesServiceOperator.java:503-509 | the mutable request document holds the parsed tree it is given |
| AttributeValues.RequestDocument.HashPersonalDataAttribute | src/main/java/org/myprojects/srvrequestcontrolservice/utils/XmlUtils.java:333-339 | hashing the node at a position changes the document in place to exactly the hashed tree |
| AttributeMatching.PathsDiffRecorded | src/main/java/org/myprojects/srvrequestcontrolservice/utils/XmlUtils.java:649-696 | every node the diff search records is a node of the document |
| AttributeMatching.FromDocumentRecorded | src/main/java/org/myprojects/srvrequestcontrolservice/utils/XmlUtils.java:401-445 | every node the search from the document root records is a node of the document, and every recorded path lies under the template path searched |
| AttributeMatching.SearchPath | src/main/java/org/myprojects/srvrequestcontrolservice/ClientAttributesServiceOperator.java:394-403 | the search for one template path, from the root or by the difference to the last found path, records only nodes of the document under paths below the template path |
| AttributeMatching.SameShapeRecorded | src/main/java/org/myprojects/srvrequestcontrolservice/ClientAttributesServiceOperator.java:408-411 | nodes recorded before a hash stay nodes of the hashed document |
| AttributeMatching.HashAll | src/main/java/org/myprojects/srvrequestcontrolservice/ClientAttributesServiceOperator.java:408-410 | hashing the nodes found for one template path keeps the document's shape, and fails exactly when one of them is null |
| AttributeMatching.ScanStep | src/main/java/org/myprojects/srvrequestcontrolservice/ClientAttributesServiceOperator.java:390-411 | one pass of the loop keeps every recorded node a node of the document, keeps the shape, changes no text without hashing, and adds only paths below the current template path |
| AttributeMatching.ScanFrom | src/main/java/org/myprojects/srvrequestcontrolservice/ClientAttributesServiceOperator.java:390-412 | the loop over the remaining template paths keeps the same three facts, and every recorded path stays below some template path |
| AttributeMatching.MatchByPaths | src/main/java/org/myprojects/srvrequestcontrolservice/ClientAttributesServiceOperator.java:384-415 | the client attributes found are nodes of the resulting document, each under a template path; the document keeps its shape and is untouched when hashing is off |
| AttributeMatching.MatchResolves | src/main/java/org/myprojects/srvrequestcontrolservice/ClientAttributesServiceOperator.java:384-415 | a successful match gives a parsed request in which every non-null node resolves in its document |
| AttributeMatching.HashFound | src/main/java/org/myprojects/srvrequestcontrolservice/ClientAttributesServiceOperator.java:409 | hashing the found nodes in place fails exactly as the specification does and otherwise leaves the document equal to the hashed tree |
| AttributeMatching.MatchPath | src/main/java/org/myprojects/srvrequestcontrolservice/ClientAttributesServiceOperator.java:390-411 | one pass of the loop on the document object gives the specified pass and leaves the document as that pass says |
| AttributeMatching.MatchClientAttributesByPaths | src/main/java/org/myprojects/srvrequestcontrolservice/ClientAttributesServiceOperator.java:384-415 | the method fails exactly when the specified match fails, with its fault, and otherwise returns the found map and leaves the document as specified |
| AttributeMatching.HashPersonalData | src/main/java/org/myprojects/srvrequestcontrolservice/ClientAttributesServiceOperator.java:417-447 | the same walk with hashing always on; the document ends as the hashing match says |
| ErrorLists.InsertSorted | src/main/java/org/myprojects/srvrequestcontrolservice/ClientAttributesServiceOperator.java:129-130 | inserting an error into an ascending list without repeats keeps it so and adds exactly that error |
| ErrorLists.SortedDistinctSpec | src/main/java/org/myprojects/srvrequestcontrolservice/ClientAttributesServiceOperator.java:129-130 | the reported error list is ascending, without repeats, and holds exactly the errors found |
| ErrorLists.StrictlySortedUnique | src/main/java/org/myprojects/srvrequestcontrolservice/ClientAttributesServiceOperator.java:129-130 | two ascending lists without repeats holding the same errors are the same list |
| ErrorLists.SortedDistinctDependsOnlyOnElements | src/main/java/org/myprojects/srvrequestcontrolservice/ClientAttributesServiceOperator.java:129-130 | the reported list depends only on which errors were found, not on their order or repetition |
| ClientAttributeErrors.ErrorDescription | src/main/java/org/myprojects/srvrequestcontrolservice/ClientAttributesServiceOperator.java:368-382 | a static path's description is the template node's error description, and its absence throws the "no description for attribute" exception naming the node; a dynamic path's description is the dynamic description |
| ClientAttributeErrors.MatchRules | src/main/java/org/myprojects/srvrequestcontrolservice/ClientAttributesServiceOperator.java:272-305 | a saved leaf without a value matches exactly an incoming leaf without one; a saved value is kept by an incoming leaf without one; two values must agree once file references are reduced to their hash and numbers compared by value |
| ClientAttributeErrors.UnchangedAttributeMatches | src/main/java/org/myprojects/srvrequestcontrolservice/ClientAttributesServiceOperator.java:286-304 | an attribute sent again unchanged always matches, and between two valued leaves the comparison does not depend on which was saved |
| ClientAttributeErrors.PersonalDataNotDisclosed | src/main/java/org/myprojects/srvrequestcontrolservice/ClientAttributesServiceOperator.java:316-327 | the error of a personal-data attribute or of a hashed saved value never contains the previous value |
| ClientAttributeErrors.PreviousValueReported | src/main/java/org/myprojects/srvrequestcontrolservice/ClientAttributesServiceOperator.java:316-327 | for any other changed attribute that had a child, the error ends with the previous value as the saved document holds it |
| ClientAttributeErrors.CompareSavedPath | src/main/java/org/myprojects/srvrequestcontrolservice/ClientAttributesServiceOperator.java:251-328 | one iteration over a saved path gives the specified outcome: nothing for a match, the error text for a change, the unknown-structure exception for a path the template lacks |
| ClientAttributeErrors.CollectElements | src/main/java/org/myprojects/srvrequestcontrolservice/ClientAttributesServiceOperator.java:245-332 | the loop completes exactly when no entry throws, and then lists exactly the errors the entries produced |
| ClientAttributeErrors.CollectFailureStays | src/main/java/org/myprojects/srvrequestcontrolservice/ClientAttributesServiceOperator.java:245-332 | once an entry has thrown, later entries change nothing |
| ClientAttributeErrors.CollectStep | src/main/java/org/myprojects/srvrequestcontrolservice/ClientAttributesServiceOperator.java:251-328 | one more entry either throws its exception or appends its error, if any |
| ClientAttributeErrors.NonMatchEntries | src/main/java/org/myprojects/srvrequestcontrolservice/ClientAttributesServiceOperator.java:251-329 | the outcomes of the saved paths, one per path in iteration order |
| ClientAttributeErrors.GetCheckRequestNonMatchErrors | src/main/java/org/myprojects/srvrequestcontrolservice/ClientAttributesServiceOperator.java:245-332 | the loop over the saved paths returns exactly the collected outcomes of all saved paths in iteration order |
| ClientAttributeErrors.AdditionalPaths | src/main/java/org/myprojects/srvrequestcontrolservice/ClientAttributesServiceOperator.java:233-235 | the paths only the incoming request has, each with its node; the collection throws exactly when one of those nodes is null |
| ClientAttributeErrors.AdditionalEntryRule | src/main/java/org/myprojects/srvrequestcontrolservice/ClientAttributesServiceOperator.java:339-363 | an additional attribute is passed over exactly when its node is not a single-text node or holds zero; otherwise its error ends with the note that it was not sent before |
| ClientAttributeErrors.AdditionalEntries | src/main/java/org/myprojects/srvrequestcontrolservice/ClientAttributesServiceOperator.java:339-363 | the outcomes of the additional paths, one per path in iteration order |
| ClientAttributeErrors.CheckAdditionalPath | src/main/java/org/myprojects/srvrequestcontrolservice/ClientAttributesServiceOperator.java:339-363 | one iteration over an additional path gives the specified outcome |
| ClientAttributeErrors.GetCheckRequestAdditionalErrors | src/main/java/org/myprojects/srvrequestcontrolservice/ClientAttributesServiceOperator.java:334-366 | the loop over the additional paths returns exactly the collected outcomes in iteration order |
| ClientAttributeErrors.CheckClientAttributesMatch | src/main/java/org/myprojects/srvrequestcontrolservice/ClientAttributesServiceOperator.java:223-243 | the method returns the errors of the saved paths followed by those of the additional paths, or the first exception |
| ClientAttributeErrors.NonMatchErrorsOfPaths | src/main/java/org/myprojects/srvrequestcontrolservice/ClientAttributesServiceOperator.java:245-332 | in any iteration order the saved-path loop throws exactly when some saved path throws, and otherwise reports exactly the errors of the changed attributes |
| ClientAttributeErrors.NonMatchThrows | src/main/java/org/myprojects/srvrequestcontrolservice/ClientAttributesServiceOperator.java:251-328 | some saved path of the iteration order throws exactly when some saved path throws |
| ClientAttributeErrors.NonMatchReports | src/main/java/org/myprojects/srvrequestcontrolservice/ClientAttributesServiceOperator.java:251-328 | an error text comes from some saved path of the iteration order exactly when it is the error of a changed saved attribute |
| ClientAttributeErrors.AdditionalErrorsOfPaths | src/main/java/org/myprojects/srvrequestcontrolservice/ClientAttributesServiceOperator.java:334-366 | in any iteration order the additional-path loop throws exactly when some additional path throws, and otherwise reports exactly the errors of the new attributes |
| ClientAttributeErrors.AdditionalPathsLocated | src/main/java/org/myprojects/srvrequestcontrolservice/ClientAttributesServiceOperator.java:233-235 | every additional node is a node of the incoming document |
| ClientAttributeErrors.ClientAttributesMatchElements | src/main/java/org/myprojects/srvrequestcontrolservice/ClientAttributesServiceOperator.java:223-243 | the comparison throws exactly when a saved path throws, an additional node is null or an additional path throws; otherwise its errors are exactly the changed and the new attributes' errors |
| ClientAttributeErrors.Verdict | src/main/java/org/myprojects/srvrequestcontrolservice/ClientAttributesServiceOperator.java:122-133 | the result is OK exactly when there are no errors; otherwise ERROR with the distinct errors in ascending order joined by the separator |
| ClientAttributeErrors.VerdictLists | src/main/java/org/myprojects/srvrequestcontrolservice/ClientAttributesServiceOperator.java:129-133 | the reported errors are distinct, ascending and exactly the errors found |
| ClientAttributeErrors.VerdictIndependentOfOrder | src/main/java/org/myprojects/srvrequestcontrolservice/ClientAttributesServiceOperator.java:122-133 | the verdict does not depend on the order in which the maps are iterated |
| ClientAttributesOperator.ValidateRequest | src/main/java/org/myprojects/srvrequestcontrolservice/ClientAttributesServiceOperator.java:73-82 | a request is valid exactly when it has a non-empty identifier list containing the master-system id with a non-blank value and a non-blank check body |
| ClientAttributesOperator.ValidatedRequestHasIdentifiers | src/main/java/org/myprojects/srvrequestcontrolservice/ClientAttributesServiceOperator.java:73-82 | a validated request has a first identifier and a master-system identifier with a value, so the later lookups of both cannot fail |
| ClientAttributesOperator.RequestIdentifierDistinguishes | src/main/java/org/myprojects/srvrequestcontrolservice/ClientAttributesServiceOperator.java:651-657 | for flows and filials without dots, two saved-request cache keys are equal exactly when flow, filial and message id agree |
| ClientAttributesOperator.NullMessageIdSharesKey | src/main/java/org/myprojects/srvrequestcontrolservice/ClientAttributesServiceOperator.java:651-657 | a null message id and the message id "null" share a cache key |
| ClientAttributesOperator.FirstIdValue | src/main/java/org/myprojects/srvrequestcontrolservice/ClientAttributesServiceOperator.java:101-103 | the first identifier's value; fails exactly when the identifier list is null or empty |
| ClientAttributesOperator.MasterId | src/main/java/org/myprojects/srvrequestcontrolservice/ClientAttributesServiceOperator.java:530 | the master-system identifier's value; fails exactly when the list is null or lacks that identifier |
| ClientAttributesOperator.GeneratedNameIsNoFlowName | src/main/java/org/myprojects/srvrequestcontrolservice/ClientAttributesServiceOperator.java:679-682 | a generated template name contains a hyphen, so it is never the name of a flow |
| ClientAttributesOperator.CompileTemplate | src/main/java/org/myprojects/srvrequestcontrolservice/ClientAttributesServiceOperator.java:627-648 | a null stored text fails with a NullPointerException; a text that does not parse fails with the ClientAttributesDataException "Ошибка обработки шаблона клиентских атрибутов." followed by the parser's message; a parsed document without a first child fails with a NullPointerException; otherwise the result is a well-formed template with that name over the parsed document |
| ClientAttributesOperator.CompiledTemplateWellFormed | src/main/java/org/myprojects/srvrequestcontrolservice/ClientAttributesServiceOperator.java:632-633 | the template paths collected from the root element form a well-formed template |
| ClientAttributesOperator.CurrentTemplate | src/main/java/org/myprojects/srvrequestcontrolservice/ClientAttributesServiceOperator.java:145-174 | keeps every cached template well-formed, returns only well-formed templates, and fails with the "no template for the flow" message exactly when no template of the flow was created before the timestamp |
| ClientAttributesOperator.LoadTemplate | src/main/java/org/myprojects/srvrequestcontrolservice/ClientAttributesServiceOperator.java:157-170 | on a miss, the cache keeps only well-formed templates and the result is the stored text compiled as CompileTemplate says |
| ClientAttributesOperator.CurrentTemplateSource | src/main/java/org/myprojects/srvrequestcontrolservice/ClientAttributesServiceOperator.java:150-171 | the template in effect is taken from the cache when its name is cached; otherwise its stored text is parsed and compiled, and a successful result is cached under its name |
| ClientAttributesOperator.CurrentTemplateStable | src/main/java/org/myprojects/srvrequestcontrolservice/ClientAttributesServiceOperator.java:156-171 | asking again with the updated cache gives the same template and leaves the cache as it is |
| ClientAttributesOperator.MissKeepsOnlyLoadedTemplate | src/main/java/org/myprojects/srvrequestcontrolservice/ClientAttributesServiceOperator.java:159-171 | because the names kept on a miss are flow names and cached names carry a hyphen, a miss empties the cache of every template but the one loaded |
| ClientAttributesOperator.CachedRequest | src/main/java/org/myprojects/srvrequestcontrolservice/ClientAttributesServiceOperator.java:180-181 | a request taken from a valid cache resolves in its document and carries an update time |
| ClientAttributesOperator.ParsedSaved | src/main/java/org/myprojects/srvrequestcontrolservice/ClientAttributesServiceOperator.java:205-214 | a parsed saved request resolves, holds the saved document and carries the row's update time |
| ClientAttributesOperator.ParseSavedRequest | src/main/java/org/myprojects/srvrequestcontrolservice/ClientAttributesServiceOperator.java:205-214 | parsing a saved row on a fresh document object gives exactly the specified parsed request |
| ClientAttributesOperator.HashedDocument | src/main/java/org/myprojects/srvrequestcontrolservice/ClientAttributesServiceOperator.java:417-447 | hashing the personal data along the template keeps the document's shape |
| ClientAttributesOperator.EffectiveRequest | src/main/java/org/myprojects/srvrequestcontrolservice/ClientAttributesServiceOperator.java:176-221 | a returned request resolves, and a request it caches is also the one returned and carries an update time |
| ClientAttributesOperator.EffectiveRequestIsCurrent | src/main/java/org/myprojects/srvrequestcontrolservice/ClientAttributesServiceOperator.java:176-221 | the lookup returns null exactly when nothing is saved under the key; otherwise its request carries the saved row's update time, and a freshly parsed one holds the saved document |
| ClientAttributesOperator.NullMessageIdNeverFound | src/main/java/org/myprojects/srvrequestcontrolservice/ClientAttributesServiceOperator.java:449-470 | a saved request is never found for a null message id, since SQL equality with NULL never holds |
| ClientAttributesOperator.CachedRequestCoherent | src/main/java/org/myprojects/srvrequestcontrolservice/ClientAttributesServiceOperator.java:187-195 | a cached request equal to what parsing the current row gives does not change the lookup's result: the cache only saves work |
| ClientAttributesOperator.VerdictFor | src/main/java/org/myprojects/srvrequestcontrolservice/ClientAttributesServiceOperator.java:122-133 | the verdict under the request's own control type, with the status and description of the error verdict |
| ClientAttributesOperator.CompareWithSaved | src/main/java/org/myprojects/srvrequestcontrolservice/ClientAttributesServiceOperator.java:114-133 | a completed comparison reports the request's control type with status OK or ERROR |
| ClientAttributesOperator.CompareWithSavedRequest | src/main/java/org/myprojects/srvrequestcontrolservice/ClientAttributesServiceOperator.java:114-133 | the comparison on a fresh document object gives exactly the specified result |
| ClientAttributesOperator.CheckSaved | src/main/java/org/myprojects/srvrequestcontrolservice/ClientAttributesServiceOperator.java:107-133 | the cache store is the lookup's, and a completed check never reports OK_WITH_WARNINGS |
| ClientAttributesOperator.CheckWithTemplate | src/main/java/org/myprojects/srvrequestcontrolservice/ClientAttributesServiceOperator.java:95-133 | what is cached resolves and carries an update time; a result has the request's control type and is never OK_WITH_WARNINGS |
| ClientAttributesOperator.CheckingOutcome | src/main/java/org/myprojects/srvrequestcontrolservice/ClientAttributesServiceOperator.java:84-143 | the template cache stays valid, and what is cached resolves and carries an update time |
| ClientAttributesOperator.CheckCatchesServiceFaults | src/main/java/org/myprojects/srvrequestcontrolservice/ClientAttributesServiceOperator.java:135-142 | every service exception is turned into a FAILED result; only runtime exceptions escape |
| ClientAttributesOperator.CheckWithMalformedTemplate | src/main/java/org/myprojects/srvrequestcontrolservice/ClientAttributesServiceOperator.java:631-647 | when the template in effect is not cached and its stored text does not parse, the check is FAILED with the template-processing message and the parser's message, nothing is saved, and the template cache is only pruned |
| ClientAttributesOperator.CheckWithoutTemplate | src/main/java/org/myprojects/srvrequestcontrolservice/ClientAttributesServiceOperator.java:145-151 | with no template in effect the check is FAILED with the "no template for the flow" message and changes no cache |
| ClientAttributesOperator.CheckWithoutSavedRequest | src/main/java/org/myprojects/srvrequestcontrolservice/ClientAttributesServiceOperator.java:107-112 | with nothing saved under the first identifier the check is FAILED with the message naming that identifier and caches nothing |
| ClientAttributesOperator.CheckPassesOnCurrentRequest | src/main/java/org/myprojects/srvrequestcontrolservice/ClientAttributesServiceOperator.java:84-143 | a check that passes compared against the saved request current in the database, as of its last update |
| ClientAttributesOperator.HashingFault | src/main/java/org/myprojects/srvrequestcontrolservice/ClientAttributesServiceOperator.java:512-518 | a service exception while hashing becomes one whose message starts with the hashing message; others pass through |
| ClientAttributesOperator.SaveOrUpdateFound | src/main/java/org/myprojects/srvrequestcontrolservice/ClientAttributesServiceOperator.java:524-575 | after saving, the first row under the key holds the document stamped now; the table only grows and rows under other keys are unchanged |
| ClientAttributesOperator.SaveWithoutMasterIdAppends | src/main/java/org/myprojects/srvrequestcontrolservice/ClientAttributesServiceOperator.java:544-556 | with a null master id every save inserts a new row, which no later lookup finds |
| ClientAttributesOperator.SaveParsed | src/main/java/org/myprojects/srvrequestcontrolservice/ClientAttributesServiceOperator.java:511-520 | the template cache stays valid, and a failed save leaves the saved requests unchanged |
| ClientAttributesOperator.SavingOutcome | src/main/java/org/myprojects/srvrequestcontrolservice/ClientAttributesServiceOperator.java:495-521 | the template cache stays valid, and a failed save leaves the saved requests unchanged |
| ClientAttributesOperator.SavedRequestIsHashedDocument | src/main/java/org/myprojects/srvrequestcontrolservice/ClientAttributesServiceOperator.java:495-521 | a successful save stores the incoming document with its personal data hashed along the template in effect, stamped now, under flow, filial and master id |
| ClientAttributesOperator.CheckAfterSaveFindsIt | src/main/java/org/myprojects/srvrequestcontrolservice/ClientAttributesServiceOperator.java:176-221 | a lookup right after a save finds the saved request as of the save, with its hashed document, whatever the cache held |
| ClientAttributesOperator.SaveTemplateRow | src/main/java/org/myprojects/srvrequestcontrolservice/ClientAttributesServiceOperator.java:660-677 | saving a template appends exactly one row with the flow, the timestamp, the generated name and the template text as given, null included; the text is not parsed when saved |
| ClientAttributesOperator.SavedTemplateTakesEffectLater | src/main/java/org/myprojects/srvrequestcontrolservice/ClientAttributesServiceOperator.java:577-597 | a template saved at a timestamp is not in effect at that timestamp, and any later lookup finds a template created no earlier |
| ClientAttributesOperator.ClientAttributesServiceOperator.constructor | src/main/java/org/myprojects/srvrequestcontrolservice/ClientAttributesServiceOperator.java:50-58 | the operator starts with the two given empty caches and its invariant |
| ClientAttributesOperator.ClientAttributesServiceOperator.GetCurrentTemplate | src/main/java/org/myprojects/srvrequestcontrolservice/ClientAttributesServiceOperator.java:145-174 | returns the template in effect and leaves the template cache as specified, keeping the invariant |
| ClientAttributesOperator.ClientAttributesServiceOperator.GetEffectiveRequest | src/main/java/org/myprojects/srvrequestcontrolservice/ClientAttributesServiceOperator.java:176-221 | returns the specified lookup, reading the saved-request cache in iteration order, stores only what the lookup caches, and stamps the unit under the message's key with the current time leaving every other unit's stamp |
| ClientAttributesOperator.ClientAttributesServiceOperator.LookupSavedRequest | src/main/java/org/myprojects/srvrequestcontrolservice/ClientAttributesServiceOperator.java:183-220 | given the cached request, returns the specified lookup and stores only what it caches |
| ClientAttributesOperator.ClientAttributesServiceOperator.CheckWithTemplateMethod | src/main/java/org/myprojects/srvrequestcontrolservice/ClientAttributesServiceOperator.java:95-133 | the try block once the template is known gives the specified result and cache store, stamping the saved-request unit at the request's key exactly when the request parses and has a first identifier |
| ClientAttributesOperator.ReportOnSaved | src/main/java/org/myprojects/srvrequestcontrolservice/ClientAttributesServiceOperator.java:107-133 | once the saved request is looked up, a missing one gives FAILED naming the identifier, a failed lookup passes its exception on, and a found one gives the comparison's verdict |
| ClientAttributesOperator.ClientAttributesServiceOperator.CheckAgainstSaved | src/main/java/org/myprojects/srvrequestcontrolservice/ClientAttributesServiceOperator.java:99-133 | the lookup of the saved request followed by the comparison gives the specified result and cache store, stamping the unit under the request's key and no other |
| ClientAttributesOperator.ClientAttributesServiceOperator.CheckClientAttributes | src/main/java/org/myprojects/srvrequestcontrolservice/ClientAttributesServiceOperator.java:84-143 | the check gives the specified result, template cache and saved-request store, keeping the invariant, and stamps the saved-request unit at the request's key exactly when it looks one up |
| ClientAttributesOperator.ClientAttributesServiceOperator.SaveRequest | src/main/java/org/myprojects/srvrequestcontrolservice/ClientAttributesServiceOperator.java:495-521 | the save gives the specified result, template cache and saved-request table, and changes no other table |
| ClientAttributesOperator.ClientAttributesServiceOperator.SaveOrUpdateRequest | src/main/java/org/myprojects/srvrequestcontrolservice/ClientAttributesServiceOperator.java:524-575 | fails without the master-system identifier and changes nothing; otherwise inserts or updates the row under the key |
| ClientAttributesOperator.ClientAttributesServiceOperator.SaveTemplate | src/main/java/org/myprojects/srvrequestcontrolservice/ClientAttributesServiceOperator.java:660-677 | appends the template row and changes no other table |
| ClientAttributesOperator.ClientAttributesServiceOperator.CleanSavedRequestsCache | src/main/java/org/myprojects/srvrequestcontrolservice/ClientAttributesServiceOperator.java:683-687 | the saved-request cache keeps exactly the entries used within its period |
| IdLists.EmptyIdList | src/main/java/org/myprojects/srvrequestcontrolservice/data/IdList.java:9-11 | an identifier list built without arguments holds no identifiers |
| IdLists.Contains | src/main/java/org/myprojects/srvrequestcontrolservice/data/IdList.java:21-29 | contains holds exactly when some identifier has the name |
| IdLists.Get | src/main/java/org/myprojects/srvrequestcontrolservice/data/IdList.java:41-49 | get returns null exactly when no identifier has the name, and otherwise the first one that has it |
| IdLists.GetValue | src/main/java/org/myprojects/srvrequestcontrolservice/data/IdList.java:31-39 | a non-null result of getValue is the value of the first identifier with the name |
| IdLists.FirstWithNameUnique | src/main/java/org/myprojects/srvrequestcontrolservice/data/IdList.java:41-49 | the first identifier with a name is unique |
| IdLists.LookupsAgree | src/main/java/org/myprojects/srvrequestcontrolservice/data/IdList.java:21-49 | contains holds exactly when get finds an identifier, and getValue is null when get is, otherwise the found identifier's value |
| IdLists.HasValueByGetValue | src/main/java/org/myprojects/srvrequestcontrolservice/ControlIdentifiersServiceOperator.java:43-49 | testing a value through get and through getValue is the same test |
| OperatorsModel.PrioritiesStrictlyIncrease | src/main/java/org/myprojects/srvrequestcontrolservice/data/Operators.java:31-46 | every control type is declared once and the priorities increase strictly in declaration order, so sorting by priority never ties |
| OperatorsModel.AllKeysByPriority | src/main/java/org/myprojects/srvrequestcontrolservice/RequestControlService.java:622-640 | sorting all the control types of the mapping by priority loses none, adds none, and orders them by strictly ascending priority |
| OperatorsModel.Filtered | src/main/java/org/myprojects/srvrequestcontrolservice/RequestControlService.java:625-627 | the kept control types are exactly those of the list mapped to a wanted operation |
| OperatorsModel.FilteredKeepsOrder | src/main/java/org/myprojects/srvrequestcontrolservice/RequestControlService.java:627-628 | filtering a list sorted by priority keeps it sorted |
| OperatorsModel.ByPrioritySortedAndExact | src/main/java/org/myprojects/srvrequestcontrolservice/RequestControlService.java:622-640 | the control types selected for checks or updates are exactly those mapped to a wanted operation, in strictly ascending priority |
| OperatorsModel.Operators.constructor | src/main/java/org/myprojects/srvrequestcontrolservice/data/Operators.java:9 | the operators object built without arguments maps nothing |
| OperatorsModel.Operators.FromMap | src/main/java/org/myprojects/srvrequestcontrolservice/data/Operators.java:11-13 | the operators object holds the given mapping |
| OperatorsModel.Operators.GetControlOperations | src/main/java/org/myprojects/srvrequestcontrolservice/data/Operators.java:15-17 | the view has exactly the mapped control types, each with its operation |
| OperatorsModel.Operators.GetCheckOperation | src/main/java/org/myprojects/srvrequestcontrolservice/data/Operators.java:19-21 | the operation of a mapped control type, and null for any other |
| OperatorsModel.Operators.SetCheckOperation | src/main/java/org/myprojects/srvrequestcontrolservice/data/Operators.java:23-25 | maps the control type to the operation and leaves every other mapping unchanged |
| ControlIdentifiersOperator.PresentAndNotBlank | src/main/java/org/myprojects/srvrequestcontrolservice/ControlIdentifiersServiceOperator.java:43-49 | an identifier is present with a non-blank value exactly when the list has a value for it |
| ControlIdentifiersOperator.ValidateRequest | src/main/java/org/myprojects/srvrequestcontrolservice/ControlIdentifiersServiceOperator.java:37-51 | a request is valid exactly when it has a version and a non-empty identifier list with a non-blank integration id and a non-blank master-system or filial id |
| ControlIdentifiersOperator.ValidatedRequestIsLookedUp | src/main/java/org/myprojects/srvrequestcontrolservice/RequestControlService.java:966-1029 | for a validated request nothing is stored exactly when neither the master-system lookup nor the filial lookup finds a row |
| ControlIdentifiersOperator.IdentifierErrors | src/main/java/org/myprojects/srvrequestcontrolservice/ControlIdentifiersServiceOperator.java:96-150 | there is at most one error per stored identifier |
| ControlIdentifiersOperator.NoErrorsIffAllMatched | src/main/java/org/myprojects/srvrequestcontrolservice/ControlIdentifiersServiceOperator.java:96-150 | there are no errors exactly when the request gives every stored identifier a non-blank, equal value |
| ControlIdentifiersOperator.BlankStoredIsReported | src/main/java/org/myprojects/srvrequestcontrolservice/ControlIdentifiersServiceOperator.java:97-149 | a stored identifier saved blank is reported as an incorrect value when the request has it, and as missing otherwise |
| ControlIdentifiersOperator.MissingValues | src/main/java/org/myprojects/srvrequestcontrolservice/ControlIdentifiersServiceOperator.java:214-233 | the values written are exactly those of the identifiers stored blank that the request names, each with the request's value |
| ControlIdentifiersOperator.KeptConds | src/main/java/org/myprojects/srvrequestcontrolservice/ControlIdentifiersServiceOperator.java:240-244 | the update's extra conditions are exactly the identifiers stored with a value, with that value |
| ControlIdentifiersOperator.UpdateMissingNoOp | src/main/java/org/myprojects/srvrequestcontrolservice/ControlIdentifiersServiceOperator.java:219-222 | nothing is written when no identifier stored blank is named in the request |
| ControlIdentifiersOperator.KeepsStoredIsClause | src/main/java/org/myprojects/srvrequestcontrolservice/ControlIdentifiersServiceOperator.java:236-244 | a row satisfies the update's WHERE clause exactly when it is of the flow and filial and keeps every non-blank stored value |
| ControlIdentifiersOperator.UpdateMissingEffect | src/main/java/org/myprojects/srvrequestcontrolservice/ControlIdentifiersServiceOperator.java:202-258 | the update keeps every row's flow, filial and version, changes only rows satisfying the clause, and in them sets exactly the blank stored identifiers the request names to the request's values |
| ControlIdentifiersOperator.UpdateMissingKeepsNonBlank | src/main/java/org/myprojects/srvrequestcontrolservice/ControlIdentifiersServiceOperator.java:202-258 | an identifier stored with a value is never overwritten |
| ControlIdentifiersOperator.UpdateMissingIdentifiers | src/main/java/org/myprojects/srvrequestcontrolservice/ControlIdentifiersServiceOperator.java:202-258 | the method changes exactly the identifier table, as the update specifies |
| ControlIdentifiersOperator.CheckIdentifiers | src/main/java/org/myprojects/srvrequestcontrolservice/ControlIdentifiersServiceOperator.java:85-153 | fills in the missing identifiers and returns the errors of the stored identifiers, as specified |
| ControlIdentifiersOperator.SaveIdentifiersToDB | src/main/java/org/myprojects/srvrequestcontrolservice/ControlIdentifiersServiceOperator.java:155-164 | inserts a row with the request's identifiers when nothing is stored, and otherwise fills in what is missing, as specified |
| ControlIdentifiersOperator.InsertedRowColumns | src/main/java/org/myprojects/srvrequestcontrolservice/ControlIdentifiersServiceOperator.java:167-199 | the inserted row holds each of the request's identifier values, null where the request lacks one |
| ControlIdentifiersOperator.InsertedRowFound | src/main/java/org/myprojects/srvrequestcontrolservice/ControlIdentifiersServiceOperator.java:155-199 | when nothing was stored, the inserted row is the one the lookup then finds |
| ControlIdentifiersOperator.SaveThenLookup | src/main/java/org/myprojects/srvrequestcontrolservice/ControlIdentifiersServiceOperator.java:155-199 | saving a request's identifiers when nothing is stored makes the lookup return the request's values |
| ControlIdentifiersOperator.Caught | src/main/java/org/myprojects/srvrequestcontrolservice/ControlIdentifiersServiceOperator.java:78-81 | a service exception becomes a FAILED result with its message, leaving the tables as they were after the failing step; anything else passes through |
| ControlIdentifiersOperator.CheckControlIdentifiers | src/main/java/org/myprojects/srvrequestcontrolservice/ControlIdentifiersServiceOperator.java:54-82 | the check gives exactly the specified result and table changes |
| ControlIdentifiersOperator.CheckWithoutStoredRow | src/main/java/org/myprojects/srvrequestcontrolservice/ControlIdentifiersServiceOperator.java:60-71 | with nothing stored the check changes nothing and passes for version 1 or a request with an integration id, fails on a null version, and otherwise reports "not found" |
| ControlIdentifiersOperator.CheckWithStoredRow | src/main/java/org/myprojects/srvrequestcontrolservice/ControlIdentifiersServiceOperator.java:73-77 | with stored identifiers the check passes exactly when every stored identifier is matched, otherwise reports ERROR, and fills in the missing identifiers |
| ResultJoining.Entry | src/main/java/org/myprojects/srvrequestcontrolservice/RequestControlService.java:746-748 | each appended description is non-empty, since it always ends with the separator |
| ResultJoining.JoinResults | src/main/java/org/myprojects/srvrequestcontrolservice/RequestControlService.java:740-778 | the method builds exactly the specified answer |
| ResultJoining.WithStatus | src/main/java/org/myprojects/srvrequestcontrolservice/RequestControlService.java:745-746 | selects exactly the results with the status |
| ResultJoining.NotOk | src/main/java/org/myprojects/srvrequestcontrolservice/RequestControlService.java:761-762 | selects exactly the results that are not OK |
| ResultJoining.EntriesAppend | src/main/java/org/myprojects/srvrequestcontrolservice/RequestControlService.java:744-768 | the text of two runs of results is the text of the first followed by that of the second |
| ResultJoining.TextsAreEntriesOfSelected | src/main/java/org/myprojects/srvrequestcontrolservice/RequestControlService.java:744-768 | the first loop's text is the entries of the FAILED results, the second's those of the results that are not OK, in order |
| ResultJoining.FailedTextEmptyIff | src/main/java/org/myprojects/srvrequestcontrolservice/RequestControlService.java:744-751 | the FAILED text is empty exactly when no result is FAILED |
| ResultJoining.NonOkTextEmptyIff | src/main/java/org/myprojects/srvrequestcontrolservice/RequestControlService.java:761-768 | the second loop's text is empty exactly when every result is OK |
| ResultJoining.FoldedStatusIsWorst | src/main/java/org/myprojects/srvrequestcontrolservice/RequestControlService.java:761-770 | without FAILED results the status is ERROR if any result is ERROR, else OK with warnings if any is, else OK |
| ResultJoining.JoinedFailed | src/main/java/org/myprojects/srvrequestcontrolservice/RequestControlService.java:744-757 | the answer is FAILED exactly when some result is, and then describes exactly the FAILED results |
| ResultJoining.JoinedWithoutFailure | src/main/java/org/myprojects/srvrequestcontrolservice/RequestControlService.java:759-777 | without FAILED results the answer has the worst status, a description exactly when some result is not OK, and that description lists the results that are not OK |
| ResultJoining.JoinedOk | src/main/java/org/myprojects/srvrequestcontrolservice/RequestControlService.java:740-778 | the answer is OK exactly when every result is, and then it carries no description |
| ResultJoining.NotOkKeepsAll | src/main/java/org/myprojects/srvrequestcontrolservice/RequestControlService.java:761-762 | when no result is OK, every result is described |
| ServiceData.FlowNameHasNoHyphen | src/main/java/org/myprojects/srvrequestcontrolservice/data/ServiceRequest.java:49-52 | the flow name stored in the tables (the enum constant's name) never contains a hyphen |
| ServiceData.Passed | src/main/java/org/myprojects/srvrequestcontrolservice/data/ControlTypeResult.java:18-20 | the one-argument result constructor gives the control type with status OK and no description |
| ServiceData.VersionIsOne | src/main/java/org/myprojects/srvrequestcontrolservice/RequestVersionServiceOperator.java:59 | comparing a boxed version with 1 throws exactly when the version is null, and otherwise holds exactly when it is 1 |
| ServiceData.CaughtResult | src/main/java/org/myprojects/srvrequestcontrolservice/RequestVersionServiceOperator.java:78-81 | a service exception becomes a FAILED result for the control type carrying the exception's message; any other outcome, success or runtime failure, passes through unchanged |
| IdentifierQueries.RowIdentifiers | src/main/java/org/myprojects/srvrequestcontrolservice/RequestControlService.java:1031-1044 | a stored row yields exactly six identifiers, one per column |
| IdentifierQueries.LookupAt | src/main/java/org/myprojects/srvrequestcontrolservice/data/IdList.java:21-49 | when the identifier at a position is the first with its name, contains, get and getValue all find it there |
| IdentifierQueries.RowIndex | src/main/java/org/myprojects/srvrequestcontrolservice/RequestControlService.java:1031-1044 | each identifier kind has its own slot among the six read from a row |
| IdentifierQueries.RowIdentifiersRoundTrip | src/main/java/org/myprojects/srvrequestcontrolservice/RequestControlService.java:1031-1044 | reading a row back as identifiers loses nothing: every kind is present, get and getValue return that column's value, and no name occurs twice |
| IdentifierQueries.AppendedRowFound | src/main/java/org/myprojects/srvrequestcontrolservice/RequestControlService.java:966-1029 | when no stored row matched, a row appended with the request's flow, filial, integration, master-system and filial identifiers is the one the lookup finds |
| IdentifierQueries.StoredRowFound | src/main/java/org/myprojects/srvrequestcontrolservice/RequestControlService.java:966-1029 | the row found has the request's flow and filial, its id_integration and its master-system or filial identifier equal the request's non-blank ones; a master-system match wins over a filial one; nothing is found exactly when neither query matches a row |
| IdentifierQueries.GetIdentifiersFromDB | src/main/java/org/myprojects/srvrequestcontrolservice/RequestControlService.java:966-1029 | the method returns what the lookup specification gives on the current identifier table, failing when the request carries no identifier list |
| RequestRows.GenerateControlTypeRequest | src/main/java/org/myprojects/srvrequestcontrolservice/RequestControlService.java:696-738 | the per-control request keeps the flow and filial; it fails exactly for CLIENT_ATTRIBUTES without a master-system identifier; CLIENT_ATTRIBUTES carries only the master-system identifier and other controls the whole list; the version goes only to REQUEST and REQUEST_VERSION and the request body only to REQUEST and CLIENT_ATTRIBUTES |
| RequestRows.RequestCtr | src/main/java/org/myprojects/srvrequestcontrolservice/RequestControlService.java:700-708 | the REQUEST control's request never fails and carries the service request's version and identifier list |
| RequestRows.InsertIdentifiersAndRequestVersionToDB | src/main/java/org/myprojects/srvrequestcontrolservice/RequestControlService.java:854-887 | the database after the insert is the insert specification applied to the old tables |
| RequestRows.InsertedRequestRowColumns | src/main/java/org/myprojects/srvrequestcontrolservice/RequestControlService.java:854-887 | the inserted row holds the request's version and, in every identifier column, the request's value of that identifier |
| RequestRows.EmptyValues | src/main/java/org/myprojects/srvrequestcontrolservice/RequestControlService.java:903-924 | the SET list names exactly the identifiers stored empty that the request carries, each with the request's value |
| RequestRows.StoredConds | src/main/java/org/myprojects/srvrequestcontrolservice/RequestControlService.java:903-924 | the WHERE list holds exactly the stored identifiers that are not empty, each with its stored value |
| RequestRows.UpdateVersionAndMissingIdentifiers | src/main/java/org/myprojects/srvrequestcontrolservice/RequestControlService.java:889-938 | the database after the update and the result are the update specification applied to the old tables |
| RequestRows.KeepsNonEmptyIsClause | src/main/java/org/myprojects/srvrequestcontrolservice/RequestControlService.java:903-924 | a row satisfies the built WHERE clause exactly when it has the flow and filial and holds every non-empty stored value |
| RequestRows.UpdateVersionAndMissingRow | src/main/java/org/myprojects/srvrequestcontrolservice/RequestControlService.java:889-938 | after a successful update every row that holds the non-empty stored values has the request's version and the request's values for the identifiers stored empty, other columns unchanged; every other row is untouched |
| RequestRows.ReadRowKeepsNonEmpty | src/main/java/org/myprojects/srvrequestcontrolservice/RequestControlService.java:903-924 | the row the stored identifiers were read from always satisfies the update's WHERE clause |
| RequestRows.WhitespaceStoredIsKept | src/main/java/org/myprojects/srvrequestcontrolservice/RequestControlService.java:903-924 | a stored value of a single space is blank but not empty: it is not overwritten and stays a WHERE condition, unlike the isBlank test of the identifiers control |
| RequestRows.SaveIdentifiersAndRequestVersionToDB | src/main/java/org/myprojects/srvrequestcontrolservice/RequestControlService.java:835-852 | the database after the save and the result are the save specification applied to the old tables |
| RequestRows.FirstVersionAlwaysInserts | src/main/java/org/myprojects/srvrequestcontrolservice/RequestControlService.java:837-839 | version 1 always succeeds by appending one new row with the request's identifiers, whatever is already stored, and changes nothing else |
| RequestRows.SaveThenLookupFindsVersion | src/main/java/org/myprojects/srvrequestcontrolservice/RequestControlService.java:835-852 | when nothing was stored, after the save the lookup finds the new row, which holds the request's version and every identifier value |
| RequestRows.SaveUpdatesFoundRow | src/main/java/org/myprojects/srvrequestcontrolservice/RequestControlService.java:835-852 | when a row is stored and the version is not 1, the save succeeds, keeps the number of rows, and the found row now carries the request's version |
| RequestRows.DeleteFromRequestIdentifiers | src/main/java/org/myprojects/srvrequestcontrolservice/RequestControlService.java:780-833 | the database after the delete and the result are the delete specification applied to the old tables |
| RequestRows.DeleteRemovesTuple | src/main/java/org/myprojects/srvrequestcontrolservice/RequestControlService.java:780-833 | a failed delete removes nothing; a successful one removes at least one row and leaves no row matching the tuple it used (master-system first, filial otherwise) |
| RequestVersionOperator.ValidateRequest | src/main/java/org/myprojects/srvrequestcontrolservice/RequestVersionServiceOperator.java:36-49 | validation throws exactly when a version and a non-empty list come without an id_integration; otherwise the control applies exactly when there is a version, a non-blank id_integration and a non-blank master-system or filial identifier |
| RequestVersionOperator.VersionAt | src/main/java/org/myprojects/srvrequestcontrolservice/RequestVersionServiceOperator.java:105-155 | a found row's version is read with a NULL as 0; no row gives no version |
| RequestVersionOperator.GetRequestVersionFromDB | src/main/java/org/myprojects/srvrequestcontrolservice/RequestVersionServiceOperator.java:84-103 | the method returns what the version lookup specification gives on the current identifier table |
| RequestVersionOperator.StoredVersionThrows | src/main/java/org/myprojects/srvrequestcontrolservice/RequestVersionServiceOperator.java:84-103 | the lookup throws a null-pointer failure exactly when there is no identifier list, or when a master-system or filial identifier comes without an id_integration |
| RequestVersionOperator.StoredRowHasVersion | src/main/java/org/myprojects/srvrequestcontrolservice/RequestVersionServiceOperator.java:84-103 | wherever the identifier lookup finds a stored row the version lookup finds a version, since it runs the same queries in the same order and reads a NULL version as 0 |
| RequestVersionOperator.StoredVersionFromStoredRow | src/main/java/org/myprojects/srvrequestcontrolservice/RequestVersionServiceOperator.java:84-155 | with an id_integration present, the stored version is the version of the row the identifier lookup finds, or none when no row matches |
| RequestVersionOperator.CheckAgainstStoredVersion | src/main/java/org/myprojects/srvrequestcontrolservice/RequestVersionServiceOperator.java:69-77 | with a stored version the check is OK exactly when the request's version is greater; otherwise an error quoting the stored version, so a repeated version is rejected |
| RequestVersionOperator.CheckWithoutStoredVersion | src/main/java/org/myprojects/srvrequestcontrolservice/RequestVersionServiceOperator.java:58-68 | with no stored version a missing version throws, version 1 or a present id_integration passes, and anything else is the must-be-one error |
| RequestVersionOperator.UpdateVersionInDb | src/main/java/org/myprojects/srvrequestcontrolservice/RequestVersionServiceOperator.java:201-250 | the database after the update and the result are the version-update specification applied to the old tables |
| RequestVersionOperator.UpdateVersionFailsIffNothingMatches | src/main/java/org/myprojects/srvrequestcontrolservice/RequestVersionServiceOperator.java:201-250 | the update fails with the not-updated error exactly when neither the master-system nor the filial statement matches a row, and then changes nothing |
| RequestVersionOperator.SetVersionOnRow | src/main/java/org/myprojects/srvrequestcontrolservice/RequestVersionServiceOperator.java:201-250 | under either WHERE clause a row either gets the request's version or stays as it was, and nothing but its version changes |
| RequestVersionOperator.UpdateVersionRows | src/main/java/org/myprojects/srvrequestcontrolservice/RequestVersionServiceOperator.java:201-250 | a successful update touches only the identifier table, keeps its length, changes only versions, and gives at least one row of the request's filial_id the request's version |
| RequestVersionOperator.IntegrationIsNotConsulted | src/main/java/org/myprojects/srvrequestcontrolservice/RequestVersionServiceOperator.java:213 | as written, a row with the request's flow, filial, master-system identifier and filial_id gets the new version even when its id_integration differs |
| RequestVersionOperator.InsertedVersionRowColumns | src/main/java/org/myprojects/srvrequestcontrolservice/RequestVersionServiceOperator.java:168-199 | the inserted row holds the request's value of every identifier except request_type_id |
| RequestVersionOperator.InsertVersionToDb | src/main/java/org/myprojects/srvrequestcontrolservice/RequestVersionServiceOperator.java:168-199 | the database after the insert is the insert specification applied to the old tables |
| RequestVersionOperator.UpdateRequestVersionInDB | src/main/java/org/myprojects/srvrequestcontrolservice/RequestVersionServiceOperator.java:157-166 | the database after the save and the result are the specification (insert when nothing is stored, update otherwise) applied to the old tables |
| RequestVersionOperator.FirstVersionIsFoundAgain | src/main/java/org/myprojects/srvrequestcontrolservice/RequestVersionServiceOperator.java:51-199 | when nothing was stored, saving a version succeeds, the lookup then reads that version back, and the same request is then rejected as outdated |
| Storage.ColumnsOf | src/main/java/org/myprojects/srvrequestcontrolservice/RequestControlService.java:854-887 | binding a possibly-null value to each column leaves exactly the null ones NULL and stores the others |
| Storage.FirstMatch | src/main/java/org/myprojects/srvrequestcontrolservice/RequestControlService.java:966-1029 | a SELECT read with one next() gives the first row satisfying the WHERE clause, and nothing exactly when no row does |
| Storage.FirstMatchAppend | src/main/java/org/myprojects/srvrequestcontrolservice/RequestControlService.java:966-1029 | after an insert into a table where nothing matched, a SELECT finds the new row exactly when it satisfies the clause |
| Storage.MatchCount | src/main/java/org/myprojects/srvrequestcontrolservice/RequestControlService.java:780-833 | an update count is at most the number of rows, and zero exactly when no row satisfies the clause |
| Storage.Assign | src/main/java/org/myprojects/srvrequestcontrolservice/RequestControlService.java:903-924 | an UPDATE's SET list changes only the version and the named columns, keeping flow and filial |
| Storage.UpdateWhere | src/main/java/org/myprojects/srvrequestcontrolservice/RequestVersionServiceOperator.java:201-250 | an UPDATE keeps the table's length and applies the SET list to exactly the rows satisfying the clause |
| Storage.UpdateWhereNoMatch | src/main/java/org/myprojects/srvrequestcontrolservice/RequestVersionServiceOperator.java:246-248 | an UPDATE whose count is zero leaves the table as it was |
| Storage.DeleteWhere | src/main/java/org/myprojects/srvrequestcontrolservice/RequestControlService.java:780-833 | a DELETE removes as many rows as its count and keeps exactly the rows not satisfying the clause |
| Storage.DeleteWhereNoMatch | src/main/java/org/myprojects/srvrequestcontrolservice/RequestControlService.java:780-833 | a DELETE whose count is zero leaves the table as it was |
| Storage.FirstCached | src/main/java/org/myprojects/srvrequestcontrolservice/RequestControlService.java:319-352 | the cached-row lookup gives the first row of the message, and nothing exactly when the message has none |
| Storage.DeleteCached | src/main/java/org/myprojects/srvrequestcontrolservice/RequestControlService.java:357-371 | deleting a message's cached rows keeps exactly the other messages' rows, and shortens the table exactly when the message had one |
| Storage.FirstSaved | src/main/java/org/myprojects/srvrequestcontrolservice/ClientAttributesServiceOperator.java:449-470 | the saved-request lookup by flow, filial and message id gives the first row under that key, and nothing exactly when there is none |
| Storage.EffectiveTemplate | src/main/java/org/myprojects/srvrequestcontrolservice/ClientAttributesServiceOperator.java:579-590 | the template query gives a template of the flow created strictly before the time, with the latest such creation time, and nothing exactly when there is none |
| Storage.EffectiveTemplateIgnoresAppended | src/main/java/org/myprojects/srvrequestcontrolservice/ClientAttributesServiceOperator.java:662-670 | a template saved for another flow or not before the time does not change which template is effective |
| Storage.TemplateFlows | src/main/java/org/myprojects/srvrequestcontrolservice/ClientAttributesServiceOperator.java:600-615 | the distinct-flow query lists each flow that has a template, and each once |
| Storage.Database.constructor | src/main/java/org/myprojects/srvrequestcontrolservice/RequestControlService.java:966-1029 | the database starts with the given tables |
| SimpleCaches.Lookup | src/main/java/org/myprojects/srvrequestcontrolservice/utils/SimpleCache.java:24-37 | Map lookup gives the unit stored under the key, and null exactly when the key is absent |
| SimpleCaches.Retain | src/main/java/org/myprojects/srvrequestcontrolservice/utils/SimpleCache.java:51-61 | pruning keeps exactly the entries whose keys are listed, with their units |
| SimpleCaches.LookupAfterStore | src/main/java/org/myprojects/srvrequestcontrolservice/utils/SimpleCache.java:19-22 | after storing a unit its key finds it and every other key finds what it found before |
| SimpleCaches.LookupAfterRemove | src/main/java/org/myprojects/srvrequestcontrolservice/utils/SimpleCache.java:39-49 | after removing a key it finds nothing and every other key finds what it found before |
| SimpleCaches.RetainIdempotent | src/main/java/org/myprojects/srvrequestcontrolservice/utils/SimpleCache.java:51-61 | pruning twice against the same list is the same as pruning once |
| SimpleCaches.RetainLookup | src/main/java/org/myprojects/srvrequestcontrolservice/utils/SimpleCache.java:51-61 | after pruning, a key finds its unit exactly when it is listed |
| SimpleCaches.SimpleCache.constructor | src/main/java/org/myprojects/srvrequestcontrolservice/utils/SimpleCache.java:10-16 | a new cache has its name and no units |
| SimpleCaches.SimpleCache.CacheUnit | src/main/java/org/myprojects/srvrequestcontrolservice/utils/SimpleCache.java:19-22 | the unit is stored under its key, replacing any earlier one, and nothing else changes |
| SimpleCaches.SimpleCache.GetCachedUnit | src/main/java/org/myprojects/srvrequestcontrolservice/utils/SimpleCache.java:24-37 | the scan returns the unit under the key, or null when the key is absent |
| SimpleCaches.SimpleCache.ClearCachedUnit | src/main/java/org/myprojects/srvrequestcontrolservice/utils/SimpleCache.java:39-49 | the key is removed and every other entry kept |
| SimpleCaches.SimpleCache.ClearCachedUnitExcept | src/main/java/org/myprojects/srvrequestcontrolservice/utils/SimpleCache.java:51-61 | exactly the entries whose keys are not in the list are removed |
| SimpleCaches.SimpleCache.GetSize | src/main/java/org/myprojects/srvrequestcontrolservice/utils/SimpleCache.java:71-73 | the size is the number of keys stored |
| TempCaches.Unit.constructor | src/main/java/org/myprojects/srvrequestcontrolservice/utils/TempCache.java:76-79 | a new unit holds its value and was last read at creation |
| TempCaches.Unit.SetAccessTimestamp | src/main/java/org/myprojects/srvrequestcontrolservice/utils/TempCache.java:85-87 | the last-read time becomes the given time |
| TempCaches.LastVisitedIsPresent | src/main/java/org/myprojects/srvrequestcontrolservice/utils/TempCache.java:39-53 | a unit the as-written scan returns is always one in the cache |
| TempCaches.Enumerate | src/main/java/org/myprojects/srvrequestcontrolservice/utils/TempCache.java:40 | every set of keys has an iteration order visiting each key once |
| TempCaches.PresentKeyCanBeMissed | src/main/java/org/myprojects/srvrequestcontrolservice/utils/TempCache.java:39-53 | with a second key in the cache there is an iteration order in which the as-written scan misses a present key |
| TempCaches.Live | src/main/java/org/myprojects/srvrequestcontrolservice/utils/TempCache.java:55-69 | the units kept are exactly those whose period has not ended strictly before now |
| TempCaches.TempCache.constructor | src/main/java/org/myprojects/srvrequestcontrolservice/utils/TempCache.java:18-21 | a new cache has its name, no units and the default period of fifteen minutes |
| TempCaches.TempCache.WithPeriod | src/main/java/org/myprojects/srvrequestcontrolservice/utils/TempCache.java:23-26 | a new cache has its name, no units and the given period |
| TempCaches.TempCache.CacheUnit | src/main/java/org/myprojects/srvrequestcontrolservice/utils/TempCache.java:32-36 | the unit is stored under its key, replacing any earlier one |
| TempCaches.TempCache.GetCachedUnit | src/main/java/org/myprojects/srvrequestcontrolservice/utils/TempCache.java:38-53 | as written, the unit under the key is stamped with the time whenever present, but returned only when its key is the last one the iterator visits |
| TempCaches.TempCache.GetCachedUnitStopping | src/main/java/org/myprojects/srvrequestcontrolservice/utils/TempCache.java:38-53 | as intended, the unit under the key is stamped and returned whenever present, whatever the iteration order |
| TempCaches.TempCache.CleanExpiredCache | src/main/java/org/myprojects/srvrequestcontrolservice/utils/TempCache.java:55-69 | exactly the units whose period ended strictly before now are removed |
| RequestCaching.CacheCurrentValues | src/main/java/org/myprojects/srvrequestcontrolservice/RequestControlService.java:281-317 | the cache insert appends one row with the values' message id, flow, filial, version and six identifier values; values without a version (unboxed by the integer bind) or without an identifier list throw a null-pointer failure and leave the table as it was |
| RequestCaching.CacheCurrentValuesAgree | src/main/java/org/myprojects/srvrequestcontrolservice/RequestControlService.java:281-317 | whenever the values carry a version, an insert that binds a missing version as NULL does exactly what the written one does; without a version the written one throws and changes nothing |
| RequestCaching.NextRowIdentifiers | src/main/java/org/myprojects/srvrequestcontrolservice/RequestControlService.java:1031-1043 | the identifiers read after the first cached row are empty exactly when the message has no later cached row |
| RequestCaching.CachedData | src/main/java/org/myprojects/srvrequestcontrolservice/RequestControlService.java:319-355 | the cache lookup finds nothing exactly when no row has the message id; otherwise it rebuilds the message's flow, filial and id with a version and an identifier list (the version of the first cached row, the identifiers read after a second advance of the cursor) |
| RequestCaching.GetCachedData | src/main/java/org/myprojects/srvrequestcontrolservice/RequestControlService.java:319-355 | the method returns what the cache lookup specification gives on the current cache table |
| RequestCaching.CachedDataIntended | src/main/java/org/myprojects/srvrequestcontrolservice/RequestControlService.java:319-355 | the lookup that reads version and identifiers from the same row finds a row exactly when the written one does and differs from it only in the identifier list |
| RequestCaching.CachedRowColumns | src/main/java/org/myprojects/srvrequestcontrolservice/RequestControlService.java:281-311 | the cached row holds the values' message id and version and, in every identifier column, the values' identifier |
| RequestCaching.CachedValuesReadBack | src/main/java/org/myprojects/srvrequestcontrolservice/RequestControlService.java:281-355 | caching values for a message with nothing cached succeeds exactly when they carry a version; as written, reading the message back then gives that version and an empty identifier list; read as intended, it gives every identifier value as well |
| RequestCaching.ClearCachedData | src/main/java/org/myprojects/srvrequestcontrolservice/RequestControlService.java:357-371 | the database after clearing and the result are the clear specification applied to the old tables |
| RequestCaching.DeleteCachedNoMatch | src/main/java/org/myprojects/srvrequestcontrolservice/RequestControlService.java:357-371 | deleting a message with no cached row leaves the cache table as it was |
| RequestCaching.ClearCachedOutcome | src/main/java/org/myprojects/srvrequestcontrolservice/RequestControlService.java:357-371 | clearing fails exactly when the message has no cached row, and then changes nothing; it never touches the identifier table and leaves exactly the other messages' rows |
| RequestCaching.IdentifiersCtr | src/main/java/org/myprojects/srvrequestcontrolservice/RequestControlService.java:253-256 | the CONTROL_IDENTIFIERS request of a message always builds |
| RequestCaching.VersionCtr | src/main/java/org/myprojects/srvrequestcontrolservice/RequestControlService.java:253-256 | the REQUEST_VERSION request of a message always builds |
| RequestCaching.GetCurrentValuesForCache | src/main/java/org/myprojects/srvrequestcontrolservice/RequestControlService.java:243-279 | the loop over the control types by priority returns what the current-values specification gives on the current tables |
| RequestCaching.CurrentValuesFromCollects | src/main/java/org/myprojects/srvrequestcontrolservice/RequestControlService.java:243-279 | a successful pass over a list of control types holds the stored identifiers (non-empty) exactly when CONTROL_IDENTIFIERS is listed and the stored version exactly when REQUEST_VERSION is listed, every listed request having built |
| RequestCaching.CurrentValuesCollected | src/main/java/org/myprojects/srvrequestcontrolservice/RequestControlService.java:243-279 | the collected values carry the message's flow, filial and id, the stored identifiers exactly when the identifiers control is asked for and the stored version exactly when the version control is; nothing is collected only when one of those is missing from the database |
| RequestCaching.FirstRunAsWrittenNeverCaches | src/main/java/org/myprojects/srvrequestcontrolservice/RequestControlService.java:206-231 | as written, the first-run path never writes: a request that passed integration throws a null-pointer failure when its missing version is bound, any other one throws not-found |
| RequestCaching.ProcessServiceFirstRunForCache | src/main/java/org/myprojects/srvrequestcontrolservice/RequestControlService.java:206-231 | the database after the first-run path and the result are the as-written first-run specification applied to the old tables |
| RequestCaching.FirstRunCachesNullRow | src/main/java/org/myprojects/srvrequestcontrolservice/RequestControlService.java:206-231 | with the NULL-binding insert, a request with a non-blank id_integration caches one row of nulls for the message, which reads back as version 0 with no identifiers; any other request fails as not found and changes nothing |
| RequestCaching.WrapAny | src/main/java/org/myprojects/srvrequestcontrolservice/RequestControlService.java:160-164 | any exception is turned into a service exception whose message is the prefix, a line break and the original message; success passes |
| RequestCaching.WrapService | src/main/java/org/myprojects/srvrequestcontrolservice/RequestControlService.java:179-183 | only a service exception is rewrapped with the prefix; success and runtime failures pass unchanged |
| RequestCaching.ProcessCacheRequest | src/main/java/org/myprojects/srvrequestcontrolservice/RequestControlService.java:148-166 | the database after the cache request and the result are the cache-request specification applied to the old tables |
| RequestCaching.CacheRequestOutcome | src/main/java/org/myprojects/srvrequestcontrolservice/RequestControlService.java:148-166 | a first version or a failure writes nothing; a missing version throws unwrapped; a success appends exactly one cache row and touches no other table; any other failure reports that it could not cache |
| RequestCaching.CachingNeedsVersionAndIdentifiers | src/main/java/org/myprojects/srvrequestcontrolservice/RequestControlService.java:148-317 | as written, caching a version other than the first succeeds only when the request asks for both the version and the identifiers operators |
| RequestCaching.CachedStoredValuesReadBack | src/main/java/org/myprojects/srvrequestcontrolservice/RequestControlService.java:148-355 | when identifiers and version are both stored and both asked for, a successful cache request reads back as the stored version; as written with no identifiers, read as intended with the stored value of every identifier |
| RequestCaching.RestoreRequest | src/main/java/org/myprojects/srvrequestcontrolservice/RequestControlService.java:233-241 | the database after restoring and the result are the restore specification applied to the old tables |
| RequestCaching.ProcessRestoreRequest | src/main/java/org/myprojects/srvrequestcontrolservice/RequestControlService.java:170-184 | the database after the restore request and the result are the restore-request specification, over the as-written cache lookup, applied to the old tables |
| RequestCaching.SingleCachedRowCannotBeRestored | src/main/java/org/myprojects/srvrequestcontrolservice/RequestControlService.java:170-241 | as written, a message with a single cached row is never restored: the read gives no identifiers, the delete has nothing to delete by, nothing changes and the failure says there is nothing to delete |
| RequestCaching.RestoreReinstatesCachedRow | src/main/java/org/myprojects/srvrequestcontrolservice/RequestControlService.java:170-241 | with the cache read as intended, restoring a message whose stored rows can be deleted succeeds, appends one row with the cached version (NULL read as 0) and every cached identifier, and clears exactly the message's cache |
| RequestCaching.RestoreWithoutCache | src/main/java/org/myprojects/srvrequestcontrolservice/RequestControlService.java:172-183 | restoring a message with no cached row changes nothing and reports that the cache was not found |
| RequestCaching.NullRowCannotBeRestored | src/main/java/org/myprojects/srvrequestcontrolservice/RequestControlService.java:233-241 | even with the cache read as intended, a cached row of nulls cannot be restored: the delete finds nothing to delete by, nothing changes, and the failure reports that there is nothing to delete |
| RequestCaching.ProcessConfirmRequest | src/main/java/org/myprojects/srvrequestcontrolservice/RequestControlService.java:187-204 | the database after the confirm request and the result are the confirm specification applied to the old tables |
| RequestCaching.ConfirmOutcome | src/main/java/org/myprojects/srvrequestcontrolservice/RequestControlService.java:187-204 | confirming a cached message clears exactly its cache rows and saves its identifiers as the identifiers control does, rewrapping a service failure; an uncached message changes nothing and reports not found |
| RequestCaching.ProcessRequestLevelOperations | src/main/java/org/myprojects/srvrequestcontrolservice/RequestControlService.java:123-146 | the database after the request-level operation and the result are its specification applied to the old tables |
| RequestCaching.RequestLevelOutcome | src/main/java/org/myprojects/srvrequestcontrolservice/RequestControlService.java:123-146 | every failure of a request-level operation is a service exception, and a request that asks for none of cache, restore and confirm changes nothing |
| RequestControl.Prepended | src/main/java/org/myprojects/srvrequestcontrolservice/RequestControlService.java:547-620 | results put in front of a loop's outcome keep it failing exactly when it failed |
| RequestControl.RequestDataErrorIsDropped | src/main/java/org/myprojects/srvrequestcontrolservice/RequestControlService.java:386-392 | as written, a cache request with no identifiers has its data check report them missing, yet its REQUEST validation is OK |
| RequestControl.NoIdentifiersErrorIsNotBlank | src/main/java/org/myprojects/srvrequestcontrolservice/RequestControlService.java:441-458 | the data check's description is never blank, so the isBlank test sees it |
| RequestControl.RequestValidation | src/main/java/org/myprojects/srvrequestcontrolservice/RequestControlService.java:386-392 | corrected, the REQUEST validation is OK exactly when the data check finds nothing, and otherwise FAILED with the not-enough-data prefix and the missing-identifiers text |
| RequestControl.ValidationResult | src/main/java/org/myprojects/srvrequestcontrolservice/RequestControlService.java:384-428 | one validation answers under its own control type, only OK or FAILED; as written the REQUEST validation always answers OK |
| RequestControl.RejectsWhen | src/main/java/org/myprojects/srvrequestcontrolservice/RequestControlService.java:384-428 | a validation fails exactly for an enabled identifiers, client-attributes or version check whose operator refuses the request; as written REQUEST never fails, whatever its data check found |
| RequestControl.ValidationFromReports | src/main/java/org/myprojects/srvrequestcontrolservice/RequestControlService.java:383-437 | the validation loop answers at most once per control type, each with that type's own validation, and some answer fails exactly when some listed type is refused |
| RequestControl.ValidationFromThrows | src/main/java/org/myprojects/srvrequestcontrolservice/RequestControlService.java:383-437 | the loop throws only when some listed validation throws, and does throw then unless a failing REQUEST stopped it first |
| RequestControl.PriorityEnds | src/main/java/org/myprojects/srvrequestcontrolservice/data/Operators.java:31-46 | in priority order REQUEST can only come first and CLIENT_ATTRIBUTES only last |
| RequestControl.ValidationThrows | src/main/java/org/myprojects/srvrequestcontrolservice/RequestControlService.java:374-439 | validation throws exactly when the version check is enabled and asked for and its validation throws; the REQUEST result, always OK as written, never stops the loop first |
| RequestControl.ValidationReports | src/main/java/org/myprojects/srvrequestcontrolservice/RequestControlService.java:374-439 | validation answers are OK or FAILED, and some is not OK exactly when an asked-for identifiers, client-attributes or version validation refuses the request (never for REQUEST, as written) |
| RequestControl.IdentifiersAndVersionWithoutStoredRow | src/main/java/org/myprojects/srvrequestcontrolservice/RequestControlService.java:642-665 | with no stored row the joint check writes nothing: a missing version throws, version 1 or a non-blank id_integration passes, anything else is the must-be-one error |
| RequestControl.VersionNotFoundIsUnreachable | src/main/java/org/myprojects/srvrequestcontrolservice/RequestControlService.java:652-671 | the "version not found" answer is dead code: wherever the identifier lookup finds a stored row, the version lookup finds a version, so the joint check never answers FAILED with that message |
| RequestControl.IdentifiersAndVersionWithStoredRow | src/main/java/org/myprojects/srvrequestcontrolservice/RequestControlService.java:673-694 | with a stored version the joint check is OK exactly when the version is newer and every stored identifier is matched; an outdated version's error comes first, followed by the identifier errors unless abortOnCheckError; the missing identifiers are filled in unless the check aborted |
| RequestControl.CheckStep | src/main/java/org/myprojects/srvrequestcontrolservice/RequestControlService.java:576-610 | one check keeps the cached templates well-formed; no check but CLIENT_ATTRIBUTES touches the template cache or stores a saved request |
| RequestControl.CheckStepLooksUpOnlyForClientAttributes | src/main/java/org/myprojects/srvrequestcontrolservice/RequestControlService.java:576-610 | a check looks up a saved request only for CLIENT_ATTRIBUTES, with that check enabled, its request built, the request text parsed and the first identifier value present |
| RequestControl.CheckLoop | src/main/java/org/myprojects/srvrequestcontrolservice/RequestControlService.java:576-616 | the check loop keeps the cached templates well-formed |
| RequestControl.CheckLoopLooksUpOnlyForClientAttributes | src/main/java/org/myprojects/srvrequestcontrolservice/RequestControlService.java:576-616 | the check loop looks up a saved request only when CLIENT_ATTRIBUTES is among its control types and that check would look one up |
| RequestControl.Removed | src/main/java/org/myprojects/srvrequestcontrolservice/RequestControlService.java:566-567 | removing a control type from a priority-ordered list keeps the order and removes exactly that type |
| RequestControl.StrictTail | src/main/java/org/myprojects/srvrequestcontrolservice/data/Operators.java:31-46 | the rest of a priority-ordered list is priority-ordered |
| RequestControl.CheckResults | src/main/java/org/myprojects/srvrequestcontrolservice/RequestControlService.java:547-620 | the checks keep the cached templates well-formed |
| RequestControl.CheckResultsLookUpOnlyForClientAttributes | src/main/java/org/myprojects/srvrequestcontrolservice/RequestControlService.java:547-620 | the checks look up a saved request only when CLIENT_ATTRIBUTES is asked to be checked, its check is enabled and would look one up |
| RequestControl.CheckStepReports | src/main/java/org/myprojects/srvrequestcontrolservice/RequestControlService.java:576-610 | a check answers under its own control type; only a REQUEST check throws a service exception, always the unknown-operator one; a disabled check answers OK with its warning and touches nothing |
| RequestControl.CheckStepAnswersForItsType | src/main/java/org/myprojects/srvrequestcontrolservice/RequestControlService.java:576-605 | one check answers under its own control type, and only the REQUEST case throws a service exception |
| RequestControl.CheckLoopReports | src/main/java/org/myprojects/srvrequestcontrolservice/RequestControlService.java:576-616 | the loop answers for the control types in order, and stops early only under abortOnCheckError at an ERROR, which is then its last answer |
| RequestControl.CheckLoopServiceFaultNeedsRequest | src/main/java/org/myprojects/srvrequestcontrolservice/RequestControlService.java:576-616 | a service exception out of the loop means REQUEST was among the control types checked |
| RequestControl.RequestCheckFails | src/main/java/org/myprojects/srvrequestcontrolservice/RequestControlService.java:610-619 | when REQUEST is to be checked and the joint check does not run, the checks answer with the single FAILED result of the unknown operator and change nothing |
| RequestControl.UpdateStep | src/main/java/org/myprojects/srvrequestcontrolservice/RequestControlService.java:502-516 | one update keeps the cached templates well-formed and stores no saved request |
| RequestControl.UpdateLoop | src/main/java/org/myprojects/srvrequestcontrolservice/RequestControlService.java:497-520 | the update loop keeps the cached templates well-formed and stores no saved request |
| RequestControl.UpdateResults | src/main/java/org/myprojects/srvrequestcontrolservice/RequestControlService.java:475-529 | the updates keep the cached templates well-formed and store no saved request |
| RequestControl.UpdateLoopReports | src/main/java/org/myprojects/srvrequestcontrolservice/RequestControlService.java:497-527 | each update that ran answers OK under its own control type; only a last REQUEST answer may be FAILED; when all are OK every listed type answered; other exceptions escape as runtime failures |
| RequestControl.UpdateLoopPassed | src/main/java/org/myprojects/srvrequestcontrolservice/RequestControlService.java:497-527 | update answers are OK except a final REQUEST FAILED, and when all are OK each listed type answered OK exactly once |
| RequestControl.JointResultsReport | src/main/java/org/myprojects/srvrequestcontrolservice/RequestControlService.java:483-492 | the two OK results of the joint save in front of the loop's results keep the loop's guarantees, now over every control type to update |
| RequestControl.UpdateResultsReports | src/main/java/org/myprojects/srvrequestcontrolservice/RequestControlService.java:475-529 | all update answers are OK except a final REQUEST FAILED; when all are OK, exactly the types asked to update answered OK; other exceptions escape as runtime failures |
| RequestControl.ProcessOutcome | src/main/java/org/myprojects/srvrequestcontrolservice/RequestControlService.java:56-121 | processing keeps the cached templates well-formed |
| RequestControl.CheckedOutcome | src/main/java/org/myprojects/srvrequestcontrolservice/RequestControlService.java:84-120 | the checks and updates that follow validation keep the cached templates well-formed |
| RequestControl.ProcessLooksUpOnlyToCheckClientAttributes | src/main/java/org/myprojects/srvrequestcontrolservice/RequestControlService.java:56-121 | processing looks up a saved request only after the request validated without error and its request-level operation succeeded, and only through the CLIENT_ATTRIBUTES check |
| RequestControl.UpdateAnswerReports | src/main/java/org/myprojects/srvrequestcontrolservice/RequestControlService.java:104-120 | after error-free checks the answer is plain OK exactly when every check and update was OK; when only checks warned, the answer is OK with warnings listing them |
| RequestControl.ProcessRejectsInvalid | src/main/java/org/myprojects/srvrequestcontrolservice/RequestControlService.java:60-69 | when some validation refuses the request, the answer joins the validation results, FAILED, and nothing else runs or changes |
| RequestControl.ProcessSkipsUpdatesAfterCheckError | src/main/java/org/myprojects/srvrequestcontrolservice/RequestControlService.java:85-91 | when a check finds an error, no update runs: the answer joins the check results, is ERROR or FAILED, and the state is what the checks left |
| RequestControl.ProcessAnswersOk | src/main/java/org/myprojects/srvrequestcontrolservice/RequestControlService.java:56-121 | the answer is plain OK exactly when validation, the request-level operations, the checks and the updates all ran and every result was OK |
| RequestControl.PrependedTwice | src/main/java/org/myprojects/srvrequestcontrolservice/RequestControlService.java:547-620 | results a before results b before an outcome are a then b before it |
| RequestControl.MergedNothing | src/main/java/org/myprojects/srvrequestcontrolservice/RequestControlService.java:547-620 | no results before an outcome leave it as it is |
| RequestControl.MergedTwice | src/main/java/org/myprojects/srvrequestcontrolservice/RequestControlService.java:547-620 | merging two phases' results and stored requests in turn is merging their concatenation, the later store winning |
| RequestControl.RequestControlService.constructor | src/main/java/org/myprojects/srvrequestcontrolservice/RequestControlService.java:25-54 | the service starts with the given switches, database and client-attributes operator, in a consistent state |
| RequestControl.RequestControlService.ValidateServiceRequest | src/main/java/org/myprojects/srvrequestcontrolservice/RequestControlService.java:374-439 | the validation loop returns what the validation specification gives |
| RequestControl.RequestControlService.CheckIdentifiersAndVersion | src/main/java/org/myprojects/srvrequestcontrolservice/RequestControlService.java:642-694 | the joint check's result and the new tables are its specification applied to the old tables |
| RequestControl.RequestControlService.CheckOne | src/main/java/org/myprojects/srvrequestcontrolservice/RequestControlService.java:576-610 | one check's result, tables, template cache and saved-request cache are the one-check specification applied to the old state; the saved-request units are stamped at the request's key when the check looked one up and otherwise keep their stamps |
| RequestControl.RequestControlService.CheckEach | src/main/java/org/myprojects/srvrequestcontrolservice/RequestControlService.java:576-616 | the check loop's results and new state are the loop specification applied to the old state, and the saved-request units are stamped at the request's key exactly when some step looked one up |
| RequestControl.RequestControlService.GetCheckResults | src/main/java/org/myprojects/srvrequestcontrolservice/RequestControlService.java:547-620 | the checks' results and new state are the checks specification applied to the old state, with the saved-request units stamped only when the client-attributes check looked one up |
| RequestControl.RequestControlService.UpdateOne | src/main/java/org/myprojects/srvrequestcontrolservice/RequestControlService.java:502-516 | one update's result, tables and template cache are the one-update specification applied to the old state |
| RequestControl.RequestControlService.UpdateEach | src/main/java/org/myprojects/srvrequestcontrolservice/RequestControlService.java:497-520 | the update loop's results and new state are the loop specification applied to the old state |
| RequestControl.RequestControlService.GetUpdateResults | src/main/java/org/myprojects/srvrequestcontrolservice/RequestControlService.java:475-529 | the updates' results and new state are the updates specification applied to the old state |
| RequestControl.RequestControlService.ProcessServiceRequest | src/main/java/org/myprojects/srvrequestcontrolservice/RequestControlService.java:56-121 | the answer and the new tables and caches are the processing specification applied to the old state, with the saved-request units stamped only when the client-attributes check looked one up |
| RequestControl.RequestControlService.CheckThenUpdate | src/main/java/org/myprojects/srvrequestcontrolservice/RequestControlService.java:84-120 | the checks and updates after validation give the specified answer, tables and caches, with the saved-request units stamped only when the client-attributes check looked one up |
| IrrelevantSymbols.StripIrrelevantSymbols | src/main/java/org/myprojects/srvrequestcontrolservice/utils/XmlUtils.java:36 | removing the CLIENT_ATTR_VALUE_REG_EX characters leaves a text without any of them, keeps every other character of the input and adds none, and leaves a text without them unchanged |
| IrrelevantSymbols.StripConcat | src/main/java/org/myprojects/srvrequestcontrolservice/utils/XmlUtils.java:557 | the removal works character by character: stripping a concatenation is concatenating the stripped pieces |
| IrrelevantSymbols.StripIdempotent | src/main/java/org/myprojects/srvrequestcontrolservice/utils/XmlUtils.java:557 | stripping a stripped text changes nothing |
| IrrelevantSymbols.CheckFileAttributeKeepsStripped | src/main/java/org/myprojects/srvrequestcontrolservice/utils/XmlUtils.java:558-560 | cutting a stripped file reference down to its hash introduces no irrelevant symbol |
| IrrelevantSymbols.NormalizeText | src/main/java/org/myprojects/srvrequestcontrolservice/utils/XmlUtils.java:553-562 | an empty text is left alone; a non-empty one comes out without irrelevant symbols and already reduced to its hash, and a lower-cased stripped text that is not a file reference is the new value as it is |
| IrrelevantSymbols.NormalizedSameShape | src/main/java/org/myprojects/srvrequestcontrolservice/utils/XmlUtils.java:548-568 | rewriting the texts keeps the shape of the document: every element keeps its children and every text stays a text |
| IrrelevantSymbols.NormalizedNodeAt | src/main/java/org/myprojects/srvrequestcontrolservice/utils/XmlUtils.java:548-568 | every node below the starting node is found at its old position in its rewritten form: elements keep their names and attributes, texts get their new values, at any depth |
| IrrelevantSymbols.NormalizedTextHasNoIrrelevantSymbols | src/main/java/org/myprojects/srvrequestcontrolservice/utils/XmlUtils.java:553-562 | after the rewrite no non-empty text below the starting node holds an irrelevant symbol |
| IrrelevantSymbols.ReplaceIrrelevantSymbolsIn | src/main/java/org/myprojects/srvrequestcontrolservice/utils/XmlUtils.java:548-568 | the loop over a node's children, rewriting texts where they stand and recursing into elements, yields exactly the rewritten subtree |
| IrrelevantSymbols.ReplaceTextValueIrrelevantSymbols | src/main/java/org/myprojects/srvrequestcontrolservice/utils/XmlUtils.java:548-568 | the document is replaced by its rewritten form |
| IrrelevantSymbols.ReplaceValueIrrelevantSymbols | src/main/java/org/myprojects/srvrequestcontrolservice/utils/XmlUtils.java:570-579 | null stays null; the result is trimmed; a blank value or one that is not a file reference is only trimmed |
| IrrelevantSymbols.ReplaceValueKeepsPlainValue | src/main/java/org/myprojects/srvrequestcontrolservice/utils/XmlUtils.java:570-579 | a trimmed value that is not a file reference comes back unchanged |
| IrrelevantSymbols.SliceOfPlainValue | src/main/java/org/myprojects/srvrequestcontrolservice/utils/XmlUtils.java:572 | a slice of a value that is not a file reference is not one either |
| IrrelevantSymbols.HashPrefixedIsReduced | src/main/java/org/myprojects/srvrequestcontrolservice/utils/XmlUtils.java:572-574 | a text that already starts with "hash" is not cut any further |
| IrrelevantSymbols.TrimOfHashPrefixed | src/main/java/org/myprojects/srvrequestcontrolservice/utils/XmlUtils.java:578 | trimming a text that starts with "hash" keeps the "hash" in front |
| IrrelevantSymbols.TrimmedHashKeepsHash | src/main/java/org/myprojects/srvrequestcontrolservice/utils/XmlUtils.java:572-578 | a file reference cut down to its hash and trimmed still starts with "hash", so it is not blank and is not cut any further |
| IrrelevantSymbols.TrimOfBlankIsBlank | src/main/java/org/myprojects/srvrequestcontrolservice/utils/XmlUtils.java:571-578 | trimming a blank value leaves a blank value |
| IrrelevantSymbols.ReplaceValueIdempotent | src/main/java/org/myprojects/srvrequestcontrolservice/utils/XmlUtils.java:570-579 | replacing a value's symbols twice gives the same value as replacing them once |

## Left out

- XML parsing and serialisation (`getDocumentFromXmlString`, `getPreparedDocumentFromXmlString`, `getXmlStringFromDocument`) are JAXP library calls. Parsing is the parameter `Env.parseXml`, returning None where the text does not parse, and `Env.parseError` is the message of the parser's exception in that case. Saved requests are held as the trees their stored text parses back to. Templates are held as the text that was saved, and are parsed only when read, as in `getEffectiveTemplate`.
- String.toLowerCase with Locale.ROOT is Unicode case mapping. It is the parameter `toLower` of `IrrelevantSymbols.NormalizeText`.
- MD5 (`DigestUtils.md5Hex`) is the parameter `md5Hex`. Double and BigDecimal parsing is the parameter `parse`/`Env.parseNumber`. LocalDateTime.now() and its text form are parameters (`now`, `Env.timeText`). All of these are library calls or floating point.
- The iteration order of every HashMap is a parameter: `Env.keyOrder` for maps keyed by paths, and an explicit order of keys for the caches. Java does not specify it.
- JDBC is not modelled: connections, PreparedStatement and ResultSet, SQL text, and the wrapping of SQLException. The four tables are sequences of rows in `Storage.Database`. Every statement is a function on those rows. Each statement is one step on the tables. No rollback is modelled, `@Transactional` methods included: a statement that fails leaves the earlier statements of the method in place (for example, `RestoreRequestEffect` keeps the delete when the insert fails).
- The identifier table has a single column for the main check system's identifier, `id_main_check_system`. The operators write it under that name. RequestControlService writes and reads it as `id_main`. The model treats these as one column.
- The cache table is selected by `message_id` but written with `messageId`. The model treats these as one column.
- The message of a NullPointerException or IndexOutOfBoundsException is a fixed placeholder. The JVM's own text is not modelled.
- The catch of RequestControlServiceException in checkIdentifiersAndVersion cannot be reached in the model. Inside that try, such an exception only comes from a wrapped SQLException.
- Two switch defaults are not modelled: the ones in validateServiceRequest and generateControlTypeRequest. Every control type has its own case there. The same holds for the tests of generateControlTypeRequest's result against null. The default of the check loop is modelled, because REQUEST reaches it.
- IrrelevantSymbols models `replaceTextValueIrrelevantSymbols`, which only `getPreparedDocumentFromXmlString` calls. The service parses with `getDocumentFromXmlString`, which does not rewrite the text, so no other module uses it.
- DatabaseException.java is not part of this model. A DatabaseException is taken to be a subclass of RequestControlServiceException, so it is a `ServiceFault` and the `catch (RequestControlServiceException e)` blocks catch it.
- JavaText.Less compares strings character by character, by code point. Java's compareTo compares UTF-16 units, so the two can differ on characters outside the Basic Multilingual Plane.
- JavaText.StringHash hashes code points, where String.hashCode hashes UTF-16 units; the two differ on characters outside the Basic Multilingual Plane. Path hashes only decide HashMap order, which is the parameter `Env.keyOrder`, so no modelled result depends on the difference.
- XmlTree.XNode has only element and text nodes. The parser keeps comment, CDATA and processing-instruction nodes, which the model cannot express. Two effects are therefore not captured: a template whose first child is a comment or processing instruction compiles to an empty path map, so no attribute is checked; and a leaf whose children include a CDATA section or a comment is not a text-value node, so it becomes a dynamic node that is not hashed and fails the zero-value test.
- The hash code of an enum constant (`PathNodes.TypeHash`) is its ordinal. Java uses the constant's identity hash, which is fixed for a run but not specified, so the hash values of path nodes are modelled only up to that choice.
- Spring is left out: the controller, the bean configuration, the application class and the `@Scheduled` trigger of the sweep. The sweep itself is `ClientAttributesOperator.ClientAttributesServiceOperator.CleanSavedRequestsCache`. The `@Value` switches are the `RequestControl.Flags` parameter.
- Logging is left out: the slf4j messages and the JSON rendering of requests with ObjectMapper.
- ConcurrentHashMap thread safety is left out. Each cache is a sequential map, and every operation is one step.
- OperatorsModel.Operators.constructor: the Java no-argument constructor leaves the operations map null. The model starts it empty, so the NullPointerException of a later setCheckOperation, getCheckOperation or contains is not modelled.
- The records without logic of their own are datatypes: ServiceRequest, ControlTypeRequest, ControlTypeResult, ServiceResponse, RequestIdentifier, XmlRequestPaths, XmlRequestTemplate and ParsedXmlRequest. So are the exception classes, which are the `Fault` values. AbstractServiceOperator and AbstractCache are not modelled as types of their own.

## Findings

| source | as written | input that shows it | evidently intended | confidence | as-written member | corrected member |
|---|---|---|---|---|---|---|
| src/main/java/org/myprojects/srvrequestcontrolservice/RequestControlService.java:206-231 | the first-run path caches a request whose version is null, and cacheCurrentValues (line 288) binds that version with setInt, which throws a NullPointerException; every cache request without REQUEST_VERSION among its operators has no version collected either and throws the same way | a CACHE_CURRENT_VALUES request with version 2 for a message with no stored identifiers whose id list holds a non-blank id_integration | store the row of nulls the comment describes, binding a missing version as NULL, so that a later restore or confirm finds cached data | not executed | RequestCaching.FirstRunAsWrittenNeverCaches | RequestCaching.FirstRunCachesNullRow |
| src/main/java/org/myprojects/srvrequestcontrolservice/RequestControlService.java:386-392 | the REQUEST case builds the data check's description but never clears `validated`, so the request passes validation | a CACHE_CURRENT_VALUES request with version 2 and no identifier list | FAILED with "Недостаточно данных для обработки запроса" followed by the data check's description | not executed | RequestControl.RequestDataErrorIsDropped | RequestControl.RequestValidation |
| src/main/java/org/myprojects/srvrequestcontrolservice/utils/TempCache.java:38-53 | getCachedUnit resets its result to null on every key that does not match, so it finds a unit only when that key is visited last | a cache holding the keys "a" and "b", whose iterator visits "a" first, asked for "a" | return the unit whenever its key is present, as SimpleCache.getCachedUnit does | not executed | TempCaches.PresentKeyCanBeMissed | TempCaches.TempCache.GetCachedUnitStopping |
| src/main/java/org/myprojects/srvrequestcontrolservice/RequestControlService.java:330-333 | getCachedData reads the version from the first row, then getIdentifiersFromResultSet (lines 1031-1043) calls rs.next() again, so the identifiers come from the message's second cached row, or are empty when there is none | a RESTORE_FROM_CACHE request for message "m" when the cache holds one row for "m": the restore finds no identifiers to delete by and fails with nothing to delete | read the version and the identifiers from the same row | not executed | RequestCaching.SingleCachedRowCannotBeRestored | RequestCaching.RestoreReinstatesCachedRow |

The pipeline keeps the code as written in all four places: `RequestControl.ValidationResult` uses the written REQUEST validation, `RequestCaching.CacheRequestEffect` the written insert and first-run path, `RequestCaching.RestoreEffect` and `RequestCaching.ConfirmEffect` the written cache read, and the saved-request lookup `TempCaches.TempCache.GetCachedUnit`. The corrected definitions (`RequestControl.RequestValidation`, `RequestCaching.CacheCurrentValuesNullable` with `RequestCaching.FirstRunIntended`, `RequestCaching.CachedDataIntended` with `RequestCaching.RestoreIntendedEffect`, and `TempCaches.TempCache.GetCachedUnitStopping`) stand beside them with their properties proved. A temp cache miss only costs a fresh parse of the saved request: `ClientAttributesOperator.EffectiveRequestIsCurrent` shows that the check still compares against the current saved document.
