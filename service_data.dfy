/** The records that travel through the service: the incoming request, the request handed to
    one operator, an operator's result and the response. A Java field that may be null is an
    Option. */
module ServiceData {
  import opened Wrappers
  import opened JavaText
  import opened IdLists
  import opened OperatorsModel

  /** System.lineSeparator(), also what `%n` formats to. */
  const LINE_SEPARATOR := "\n"

  /** The separator the operators join their error lists with. */
  const ERROR_SEPARATOR := ";" + LINE_SEPARATOR

  /** ServiceResponse.Status. */
  datatype Status = Ok | Error | Failed | OkWithWarnings

  /** ServiceRequest.DataFlowType. */
  datatype DataFlowType = DataFlowType1 | DataFlowType2

  /** The enum constant's name(), which is what the tables store as the flow. */
  function FlowName(f: DataFlowType): string {
    match f
    case DataFlowType1 => "DATA_FLOW_TYPE_1"
    case DataFlowType2 => "DATA_FLOW_TYPE_2"
  }

  /** Flow names never contain a hyphen. */
  lemma FlowNameHasNoHyphen(f: DataFlowType)
    ensures !JavaText.Contains(FlowName(f), "-")
  {
    var n := FlowName(f);
    forall i | OccursAt(n, "-", i) ensures n[i] == '-' {
      assert n[i..i + 1][0] == n[i];
    }
    assert '-' !in n;
  }

  /** One operator's verdict. */
  datatype ControlTypeResult = ControlTypeResult(controlType: ControlType, status: Status, errorDescription: Option<string>)

  /** The one-argument constructor: OK with no description. */
  function Passed(t: ControlType): (r: ControlTypeResult)
    ensures r.controlType == t && r.status == Ok && r.errorDescription.None?
  {
    ControlTypeResult(t, Ok, None)
  }

  /** What the service answers. */
  datatype ServiceResponse = ServiceResponse(status: Status, errorDescription: Option<string>)

  /** The incoming request. The identifier list, the version and the body may be missing. The
      operators are the mapping held by the request's Operators. */
  datatype ServiceRequest = ServiceRequest(
    filialName: string,
    dataFlowType: DataFlowType,
    messageId: string,
    requestVersion: Option<int>,
    idList: Option<seq<RequestIdentifier>>,
    checkRequestBody: Option<string>,
    operators: map<ControlType, Operation>)

  /** The part of a request handed to one operator. */
  datatype ControlTypeRequest = ControlTypeRequest(
    controlType: ControlType,
    dataFlowType: DataFlowType,
    filial: string,
    requestVersion: Option<int>,
    request: Option<string>,
    requestIdentifiers: Option<seq<RequestIdentifier>>)

  /** A `requestVersion == 1` test on an Integer: unboxing null throws. */
  function VersionIsOne(v: Option<int>): (r: Result<bool>)
    ensures r.Failure? <==> v.None?
    ensures r.Success? ==> (r.value <==> v == Some(1))
  {
    match v
    case None => Failure(RuntimeFault("NullPointerException"))
    case Some(n) => Success(n == 1)
  }

  /** `catch (RequestControlServiceException e)` around an operator's check: the service fault
      becomes a FAILED result carrying its message, anything else passes through. */
  function CaughtResult(t: ControlType, r: Result<ControlTypeResult>): (c: Result<ControlTypeResult>)
    ensures r.Failure? && r.fault.ServiceFault? ==> c == Success(ControlTypeResult(t, Failed, Some(r.fault.message)))
    ensures !(r.Failure? && r.fault.ServiceFault?) ==> c == r
  {
    if r.Failure? && r.fault.ServiceFault? then Success(ControlTypeResult(t, Failed, Some(r.fault.message))) else r
  }
}
