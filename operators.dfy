/** The operations a request asks for (data.Operators): for each kind of control, what to do
    with it. */
module OperatorsModel {
  import opened Wrappers

  /** Operators.ControlType. */
  datatype ControlType = Request | ControlIdentifiers | RequestVersion | ClientAttributes

  /** The check priority each control type is declared with. */
  function CheckPriority(t: ControlType): nat {
    match t
    case Request => 0
    case ControlIdentifiers => 1
    case RequestVersion => 2
    case ClientAttributes => 3
  }

  /** Operators.Operation. */
  datatype Operation = Update | Check | CheckAndUpdate | CacheCurrentValues | ConfirmRequest | RestoreFromCache

  /** The control types in declaration order. */
  const CONTROL_TYPES: seq<ControlType> := [Request, ControlIdentifiers, RequestVersion, ClientAttributes]

  /** Every control type is declared once, and the priorities increase strictly in declaration
      order, so sorting by priority never ties. */
  lemma PrioritiesStrictlyIncrease(t: ControlType)
    ensures t in CONTROL_TYPES
    ensures forall i, j :: 0 <= i < j < |CONTROL_TYPES| ==>
      CheckPriority(CONTROL_TYPES[i]) < CheckPriority(CONTROL_TYPES[j])
  {
  }

  /** The control types mapped to one of the wanted operations, sorted by ascending priority.
      Priorities are distinct, so this is the declaration order filtered. */
  function ByPriority(ops: map<ControlType, Operation>, wanted: set<Operation>): (r: seq<ControlType>)
  {
    Filtered(ops, wanted, CONTROL_TYPES)
  }

  /** Every operation. Sorting all the keys of a mapping by priority is ByPriority wanting these. */
  const ALL_OPERATIONS: set<Operation> := {Update, Check, CheckAndUpdate, CacheCurrentValues, ConfirmRequest, RestoreFromCache}

  /** Sorting all the keys loses none and adds none, each once and in ascending priority. */
  lemma AllKeysByPriority(ops: map<ControlType, Operation>)
    ensures forall t :: t in ByPriority(ops, ALL_OPERATIONS) <==> t in ops
    ensures StrictlyByPriority(ByPriority(ops, ALL_OPERATIONS))
  {
    ByPrioritySortedAndExact(ops, ALL_OPERATIONS);
    forall t | t in ops ensures ops[t] in ALL_OPERATIONS {
      match ops[t]
      case Update =>
      case Check =>
      case CheckAndUpdate =>
      case CacheCurrentValues =>
      case ConfirmRequest =>
      case RestoreFromCache =>
    }
  }

  function Filtered(ops: map<ControlType, Operation>, wanted: set<Operation>, ts: seq<ControlType>): (r: seq<ControlType>)
    ensures forall t :: t in r <==> t in ts && t in ops && ops[t] in wanted
    ensures |r| <= |ts|
  {
    if |ts| == 0 then []
    else
      var rest := Filtered(ops, wanted, ts[1..]);
      assert forall t :: t in ts <==> t == ts[0] || t in ts[1..];
      if ts[0] in ops && ops[ts[0]] in wanted then [ts[0]] + rest else rest
  }

  /** `ts` is sorted by strictly ascending priority, which also rules out duplicates. */
  predicate StrictlyByPriority(ts: seq<ControlType>) {
    forall i, j :: 0 <= i < j < |ts| ==> CheckPriority(ts[i]) < CheckPriority(ts[j])
  }

  lemma {:induction false} FilteredKeepsOrder(ops: map<ControlType, Operation>, wanted: set<Operation>, ts: seq<ControlType>)
    requires StrictlyByPriority(ts)
    ensures StrictlyByPriority(Filtered(ops, wanted, ts))
  {
    if |ts| > 0 {
      var rest := Filtered(ops, wanted, ts[1..]);
      assert StrictlyByPriority(ts[1..]) by {
        forall i, j | 0 <= i < j < |ts[1..]|
          ensures CheckPriority(ts[1..][i]) < CheckPriority(ts[1..][j])
        {
          assert ts[1..][i] == ts[i + 1] && ts[1..][j] == ts[j + 1];
        }
      }
      FilteredKeepsOrder(ops, wanted, ts[1..]);
      forall t | t in rest ensures CheckPriority(ts[0]) < CheckPriority(t) {
        var k :| 1 <= k < |ts| && ts[k] == t;
      }
    }
  }

  /** The sorted list holds exactly the control types mapped to a wanted operation, each once,
      in strictly ascending priority. */
  lemma ByPrioritySortedAndExact(ops: map<ControlType, Operation>, wanted: set<Operation>)
    ensures forall t :: t in ByPriority(ops, wanted) <==> t in ops && ops[t] in wanted
    ensures StrictlyByPriority(ByPriority(ops, wanted))
  {
    FilteredKeepsOrder(ops, wanted, CONTROL_TYPES);
    forall t: ControlType ensures t in CONTROL_TYPES {
      PrioritiesStrictlyIncrease(t);
    }
  }

  class Operators {
    var controlOperations: map<ControlType, Operation>

    /** The no-argument constructor. The source leaves the map null; the model starts it empty. */
    constructor ()
      ensures controlOperations == map[]
    {
      controlOperations := map[];
    }

    constructor FromMap(controlOperations: map<ControlType, Operation>)
      ensures this.controlOperations == controlOperations
    {
      this.controlOperations := controlOperations;
    }

    /** getControlOperations: a read-only view of the same mapping. */
    function GetControlOperations(): (r: map<ControlType, Operation>)
      reads this
      ensures forall t :: t in r <==> Contains(t)
      ensures forall t :: t in r ==> GetCheckOperation(t) == Some(r[t])
    {
      controlOperations
    }

    /** getCheckOperation: the operation mapped to the control type, or null. */
    function GetCheckOperation(t: ControlType): (r: Option<Operation>)
      reads this
      ensures r.Some? <==> t in controlOperations
      ensures r.Some? ==> r.value == controlOperations[t]
    {
      if t in controlOperations then Some(controlOperations[t]) else None
    }

    /** contains: the control type is a key of the mapping. */
    predicate Contains(t: ControlType)
      reads this
    {
      t in controlOperations
    }

    /** setCheckOperation: map the control type to the operation, leaving every other mapping. */
    method SetCheckOperation(t: ControlType, operation: Operation)
      modifies this
      ensures controlOperations == old(controlOperations)[t := operation]
      ensures GetCheckOperation(t) == Some(operation)
      ensures forall u :: u != t ==> GetCheckOperation(u) == old(GetCheckOperation(u))
    {
      controlOperations := controlOperations[t := operation];
    }
  }
}
