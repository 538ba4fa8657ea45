/**
 `CalculatorFacade`: the client that finds the calculator state machine, starts
 executions of it and looks executions up by name.

 The facade owns one piece of state, the selected state machine (`null` in the
 source, `None` here). The remote service is not owned by it: each operation is
 given the `ServiceState` it talks to, and `Execute` hands back the new one.
 */
module Facade {
  import opened StepFunctions
  import opened ExecutionInput

  /** The name the constructor looks for among the listed state machines. */
  const TargetName := "BasicCalculatorWithAddition"

  predicate ExecutionsListable(service: ServiceState, machine: StateMachineItem)
  {
    ListExecutions(service, machine.stateMachineArn).Ok?
  }

  /**
   How far the constructor's scan over `machines` gets: it visits machines in
   order and stops at the first one whose executions cannot be listed, because
   that exception leaves the `forEach` (it is caught after the loop).
   */
  function ScannedCount(service: ServiceState, machines: seq<StateMachineItem>, from: nat): (n: nat)
    requires from <= |machines|
    decreases |machines| - from
    ensures from <= n <= |machines|
    ensures forall j :: from <= j < n ==> ExecutionsListable(service, machines[j])
    ensures n < |machines| ==> !ExecutionsListable(service, machines[n])
  {
    if from == |machines| then from
    else if !ExecutionsListable(service, machines[from]) then from
    else ScannedCount(service, machines, from + 1)
  }

  /** The last of the first `k` machines named `TargetName`, searching from the back. */
  function LastTargetBefore(machines: seq<StateMachineItem>, k: nat): (r: Option<StateMachineItem>)
    requires k <= |machines|
    ensures r.Some? ==> r.value.name == TargetName
    ensures r.Some? ==> exists i :: 0 <= i < k && machines[i] == r.value
  {
    if k == 0 then None
    else if machines[k - 1].name == TargetName then Some(machines[k - 1])
    else LastTargetBefore(machines, k - 1)
  }

  /** The state machine the constructor selects when it talks to `service`. */
  function SelectedMachine(service: ServiceState): (r: Option<StateMachineItem>)
    ensures r.Some? ==> !service.rejectsListing && r.value in service.stateMachines
    ensures r.Some? ==> r.value.name == TargetName && ExecutionsListable(service, r.value)
  {
    match ListStateMachines(service)
    case Threw(_) => None
    case Ok(machines) => LastTargetBefore(machines, ScannedCount(service, machines, 0))
  }

  lemma {:induction false} LastTargetBeforeIsLastMatch(machines: seq<StateMachineItem>, k: nat)
    requires k <= |machines|
    ensures LastTargetBefore(machines, k).None?
            <==> forall j :: 0 <= j < k ==> machines[j].name != TargetName
    ensures LastTargetBefore(machines, k).Some? ==>
              exists i :: 0 <= i < k && machines[i] == LastTargetBefore(machines, k).value
                          && machines[i].name == TargetName
                          && forall j :: i < j < k ==> machines[j].name != TargetName
  {
    if k > 0 && machines[k - 1].name != TargetName {
      LastTargetBeforeIsLastMatch(machines, k - 1);
    }
  }

  /**
   The constructor selects the LAST listed machine named `TargetName` among
   those the scan reaches (later matches overwrite earlier ones); it selects
   nothing when the listing itself fails or no reached machine has that name.
   A machine whose executions cannot be listed, and every machine after it, is
   never selected, but a match found before it is kept.
   */
  lemma SelectedMachineIsLastReachedMatch(service: ServiceState)
    ensures SelectedMachine(service).Some? <==>
              !service.rejectsListing
              && exists i :: 0 <= i < ScannedCount(service, service.stateMachines, 0)
                             && service.stateMachines[i].name == TargetName
    ensures SelectedMachine(service).Some? ==>
              var machines := service.stateMachines;
              var n := ScannedCount(service, machines, 0);
              exists i :: 0 <= i < n && machines[i] == SelectedMachine(service).value
                          && machines[i].name == TargetName
                          && ExecutionsListable(service, machines[i])
                          && forall j :: i < j < n ==> machines[j].name != TargetName
  {
    if !service.rejectsListing {
      LastTargetBeforeIsLastMatch(service.stateMachines, ScannedCount(service, service.stateMachines, 0));
    }
  }

  class CalculatorFacade {
    /** The selected state machine; `None` stands for the source's `null`. */
    var stateMachine: Option<StateMachineItem>

    /**
     Lists the state machines and the executions of each in turn, keeping the
     last one named `TargetName`. A service or client exception is caught, so
     construction always completes; whatever was selected before it is kept.
     */
    constructor (service: ServiceState)
      ensures stateMachine == SelectedMachine(service)
    {
      var selected: Option<StateMachineItem> := None;
      match ListStateMachines(service) {
        case Threw(_) =>
        case Ok(machines) =>
          var i := 0;
          while i < |machines|
            invariant i <= ScannedCount(service, machines, 0)
            invariant selected == LastTargetBefore(machines, i)
          {
            var executions := ListExecutions(service, machines[i].stateMachineArn);
            if executions.Threw? {
              assert i == ScannedCount(service, machines, 0);
              break;
            }
            if machines[i].name == TargetName {
              selected := Some(machines[i]);
            }
            i := i + 1;
          }
      }
      stateMachine := selected;
    }

    predicate IsConnected()
      reads this
      ensures IsConnected() <==> stateMachine != None
    {
      stateMachine.Some?
    }

    /**
     Starts one execution of the selected machine under `executionName` (the
     source draws it from `UUID.randomUUID()`) and returns that name. Without
     a selected machine the arn lookup dereferences null, and a service that
     no longer knows the machine rejects the start: in both cases nothing is
     started.
     */
    method Execute(service: ServiceState, operation: string, firstNumber: int, secondNumber: int,
                   executionName: string)
      returns (r: Result<string>, service': ServiceState)
      ensures !IsConnected() ==> r == Threw(NullPointer) && service' == service
      ensures IsConnected() && stateMachine.value.stateMachineArn !in service.executions ==>
                r == Threw(ServiceError) && service' == service
      ensures IsConnected() && stateMachine.value.stateMachineArn in service.executions ==>
                && r == Ok(executionName)
                && service' == service.(started := service'.started)
                && service'.started == service.started + [StartRequest(executionName,
                     CalculatorInput(operation, firstNumber, secondNumber), stateMachine.value.stateMachineArn)]
      ensures r.Ok? && '"' !in operation ==>
                ParseCalculatorInput(service'.started[|service'.started| - 1].input)
                == Some(CalculatorRequest(operation, firstNumber, secondNumber))
    {
      var request := StartRequest("", "", "");
      request := request.(name := executionName);
      request := request.(input := CalculatorInput(operation, firstNumber, secondNumber));
      if stateMachine.None? {
        return Threw(NullPointer), service;
      }
      request := request.(stateMachineArn := stateMachine.value.stateMachineArn);
      match StartExecution(service, request) {
        case Threw(e) =>
          return Threw(e), service;
        case Ok(accepted) =>
          service' := accepted;
      }
      r := Ok(executionName);
      if '"' !in operation {
        InputRoundTrip(operation, firstNumber, secondNumber);
      }
    }
  }

  /** Whether a facade is connected is whether the construction scan reached a machine named `TargetName`. */
  lemma ConnectedIffTargetReached(facade: CalculatorFacade, service: ServiceState)
    requires facade.stateMachine == SelectedMachine(service)
    ensures facade.IsConnected() <==>
              !service.rejectsListing
              && exists i :: 0 <= i < ScannedCount(service, service.stateMachines, 0)
                             && service.stateMachines[i].name == TargetName
  {
    SelectedMachineIsLastReachedMatch(service);
  }

  /**
   The source's stream step: each listed execution is kept when its name is
   `executionName` and mapped to null (`None`) otherwise.
   */
  function MapToMatch(executions: seq<ExecutionItem>, executionName: string): (mapped: seq<Option<ExecutionItem>>)
    ensures |mapped| == |executions|
    ensures forall i :: 0 <= i < |mapped| ==> (mapped[i].Some? <==> executions[i].name == executionName)
    ensures forall i :: 0 <= i < |mapped| && mapped[i].Some? ==> mapped[i].value == executions[i]
  {
    seq(|executions|, i requires 0 <= i < |executions| =>
      if executions[i].name == executionName then Some(executions[i]) else None)
  }

  /**
   `findFirst().get()` on a stream: the first element, `NoSuchElement` when
   there is none, `NullPointer` when that element is null.
   */
  function FindFirstGet(mapped: seq<Option<ExecutionItem>>): (r: Result<Option<ExecutionItem>>)
    ensures r == Threw(NoSuchElement) <==> mapped == []
    ensures r == Threw(NullPointer) <==> mapped != [] && mapped[0].None?
    ensures r.Ok? ==> r.value.Some? && r.value == mapped[0]
  {
    if mapped == [] then Threw(NoSuchElement)
    else if mapped[0].None? then Threw(NullPointer)
    else Ok(mapped[0])
  }

  /**
   The lookup after listing `executions`: the stream, then the explicit null
   check, which can never fire because `findFirst` has already thrown.
   */
  function FindByName(executions: seq<ExecutionItem>, executionName: string): (r: Result<ExecutionItem>)
    ensures r.Ok? <==> executions != [] && executions[0].name == executionName
    ensures r.Ok? ==> r.value == executions[0]
    ensures executions == [] ==> r == Threw(NoSuchElement)
    ensures executions != [] && executions[0].name != executionName ==> r == Threw(NullPointer)
  {
    match FindFirstGet(MapToMatch(executions, executionName))
    case Threw(e) => Threw(e)
    case Ok(theRightExecution) =>
      if theRightExecution.None? then Threw(ExecutionNotFound(executionName))
      else Ok(theRightExecution.value)
  }

  /**
   `getExecutionByName` against `service` for a facade whose selected machine
   is `stateMachine`: it lists the selected machine's executions and succeeds
   only when the FIRST listed execution has the name; it never answers with
   null and never raises its own "Could not find execution" exception.
   */
  function GetExecutionByName(service: ServiceState, stateMachine: Option<StateMachineItem>,
                              executionName: string): (r: Result<ExecutionItem>)
    ensures r.Ok? <==>
              && stateMachine.Some?
              && ListExecutions(service, stateMachine.value.stateMachineArn).Ok?
              && var executions := ListExecutions(service, stateMachine.value.stateMachineArn).value;
                 executions != [] && executions[0].name == executionName
    ensures r.Ok? ==>
              r.value.name == executionName
              && r.value == service.executions[stateMachine.value.stateMachineArn][0]
    ensures r.Threw? ==> r.exception in {NullPointer, NoSuchElement, ServiceError}
    ensures GetExecutionByName(service, stateMachine, executionName).Threw? ==>
              r == Threw(GetExecutionByName(service, stateMachine, executionName).exception)
  {
    if stateMachine.None? then Threw(NullPointer)  // `sm.getStateMachineArn()` on null
    else
      match ListExecutions(service, stateMachine.value.stateMachineArn)
      case Threw(e) => Threw(e)
      case Ok(executions) => FindByName(executions, executionName)
  }

  /** The first listed execution that has the name: what the lookup evidently meant to find. */
  function FirstNamed(executions: seq<ExecutionItem>, executionName: string): (i: nat)
    ensures i <= |executions|
    ensures forall j :: 0 <= j < i ==> executions[j].name != executionName
    ensures i < |executions| ==> executions[i].name == executionName
  {
    if executions == [] then 0
    else if executions[0].name == executionName then 0
    else 1 + FirstNamed(executions[1..], executionName)
  }

  /**
   The lookup as written agrees with "first match anywhere" only when that
   match is the first listed execution: a matching execution behind any other
   one is missed with a `NullPointer`.
   */
  lemma FindByNameIsHeadOnly(executions: seq<ExecutionItem>, executionName: string)
    ensures var i := FirstNamed(executions, executionName);
            && (FindByName(executions, executionName).Ok? <==> i == 0 && i < |executions|)
            && (0 < i < |executions| ==> FindByName(executions, executionName) == Threw(NullPointer))
            && (i == |executions| ==> FindByName(executions, executionName).Threw?)
  {
  }

  /** `getExecutionStatus`: the status of the looked-up execution, or the lookup's exception. */
  function GetExecutionStatus(service: ServiceState, stateMachine: Option<StateMachineItem>,
                              executionName: string): (r: Result<string>)
    ensures r.Ok? <==> GetExecutionByName(service, stateMachine, executionName).Ok?
    ensures r.Ok? ==> r.value == GetExecutionByName(service, stateMachine, executionName).value.status
    ensures r.Threw? ==> r.exception == GetExecutionByName(service, stateMachine, executionName).exception
  {
    match GetExecutionByName(service, stateMachine, executionName)
    case Threw(e) => Threw(e)
    case Ok(theRightExecution) => Ok(theRightExecution.status)
  }

  /**
   `getExecutionResult`: describes the looked-up execution by its arn and
   returns the output unchanged.
   */
  function GetExecutionResult(service: ServiceState, stateMachine: Option<StateMachineItem>,
                              executionName: string): (r: Result<string>)
    ensures r.Ok? <==>
              GetExecutionByName(service, stateMachine, executionName).Ok?
              && GetExecutionByName(service, stateMachine, executionName).value.executionArn in service.outputs
    ensures r.Ok? ==>
              r.value == service.outputs[GetExecutionByName(service, stateMachine, executionName).value.executionArn]
    ensures r.Threw? ==> r.exception in {NullPointer, NoSuchElement, ServiceError}
    ensures GetExecutionByName(service, stateMachine, executionName).Threw? ==>
              r == Threw(GetExecutionByName(service, stateMachine, executionName).exception)
  {
    match GetExecutionByName(service, stateMachine, executionName)
    case Threw(e) => Threw(e)
    case Ok(theRightExecution) => DescribeExecutionOutput(service, theRightExecution.executionArn)
  }
}
