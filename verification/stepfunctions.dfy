/**
 The Step Functions service as the calculator harness sees it, modelled as plain data.

 The harness only ever lists state machines, lists the executions of one state
 machine, describes one execution and starts an execution. Each of these SDK calls
 becomes a read or a write of `ServiceState`; a call the service rejects (an
 `AmazonServiceException` or `AmazonClientException` in the SDK) becomes
 `Threw(ServiceError)`.
 */
module StepFunctions {

  datatype Option<T> = None | Some(value: T)

  /** The Java exceptions that can end a call of the harness. */
  datatype Exception =
    | NullPointer                                  // java.lang.NullPointerException
    | NoSuchElement                                // java.util.NoSuchElementException
    | ServiceError                                 // an SDK call rejected by the service or the client
    | ExecutionNotFound(executionName: string)     // "Could not find execution with name ..."
    | AssertionFailed                              // a failed JUnit assertTrue
    | NotEqual(expected: string, actual: string)   // a failed JUnit assertEquals
    | DidNotFinish                                 // "Step function execution didn't finish ..."

  /** What a Java call either returns or throws. */
  datatype Result<T> = Ok(value: T) | Threw(exception: Exception)

  /** A state machine as `listStateMachines` reports it. */
  datatype StateMachineItem = StateMachineItem(name: string, stateMachineArn: string)

  /** An execution as `listExecutions` reports it (dates are left out). */
  datatype ExecutionItem = ExecutionItem(name: string, executionArn: string, status: string)

  /** The three fields of a `StartExecutionRequest` that the harness sets. */
  datatype StartRequest = StartRequest(name: string, input: string, stateMachineArn: string)

  /**
   The remote state the harness reads and writes.
   - `stateMachines`: what `listStateMachines` answers, in order, unless
     `rejectsListing` holds, in which case that call throws;
   - `executions`: for each state-machine arn the service knows, what
     `listExecutions` answers, in order (the one page the harness asks for);
     any other arn makes that call, and a start against it, throw;
   - `outputs`: for each execution arn the service can describe, the output
     `describeExecution` reports; any other arn makes that call throw;
   - `started`: every start request the service has accepted, oldest first.
   */
  datatype ServiceState = ServiceState(
    stateMachines: seq<StateMachineItem>,
    rejectsListing: bool,
    executions: map<string, seq<ExecutionItem>>,
    outputs: map<string, string>,
    started: seq<StartRequest>)

  function ListStateMachines(service: ServiceState): Result<seq<StateMachineItem>>
  {
    if service.rejectsListing then Threw(ServiceError) else Ok(service.stateMachines)
  }

  function ListExecutions(service: ServiceState, stateMachineArn: string): Result<seq<ExecutionItem>>
  {
    if stateMachineArn in service.executions then Ok(service.executions[stateMachineArn])
    else Threw(ServiceError)
  }

  function DescribeExecutionOutput(service: ServiceState, executionArn: string): Result<string>
  {
    if executionArn in service.outputs then Ok(service.outputs[executionArn])
    else Threw(ServiceError)
  }

  /**
   `startExecution`: a service that knows the state machine records the
   request, and nothing comes back; one that does not rejects the call.
   */
  function StartExecution(service: ServiceState, request: StartRequest): Result<ServiceState>
  {
    if request.stateMachineArn in service.executions then Ok(service.(started := service.started + [request]))
    else Threw(ServiceError)
  }
}
