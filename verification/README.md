# Calculator harness for AWS Step Functions, in Dafny

This project models the two pieces of sequential logic in a Cucumber harness
that drives a calculator workflow on AWS Step Functions. It proves properties of
that model.

- `CalculatorFacade` is the execution client. Its constructor lists the state
  machines and keeps the one named `BasicCalculatorWithAddition`. `execute`
  starts an execution with a JSON-like input string. `getExecutionStatus` and
  `getExecutionResult` look up an execution by name.
- `StepDefinitions` holds the scenario steps. The "given" steps store the
  operation and the two numbers. The "when" step starts the execution. The
  "then" step polls the execution's status once a second, at most 60 times. On
  `SUCCEEDED` it fetches the output and compares it with the expected string.

The Step Functions service is plain data (`StepFunctions.ServiceState`). It
holds the listed state machines, each machine's listed executions, each
execution's output and a log of accepted start requests. An SDK call that the
service would reject is modelled as throwing `ServiceError`. Java exceptions
are values of `StepFunctions.Exception`. A call either returns `Ok(value)` or
`Threw(exception)`. The facade's `null` state machine is `None`.

Files:
- `stepfunctions.dfy` holds the service boundary: items, exceptions, service
  state and the four SDK calls as reads and writes of that state.
- `execution_input.dfy` holds the input string that `execute` builds,
  `Integer.toString`, and a decoder for that input with its round trip.
- `facade.dfy` holds the `CalculatorFacade` class (constructor, `IsConnected`,
  `Execute`) and the lookups as functions of the service state and the
  selected machine.
- `steps.dfy` holds the `StepDefinitions` class, a counter-free
  specification of the polling loop (`PollSpec`) and the lemmas about it.

Where the code does not do what it evidently intends, the model follows the
code:
- The lookup by name does not find the first match anywhere in the list. The
  stream maps each non-matching execution to `null` and then calls
  `findFirst().get()`. So the lookup succeeds only when the first listed
  execution has the name. It throws `NoSuchElementException` on an empty list
  and `NullPointerException` otherwise. The explicit "Could not find execution"
  check can never fire. `Facade.FindByNameIsHeadOnly` states how this differs
  from a first-match search.
- A failure while listing one machine's executions ends the constructor's scan,
  because the exception leaves the `forEach`. A match found before that point
  is kept.
- A terminal status other than `SUCCEEDED` does not stop the polling. It only
  uses up one try.

## Model

| member | source | states |
|---|---|---|
| `ExecutionInput.NaturalToString` | src/test/java/hellocucumber/CalculatorFacade.java:98 | the decimal rendering of an operand is non-empty, made of digits only, and has no leading zero (only 0 itself starts with `0`) |
| `ExecutionInput.IntegerToString` | src/test/java/hellocucumber/CalculatorFacade.java:98 | the rendering of an `Integer` operand is non-empty, starts with `-` if and only if the operand is negative, is digits after that sign (all digits for a non-negative operand), and has no leading zero and no `-0`; `IntegerRoundTrip` reads it back |
| `ExecutionInput.CalculatorInput` | src/test/java/hellocucumber/CalculatorFacade.java:96-99 | the input starts with the `{\n  "operator": "` opening, the operation verbatim and the `",\n  "operands": [` separator, and ends with `]\n}`; for an operation without a double quote, `InputRoundTrip` recovers all three arguments from it |
| `ExecutionInput.IntegerRoundTrip` | src/test/java/hellocucumber/CalculatorFacade.java:98 | an operand rendered as the string concatenation renders an `Integer` reads back as the same integer, negatives included |
| `ExecutionInput.ParseCalculatorInput` | src/test/java/hellocucumber/CalculatorFacade.java:96-99 | the decoder of the input format never yields an operation that contains a double quote |
| `ExecutionInput.InputRoundTrip` | src/test/java/hellocucumber/CalculatorFacade.java:96-99 | the input `{\n  "operator": "<op>",\n  "operands": [<first>, <second>]\n}` decodes to exactly the operation and the two operands in argument order, for any operation without a double quote |
| `ExecutionInput.InputDecodesIffQuoteFree` | src/test/java/hellocucumber/CalculatorFacade.java:97 | the operation is inserted unescaped: `ParseCalculatorInput`, the decoder of this one format, recovers the request from the input if and only if the operation has no double quote |
| `Facade.LastTargetBefore` | src/test/java/hellocucumber/CalculatorFacade.java:63-65 | the last match among the first k machines is named `BasicCalculatorWithAddition` and is one of those k machines |
| `Facade.SelectedMachine` | src/test/java/hellocucumber/CalculatorFacade.java:42-67 | a selected machine comes from a successful listing, has the target name and its executions could be listed |
| `Facade.ScannedCount` | src/test/java/hellocucumber/CalculatorFacade.java:48-52 | the constructor's scan reaches exactly the machines before the first one whose executions cannot be listed |
| `Facade.LastTargetBeforeIsLastMatch` | src/test/java/hellocucumber/CalculatorFacade.java:63-65 | overwriting on every match leaves the last machine named `BasicCalculatorWithAddition`, and nothing exactly when no machine has that name |
| `Facade.SelectedMachineIsLastReachedMatch` | src/test/java/hellocucumber/CalculatorFacade.java:42-84 | the selected machine is the last reached machine with the target name, and its executions were listed; nothing is selected when the machine listing throws or no reached machine matches; machines at and after a failed execution listing are never selected |
| `Facade.CalculatorFacade.constructor` | src/test/java/hellocucumber/CalculatorFacade.java:42-67 | the forward loop that overwrites on each match, and stops at a failed listing, ends with exactly the selection above; construction always completes |
| `Facade.ConnectedIffTargetReached` | src/test/java/hellocucumber/CalculatorFacade.java:88-90 | a constructed facade is connected if and only if the listing succeeded and a reached machine has the target name; `IsConnected` reads the facade and changes nothing |
| `Facade.CalculatorFacade.IsConnected` | src/test/java/hellocucumber/CalculatorFacade.java:88-90 | the facade is connected exactly when a machine was selected (`stateMachine != null`); `ConnectedIffTargetReached` says when that is |
| `Facade.CalculatorFacade.Execute` | src/test/java/hellocucumber/CalculatorFacade.java:92-104 | with a selected machine the service knows, exactly one start request is recorded, with the given name, the exact input string and the selected machine's arn, and the same name is returned; with no machine it throws `NullPointerException` and starts nothing; a rejected start starts nothing; for an operation without a double quote, the recorded input decodes to the arguments |
| `Facade.MapToMatch` | src/test/java/hellocucumber/CalculatorFacade.java:126-129 | the mapped stream has one element per listed execution; an element is that execution exactly when its name is the one looked up, and null otherwise |
| `Facade.FindFirstGet` | src/test/java/hellocucumber/CalculatorFacade.java:130 | `findFirst().get()` throws `NoSuchElementException` exactly on an empty stream and `NullPointerException` exactly when the first element is null; when it returns, the value is the first element and is never null |
| `Facade.FindByName` | src/test/java/hellocucumber/CalculatorFacade.java:126-134 | the stream lookup succeeds if and only if the first listed execution has the name, and returns that item; an empty list throws `NoSuchElementException`; a non-matching first item throws `NullPointerException` |
| `Facade.GetExecutionByName` | src/test/java/hellocucumber/CalculatorFacade.java:124-135 | the lookup succeeds if and only if a machine is selected, its executions can be listed and the first one has the name; it then returns that item; it only ever throws null-pointer, no-such-element or service exceptions, never "Could not find execution" |
| `Facade.FirstNamed` | src/test/java/hellocucumber/CalculatorFacade.java:126-133 | a reference definition of the first-match search the lookup evidently intends: the index of the first listed execution with the name, or the list's length when there is none |
| `Facade.FindByNameIsHeadOnly` | src/test/java/hellocucumber/CalculatorFacade.java:126-133 | the lookup succeeds exactly when the first match is at index 0; a match at a later index is missed with `NullPointerException`; no match at all throws |
| `Facade.GetExecutionStatus` | src/test/java/hellocucumber/CalculatorFacade.java:106-113 | returns exactly the status of the looked-up execution, and throws the lookup's exception whenever the lookup throws |
| `Facade.GetExecutionResult` | src/test/java/hellocucumber/CalculatorFacade.java:115-122 | describes the arn of the looked-up execution and returns that execution's output unchanged; fails whenever the lookup or the describe call fails, and a failed lookup's exception passes through unchanged |
| `Steps.ExpectedOutput` | src/test/java/hellocucumber/StepDefinitions.java:56 | the expected output is `{"result":` followed by the rendered number and `}`, and the number is exactly what lies between them |
| `Steps.Compare` | src/test/java/hellocucumber/StepDefinitions.java:55-56 | the step passes if and only if the fetched output equals the expected string; a failed fetch fails with its own exception; a different output fails `assertEquals` with both strings |
| `Steps.FirstDecisive` | src/test/java/hellocucumber/StepDefinitions.java:54-58 | the index of the first poll that returns `SUCCEEDED` or throws, within the budget |
| `Steps.PollSpec` | src/test/java/hellocucumber/StepDefinitions.java:47-61 | the polling makes between 1 and 60 polls; every poll before the last kept going; fewer than 60 polls means the last one decided; the result is fetched if and only if the last poll returned `SUCCEEDED` |
| `Steps.SucceededAtPoll` | src/test/java/hellocucumber/StepDefinitions.java:54-57 | if the first `SUCCEEDED` is poll k+1 ≤ 60 and no earlier poll threw, there are exactly k+1 polls and one fetch, and the step passes if and only if the output equals the expected string |
| `Steps.TimesOutWithoutSuccess` | src/test/java/hellocucumber/StepDefinitions.java:58-59 | if none of the first 60 replies is `SUCCEEDED` and no poll threw, the 60th poll throws "didn't finish" and the result is never fetched |
| `Steps.OtherStatusesActLikeRunning` | src/test/java/hellocucumber/StepDefinitions.java:54-58 | FAILED, TIMED_OUT, ABORTED and any other status are treated exactly like RUNNING: renaming them RUNNING changes nothing about the run |
| `Steps.SucceededRunNeverTimesOut` | src/test/java/hellocucumber/StepDefinitions.java:54-59 | once `SUCCEEDED` is seen, the step passes or fails on the comparison or a lookup, never with the timeout |
| `Steps.RoundsAlternate` | src/test/java/hellocucumber/StepDefinitions.java:51-53 | the polling calls alternate sleep and status poll, starting with a sleep |
| `Steps.RoundsCounts` | src/test/java/hellocucumber/StepDefinitions.java:51-53 | n rounds hold n sleeps, n status polls of the stored name and no fetch |
| `Steps.CallTraceShape` | src/test/java/hellocucumber/StepDefinitions.java:51-55 | sleeps equal polls; every call uses the stored execution name; the result is fetched once when fetched at all, and last |
| `Steps.StepDefinitions.constructor` | src/test/java/hellocucumber/StepDefinitions.java:12-17 | a new steps object has no facade |
| `Steps.StepDefinitions.TheCalculatorSystemIsReady` | src/test/java/hellocucumber/StepDefinitions.java:19-23 | builds a fresh facade with the constructor's selection; the step passes if and only if that facade is connected |
| `Steps.StepDefinitions.TheOperationIs` | src/test/java/hellocucumber/StepDefinitions.java:25-28 | stores the operation and changes no other field |
| `Steps.StepDefinitions.TheFirstNumberIs` | src/test/java/hellocucumber/StepDefinitions.java:30-33 | stores the first number and changes no other field |
| `Steps.StepDefinitions.TheSecondNumberIs` | src/test/java/hellocucumber/StepDefinitions.java:35-38 | stores the second number and changes no other field |
| `Steps.StepDefinitions.TheCommandIsExecuted` | src/test/java/hellocucumber/StepDefinitions.java:40-43 | passes the operation, the first number and the second number in that order, and stores the returned name; if `execute` throws, neither the name nor the service changes |
| `Steps.StepDefinitions.ItShouldRespondWithTheNumber` | src/test/java/hellocucumber/StepDefinitions.java:45-62 | the loop, with its `count++ >= 59` check and its `shouldContinue` flag, gives exactly the outcome and the sequence of calls that `PollSpec` prescribes, for the status and result replies of the stored execution name |

## Left out

- Credential loading and client building, with their fixed profile and region (CalculatorFacade.java:21-36), are environment setup. A missing credentials file makes the source's constructor throw before any listing. The model's constructor starts at the listing.
- Console output is not modelled. It does not affect control flow.
- `UUID.randomUUID()`: the execution name is a parameter of `Execute` and of `TheCommandIsExecuted`. The uniqueness of names is therefore not modelled.
- `Thread.sleep(1000)` is modelled only as a `Sleep` entry in the call trace. Wall-clock time is not modelled.
- The remote workflow's progress is modelled by `world(i)`, the service state that the i-th poll sees. The result fetch right after a poll sees that same state.
- `Double.toString` of the expected number is not modelled. The rendered number is a string parameter of the polling step.
- `Integer` operands are plain unbounded integers, so null-boxing and the 32-bit range are not modelled. For every 32-bit value the rendering agrees with `Integer.toString`.
- Java `null` strings in the step fields (before a "given" step runs) are not modelled. The fields start as empty strings and zero.
- The steps that use the facade require that the readiness step has created one. Cucumber runs that step first, and a failed step ends the scenario.
- `listStateMachines` and `listExecutions` return their results in pages. The source reads only the first page of each listing and never follows the next token, so the model holds only that first page. Execution start and stop dates are not modelled.
- Facade.CalculatorFacade.Execute: the service's check that the input is valid JSON is not modelled. An operation that cannot stand inside a JSON string unescaped (one holding a double quote, a backslash not starting a JSON escape, or a control character) gives an input the real service rejects with `InvalidExecutionInput`, while the model's `StartExecution` records the start.
- `describeExecution` on an execution that has not finished returns a null output in the SDK. The model has no such case: an execution without an entry in `outputs` cannot be described at all.
- Exception messages and the SDK exceptions' details are not modelled. Exceptions are distinguished only by kind.
