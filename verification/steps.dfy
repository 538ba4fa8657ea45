/**
 `StepDefinitions`: the Cucumber steps of the calculator scenario. The "given"
 steps store the scenario's parameters, the "when" step starts an execution
 and the "then" step polls its status once a second, at most 60 times, and
 compares the output once it has SUCCEEDED.

 Each step that throws is modelled as returning `Failed` with the exception;
 a scenario stops at its first failed step.
 */
module Steps {
  import opened StepFunctions
  import opened ExecutionInput
  import opened Facade

  /** The loop's `maxTryCount`. */
  const MaxTryCount := 59
  /** How many status polls the loop makes at most: `count` runs from 0 through `MaxTryCount`. */
  const PollBudget := MaxTryCount + 1
  const Succeeded := "SUCCEEDED"

  datatype StepResult = Passed | Failed(exception: Exception)

  /** A call the polling step makes: the one-second sleep, or a facade call for a name. */
  datatype Call = Sleep | GetStatus(executionName: string) | GetResult(executionName: string)

  /** How the polling step ends, how many status polls it made, and whether it fetched the result. */
  datatype PollRun = PollRun(outcome: StepResult, polls: nat, fetched: bool)

  /** What the expected output starts with. */
  const ResultOpen := "{\"result\":"

  /** The output the step expects, `number` being the source's rendering of the expected double. */
  function ExpectedOutput(number: string): (r: string)
    ensures ResultOpen <= r && |r| == |ResultOpen| + |number| + 1 && r[|r| - 1] == '}'
    ensures r[|ResultOpen|..|r| - 1] == number
  {
    ResultOpen + number + "}"
  }

  /** A status reply that ends the polling: an exception, or "SUCCEEDED". Every other status keeps it going. */
  predicate Decisive(reply: Result<string>)
  {
    reply.Threw? || reply.value == Succeeded
  }

  /** The first `i` in `[from, n)` whose reply is decisive, or `n`. */
  function FirstDecisive(replies: nat -> Result<string>, from: nat, n: nat): (k: nat)
    requires from <= n
    decreases n - from
    ensures from <= k <= n
    ensures forall j :: from <= j < k ==> !Decisive(replies(j))
    ensures k < n ==> Decisive(replies(k))
  {
    if from == n then n
    else if Decisive(replies(from)) then from
    else FirstDecisive(replies, from + 1, n)
  }

  lemma FirstDecisiveAt(replies: nat -> Result<string>, k: nat)
    requires k < PollBudget && Decisive(replies(k))
    requires forall j :: 0 <= j < k ==> !Decisive(replies(j))
    ensures FirstDecisive(replies, 0, PollBudget) == k
  {
  }

  /** The comparison after a SUCCEEDED poll: `assertEquals(expected, fetched output)`. */
  function Compare(fetched: Result<string>, expected: string): (r: StepResult)
    ensures r == Passed <==> fetched == Ok(expected)
    ensures fetched.Threw? ==> r == Failed(fetched.exception)
    ensures fetched.Ok? && fetched.value != expected ==> r == Failed(NotEqual(expected, fetched.value))
  {
    match fetched
    case Threw(e) => Failed(e)
    case Ok(output) => if output == expected then Passed else Failed(NotEqual(expected, output))
  }

  /**
   What the polling step does, stated without its counter: `replies(i)` is
   what the i-th status poll (from 0) returns and `results(i)` what fetching
   the result right after it returns. Polling stops at the first reply that is
   an exception or "SUCCEEDED", or after `PollBudget` polls with neither.
   */
  function PollSpec(replies: nat -> Result<string>, results: nat -> Result<string>, expected: string): (run: PollRun)
    ensures 1 <= run.polls <= PollBudget
    ensures forall j :: 0 <= j < run.polls - 1 ==> !Decisive(replies(j))
    ensures run.polls < PollBudget ==> Decisive(replies(run.polls - 1))
    ensures run.fetched <==> replies(run.polls - 1) == Ok(Succeeded)
  {
    var k := FirstDecisive(replies, 0, PollBudget);
    if k == PollBudget then PollRun(Failed(DidNotFinish), PollBudget, false)
    else match replies(k)
      case Threw(e) => PollRun(Failed(e), k + 1, false)
      case Ok(_) => PollRun(Compare(results(k), expected), k + 1, true)
  }

  /**
   If the first "SUCCEEDED" reply is poll `k` (from 0) and no poll before it
   threw, the step polls exactly `k + 1` times, fetches the result once, and
   passes exactly when the output equals the expected string.
   */
  lemma SucceededAtPoll(replies: nat -> Result<string>, results: nat -> Result<string>, expected: string, k: nat)
    requires k < PollBudget
    requires replies(k) == Ok(Succeeded)
    requires forall j :: 0 <= j < k ==> replies(j).Ok? && replies(j).value != Succeeded
    ensures PollSpec(replies, results, expected) == PollRun(Compare(results(k), expected), k + 1, true)
    ensures PollSpec(replies, results, expected).outcome == Passed <==> results(k) == Ok(expected)
  {
    FirstDecisiveAt(replies, k);
  }

  /**
   If none of the first `PollBudget` replies is "SUCCEEDED" and none threw,
   the last poll throws the "didn't finish" exception and nothing is fetched.
   */
  lemma TimesOutWithoutSuccess(replies: nat -> Result<string>, results: nat -> Result<string>, expected: string)
    requires forall j :: 0 <= j < PollBudget ==> replies(j).Ok? && replies(j).value != Succeeded
    ensures PollSpec(replies, results, expected) == PollRun(Failed(DidNotFinish), PollBudget, false)
  {
    assert FirstDecisive(replies, 0, PollBudget) == PollBudget;
  }

  /** A reply with every status but "SUCCEEDED" replaced by "RUNNING". */
  function AsRunning(reply: Result<string>): (r: Result<string>)
    ensures Decisive(r) == Decisive(reply)
  {
    if reply.Ok? && reply.value != Succeeded then Ok("RUNNING") else reply
  }

  lemma {:induction false} FirstDecisiveSeesOnlyAsRunning(r1: nat -> Result<string>, r2: nat -> Result<string>, from: nat, n: nat)
    requires from <= n
    requires forall j :: from <= j < n ==> AsRunning(r1(j)) == AsRunning(r2(j))
    decreases n - from
    ensures FirstDecisive(r1, from, n) == FirstDecisive(r2, from, n)
  {
    if from < n {
      assert Decisive(r1(from)) == Decisive(AsRunning(r1(from))) == Decisive(r2(from));
      FirstDecisiveSeesOnlyAsRunning(r1, r2, from + 1, n);
    }
  }

  /**
   FAILED, TIMED_OUT, ABORTED and every other status but "SUCCEEDED" are
   handled exactly like RUNNING: two runs whose replies agree once such
   statuses are renamed RUNNING end alike.
   */
  lemma OtherStatusesActLikeRunning(r1: nat -> Result<string>, r2: nat -> Result<string>,
                                    results: nat -> Result<string>, expected: string)
    requires forall j :: 0 <= j < PollBudget ==> AsRunning(r1(j)) == AsRunning(r2(j))
    ensures PollSpec(r1, results, expected) == PollSpec(r2, results, expected)
  {
    FirstDecisiveSeesOnlyAsRunning(r1, r2, 0, PollBudget);
    var k := FirstDecisive(r1, 0, PollBudget);
    if k < PollBudget {
      assert AsRunning(r1(k)) == AsRunning(r2(k));
    }
  }

  /** `n` rounds of sleeping and then polling the status of `executionName`. */
  function Rounds(executionName: string, n: nat): seq<Call>
  {
    if n == 0 then [] else Rounds(executionName, n - 1) + [Sleep, GetStatus(executionName)]
  }

  /** The calls the polling step makes: its rounds, then the result fetch if there is one. */
  function CallTrace(executionName: string, polls: nat, fetched: bool): seq<Call>
  {
    Rounds(executionName, polls) + if fetched then [GetResult(executionName)] else []
  }

  lemma {:induction false} RoundsAlternate(executionName: string, n: nat)
    ensures Rounds(executionName, n) == seq(2 * n, i => if i % 2 == 0 then Sleep else GetStatus(executionName))
  {
    if n > 0 {
      RoundsAlternate(executionName, n - 1);
    }
  }

  lemma {:induction false} RoundsCounts(executionName: string, n: nat)
    ensures multiset(Rounds(executionName, n))[Sleep] == n
    ensures multiset(Rounds(executionName, n))[GetStatus(executionName)] == n
    ensures multiset(Rounds(executionName, n))[GetResult(executionName)] == 0
    ensures forall c :: c in Rounds(executionName, n) ==> c == Sleep || c == GetStatus(executionName)
  {
    if n > 0 {
      RoundsCounts(executionName, n - 1);
      var previous := Rounds(executionName, n - 1);
      assert multiset(Rounds(executionName, n)) == multiset(previous) + multiset{Sleep, GetStatus(executionName)};
    }
  }

  /**
   In the polling step's calls every status poll comes right after its own
   sleep, so sleeps and polls are equally many; every call names the stored
   execution; the result is fetched at most once, and last.
   */
  lemma CallTraceShape(executionName: string, polls: nat, fetched: bool)
    ensures var calls := CallTrace(executionName, polls, fetched);
            && multiset(calls)[Sleep] == polls
            && multiset(calls)[GetStatus(executionName)] == polls
            && multiset(calls)[GetResult(executionName)] == (if fetched then 1 else 0)
            && (forall c :: c in calls ==> c == Sleep || c.executionName == executionName)
            && (fetched ==> calls[|calls| - 1] == GetResult(executionName))
  {
    RoundsCounts(executionName, polls);
    var rounds := Rounds(executionName, polls);
    var fetch := if fetched then [GetResult(executionName)] else [];
    assert multiset(CallTrace(executionName, polls, fetched)) == multiset(rounds) + multiset(fetch);
  }

  /** The reply of each poll when the i-th poll sees the service as `world(i)`. */
  function StatusReplies(world: nat -> ServiceState, stateMachine: Option<StateMachineItem>,
                         executionName: string): nat -> Result<string>
  {
    (i: nat) => GetExecutionStatus(world(i), stateMachine, executionName)
  }

  /** What fetching the result right after the i-th poll returns. */
  function ResultReplies(world: nat -> ServiceState, stateMachine: Option<StateMachineItem>,
                         executionName: string): nat -> Result<string>
  {
    (i: nat) => GetExecutionResult(world(i), stateMachine, executionName)
  }

  /**
   Against the real facade the step never reports a timeout once it has seen
   "SUCCEEDED": it passes, or fails on the comparison or on a lookup.
   */
  lemma SucceededRunNeverTimesOut(world: nat -> ServiceState, stateMachine: Option<StateMachineItem>,
                                  executionName: string, expected: string)
    ensures var run := PollSpec(StatusReplies(world, stateMachine, executionName),
                                ResultReplies(world, stateMachine, executionName), expected);
            run.fetched ==> run.outcome != Failed(DidNotFinish)
  {
    var run := PollSpec(StatusReplies(world, stateMachine, executionName),
                        ResultReplies(world, stateMachine, executionName), expected);
    if run.fetched {
      var fetched := GetExecutionResult(world(run.polls - 1), stateMachine, executionName);
      assert run.outcome == Compare(fetched, expected);
    }
  }

  class StepDefinitions {
    var operation: string
    var finalNumber: int
    var secondNumber: int
    var executionName: string
    var calculatorFacade: CalculatorFacade?

    /** Cucumber creates the steps object for each scenario; no facade exists yet. */
    constructor ()
      ensures calculatorFacade == null
    {
      operation, finalNumber, secondNumber, executionName := "", 0, 0, "";
      calculatorFacade := null;
    }

    /** "the calculator system is ready": builds a new facade and asserts it is connected. */
    method TheCalculatorSystemIsReady(service: ServiceState) returns (r: StepResult)
      modifies this`calculatorFacade
      ensures calculatorFacade != null && fresh(calculatorFacade)
      ensures calculatorFacade.stateMachine == SelectedMachine(service)
      ensures r == if calculatorFacade.IsConnected() then Passed else Failed(AssertionFailed)
    {
      calculatorFacade := new CalculatorFacade(service);
      r := if calculatorFacade.IsConnected() then Passed else Failed(AssertionFailed);
    }

    /** "the operation is {string}" */
    method TheOperationIs(operation: string)
      modifies this`operation
      ensures this.operation == operation
    {
      this.operation := operation;
    }

    /** "the first number is {int}" */
    method TheFirstNumberIs(finalNumber: int)
      modifies this`finalNumber
      ensures this.finalNumber == finalNumber
    {
      this.finalNumber := finalNumber;
    }

    /** "the second number is {int}" */
    method TheSecondNumberIs(secondNumber: int)
      modifies this`secondNumber
      ensures this.secondNumber == secondNumber
    {
      this.secondNumber := secondNumber;
    }

    /**
     "the command is executed": starts an execution with the stored operation
     and numbers, in that order, under `freshName`, and stores the name the
     facade returns. If the facade throws, the name is not stored.
     */
    method TheCommandIsExecuted(service: ServiceState, freshName: string)
      returns (r: StepResult, service': ServiceState)
      requires calculatorFacade != null
      modifies this`executionName
      ensures r.Passed? <==>
                calculatorFacade.IsConnected()
                && calculatorFacade.stateMachine.value.stateMachineArn in service.executions
      ensures r.Passed? ==>
                && calculatorFacade.IsConnected()
                && executionName == freshName
                && service' == service.(started := service'.started)
                && service'.started == service.started + [StartRequest(freshName,
                     CalculatorInput(operation, finalNumber, secondNumber),
                     calculatorFacade.stateMachine.value.stateMachineArn)]
      ensures !calculatorFacade.IsConnected() ==> r == Failed(NullPointer)
      ensures r.Failed? ==> executionName == old(executionName) && service' == service
    {
      var name;
      name, service' := calculatorFacade.Execute(service, operation, finalNumber, secondNumber, freshName);
      match name {
        case Threw(e) => r := Failed(e);
        case Ok(returned) =>
          executionName := returned;
          r := Passed;
      }
    }

    /**
     "it should respond with the number {double}": sleeps, polls the status of
     the stored execution, and on "SUCCEEDED" fetches the output once and
     asserts it equals the expected string; any other status counts one try,
     and the try made with `count` at `MaxTryCount` throws instead.
     `world(i)` is the service as the i-th poll (from 0) sees it: the workflow
     progresses while the step sleeps.
     */
    method ItShouldRespondWithTheNumber(number: string, world: nat -> ServiceState)
      returns (r: StepResult, calls: seq<Call>)
      requires calculatorFacade != null
      ensures var run := PollSpec(StatusReplies(world, calculatorFacade.stateMachine, executionName),
                                  ResultReplies(world, calculatorFacade.stateMachine, executionName),
                                  ExpectedOutput(number));
              r == run.outcome && calls == CallTrace(executionName, run.polls, run.fetched)
    {
      var replies := StatusReplies(world, calculatorFacade.stateMachine, executionName);
      var results := ResultReplies(world, calculatorFacade.stateMachine, executionName);
      var expected := ExpectedOutput(number);
      var count := 0;
      var shouldContinue := true;
      calls := [];
      r := Passed;
      while shouldContinue
        invariant count <= MaxTryCount
        invariant forall j :: 0 <= j < count ==> !Decisive(replies(j))
        invariant shouldContinue ==> calls == Rounds(executionName, count)
        invariant !shouldContinue ==>
                    && replies(count) == Ok(Succeeded) && results(count) == Ok(expected)
                    && calls == CallTrace(executionName, count + 1, true) && r == Passed
        decreases PollBudget - count, shouldContinue
      {
        calls := calls + [Sleep];
        var status := GetExecutionStatus(world(count), calculatorFacade.stateMachine, executionName);
        calls := calls + [GetStatus(executionName)];
        assert status == replies(count);
        if status.Threw? {
          FirstDecisiveAt(replies, count);
          return Failed(status.exception), calls;
        }
        if status.value == Succeeded {
          var executionResult := GetExecutionResult(world(count), calculatorFacade.stateMachine, executionName);
          calls := calls + [GetResult(executionName)];
          assert executionResult == results(count);
          FirstDecisiveAt(replies, count);
          if executionResult != Ok(expected) {
            return Compare(executionResult, expected), calls;
          }
          shouldContinue := false;
        } else {
          var tries := count;
          count := count + 1;
          if tries >= MaxTryCount {
            assert FirstDecisive(replies, 0, PollBudget) == PollBudget;
            return Failed(DidNotFinish), calls;
          }
        }
      }
      FirstDecisiveAt(replies, count);
    }
  }
}
