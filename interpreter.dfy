/**
 * `FalseInterpreter` and the `operate` methods of the operations it runs.
 * Every method is proved to compute the corresponding function of
 * `Machine` on the state the interpreter's objects hold.
 */
module Interpreter {
  import opened JavaTypes
  import opened Operations
  import opened FalseLanguageDefinition
  import opened Machine
  import opened Memory
  import opened InOut
  import opened AbortIndicator

  class FalseInterpreter {
    const stdinout: StandardInOutPutCompat
    const stack: StackMemory
    var variables: map<JChar, Value>
    const indicator: ExecutionAbortIndicator
    const program: seq<Op>
    var printStack: bool
    var printVariables: bool
    /** Whether an execution listener is set. */
    var listening: bool
    /** The calls made on the listener so far. */
    var events: seq<Event>
    /** When the other thread calls `abortExecution` on this interpreter. */
    const abort: AbortSchedule
    /** How often the abort flag has been asked for. */
    var polls: nat

    /** The state the operations see. */
    function State(): Env
      reads this, stack, stdinout, indicator
    {
      Env(stack.items, variables, stdinout.inputBuffer, stdinout.lines, stdinout.output, indicator.toBeAborted, polls)
    }

    /**
     * A new interpreter: an empty stack, no variables, an empty input
     * buffer, a flag that is not set, and neither print option on.
     */
    constructor(program: seq<Op>, lines: seq<JString>, abort: AbortSchedule)
      ensures this.program == program && this.abort == abort
      ensures State() == Env([], map[], [], lines, [], false, 0)
      ensures !printStack && !printVariables && !listening && events == []
    {
      stdinout := new StandardInOutPutCompat(lines);
      this.program := program;
      stack := new StackMemory();
      variables := map[];
      printStack := false;
      printVariables := false;
      indicator := new ExecutionAbortIndicator();
      listening := false;
      events := [];
      this.abort := abort;
      polls := 0;
    }

    /** `setFalseProgramExecutionListener`: with a listener or with `null`. */
    method SetListener(present: bool)
      modifies this`listening
      ensures listening == present
    {
      listening := present;
    }

    method SetPrintStack(printStack: bool)
      modifies this`printStack
      ensures this.printStack == printStack
    {
      this.printStack := printStack;
    }

    method SetPrintVariables(printVariables: bool)
      modifies this`printVariables
      ensures this.printVariables == printVariables
    {
      this.printVariables := printVariables;
    }

    /** `abortExecution`: sets the indicator's flag. */
    method AbortExecution()
      modifies indicator
      ensures indicator.toBeAborted
    {
      indicator.AbortExecution();
    }

    /** One `indicator.isToBeAborted()`, after the other thread may have called `abortExecution`. */
    method Poll() returns (aborted: bool)
      modifies this`polls, indicator
      ensures State() == Machine.Poll(old(State()), abort)
      ensures aborted == indicator.toBeAborted
    {
      if abort == BeforePoll(polls) {
        indicator.AbortExecution();
      }
      polls := polls + 1;
      aborted := indicator.IsToBeAborted();
    }

    /** What an operation whose class is not part of this model does. */
    method ApplyEffect(e: Effect) returns (status: Status)
      modifies this`variables, stack, stdinout
      ensures Result(State(), status) == Apply(e, old(State()))
    {
      stack.items := e.stack;
      variables := e.variables;
      stdinout.inputBuffer := e.buffer;
      stdinout.lines := e.lines;
      stdinout.output := e.output;
      status := Outcome(e.error);
    }

    /** `UnaryMinusOperation.operate`. */
    method OperateUnaryMinus(index: int) returns (status: Status)
      modifies stack
      ensures Result(State(), status) == UnaryMinusStep(old(State()), index)
    {
      if stack.Size() < 1 {
        return Failed(EmptyStack(index));
      }
      var n := stack.Pop();
      if !n.value.Int? {
        return Failed(WrongDataType(index));
      }
      stack.Push(Int(Negate(n.value.n)));
      status := Done;
    }

    /** `GreaterThanOperation.operate`. */
    method OperateGreaterThan(index: int) returns (status: Status)
      modifies stack
      ensures Result(State(), status) == GreaterThanStep(old(State()), index)
    {
      if stack.Size() < 2 {
        return Failed(EmptyStack(index));
      }
      ghost var s := stack.items;
      var n2 := stack.Pop();
      var n1 := stack.Pop();
      assert stack.items == Below(Below(s));
      if !n1.value.Int? {
        return Failed(WrongDataType(index));
      }
      if !n2.value.Int? {
        return Failed(WrongDataType(index));
      }
      stack.Push(Int(if n1.value.n > n2.value.n then TRUE else FALSE));
      status := Done;
    }

    /** `ReadCharacterOperation.operate`. */
    method OperateReadCharacter() returns (status: Status)
      modifies stack, stdinout
      ensures Result(State(), status) == ReadCharacterStep(old(State()))
    {
      var c := stdinout.ReadCharacter();
      stack.Push(Int(c));
      status := Done;
    }

    /** `IfOperation.operate`. */
    method OperateIf(sem: Semantics, index: int, fuel: nat) returns (status: Status)
      modifies this`variables, this`polls, stack, stdinout, indicator
      ensures Result(State(), status) == RunOp(sem, abort, Instr(index, If), old(State()), fuel)
      decreases fuel, 0
    {
      if stack.Size() < 2 {
        return Failed(EmptyStack(index));
      }
      var func := stack.Pop();
      var boolean := stack.Pop();
      if Truth(boolean.value).None? {
        return Failed(WrongDataType(index));
      }
      if !func.value.Fn? {
        return Failed(WrongDataType(index));
      }
      if boolean.value == Int(TRUE) {
        if fuel == 0 {
          return OutOfFuel;
        }
        status := OperateGroup(sem, func.value.body, fuel - 1);
      } else {
        status := Done;
      }
    }

    /** `WhileOperation.evaluateCondition`: run the condition, then pop the boolean it left. */
    method EvaluateCondition(sem: Semantics, index: int, cond: seq<Op>, fuel: nat) returns (status: Status, holds: bool)
      modifies this`variables, this`polls, stack, stdinout, indicator
      ensures var c := RunGroup(sem, abort, cond, old(State()), fuel);
        if !c.status.Done? then Result(State(), status) == c
        else match ConditionStep(c.env, index)
          case Broken(r) => Result(State(), status) == r
          case Proceed(e, h) => status == Done && State() == e && holds == h
      decreases fuel, 2
    {
      holds := false;
      status := OperateGroup(sem, cond, fuel);
      if !status.Done? {
        return;
      }
      var n := stack.Pop();
      if n.None? {
        return Failed(EmptyStack(index)), false;
      }
      if Truth(n.value).None? {
        return Failed(WrongDataType(index)), false;
      }
      holds := n.value == Int(TRUE);
    }

    /** `WhileOperation.operate`: the loop runs while the flag is not set and the condition holds. */
    method OperateWhile(sem: Semantics, index: int, fuel: nat) returns (status: Status)
      modifies this`variables, this`polls, stack, stdinout, indicator
      ensures Result(State(), status) == RunOp(sem, abort, Instr(index, While), old(State()), fuel)
      decreases fuel, 0, 1
    {
      if stack.Size() < 2 {
        return Failed(EmptyStack(index));
      }
      var func := stack.Pop();
      var boolfunc := stack.Pop();
      if !boolfunc.value.Fn? {
        return Failed(WrongDataType(index));
      }
      if !func.value.Fn? {
        return Failed(WrongDataType(index));
      }
      var cond := boolfunc.value.body;
      var body := func.value.body;
      ghost var start := State();
      var f: nat := fuel;
      while true
        invariant f <= fuel
        invariant RunWhile(sem, abort, index, cond, body, start, fuel) == RunWhile(sem, abort, index, cond, body, State(), f)
        decreases f
      {
        var again;
        status, again := WhileRound(sem, index, cond, body, f);
        if !again {
          return;
        }
        f := f - 1;
      }
    }

    /** One round of the loop of `WhileOperation.operate`: ask for the flag, evaluate the condition, run the body. */
    method WhileRound(sem: Semantics, index: int, cond: seq<Op>, body: seq<Op>, f: nat) returns (status: Status, again: bool)
      modifies this`variables, this`polls, stack, stdinout, indicator
      ensures again ==> 0 < f && RunWhile(sem, abort, index, cond, body, old(State()), f)
                                  == RunWhile(sem, abort, index, cond, body, State(), f - 1)
      ensures !again ==> Result(State(), status) == RunWhile(sem, abort, index, cond, body, old(State()), f)
      decreases f, 0, 0
    {
      again := false;
      var aborted := Poll();
      if aborted {
        return Done, false;
      }
      if f == 0 {
        return OutOfFuel, false;
      }
      var holds;
      status, holds := EvaluateCondition(sem, index, cond, f - 1);
      if !status.Done? || !holds {
        return;
      }
      status := OperateGroup(sem, body, f - 1);
      again := status.Done?;
    }

    /** `operate` of one operation. */
    method Operate(sem: Semantics, op: Op, fuel: nat) returns (status: Status)
      modifies this`variables, this`polls, stack, stdinout, indicator
      ensures Result(State(), status) == RunOp(sem, abort, op, old(State()), fuel)
      decreases fuel, 1, op
    {
      match op
      case IntegerValue(_, v) =>
        stack.Push(Int(v));
        status := Done;
      case PrintString(_, s) =>
        stdinout.WriteString(s);
        status := Done;
      case Assembly(_, _) =>
        status := Done;
      case Instr(index, UnaryMinus) =>
        status := OperateUnaryMinus(index);
      case Instr(index, GreaterThan) =>
        status := OperateGreaterThan(index);
      case Instr(_, ReadCharacter) =>
        status := OperateReadCharacter();
      case Instr(index, If) =>
        status := OperateIf(sem, index, fuel);
      case Instr(index, While) =>
        status := OperateWhile(sem, index, fuel);
      case _ =>
        status := ApplyEffect(sem(op, State()));
    }

    /** `OperationGroup.operate`: before each child, ask for the flag and stop when it is set. */
    method OperateGroup(sem: Semantics, ops: seq<Op>, fuel: nat) returns (status: Status)
      modifies this`variables, this`polls, stack, stdinout, indicator
      ensures Result(State(), status) == RunGroup(sem, abort, ops, old(State()), fuel)
      decreases fuel, 1, ops
    {
      var i := 0;
      while i < |ops|
        invariant 0 <= i <= |ops|
        invariant RunGroup(sem, abort, ops, old(State()), fuel) == RunGroup(sem, abort, ops[i..], State(), fuel)
      {
        assert ops[i..][0] == ops[i] && ops[i..][1..] == ops[i + 1..];
        var aborted := Poll();
        if aborted {
          return Done;
        }
        status := Operate(sem, ops[i], fuel);
        if !status.Done? {
          return;
        }
        i := i + 1;
      }
      status := Done;
    }

    /**
     * `execute`: the listener hears of the start, the program runs, the
     * listener hears of the end, and a caught error is thrown only when the
     * flag is not set. An unchecked exception leaves at once.
     */
    method Execute(sem: Semantics, fuel: nat) returns (thrown: Option<Throwable>, outOfFuel: bool)
      modifies this`variables, this`polls, this`events, stack, stdinout, indicator
      ensures var x := Machine.Execute(sem, abort, program, old(State()), fuel, listening);
        events == old(events) + x.events && State() == x.env && thrown == x.thrown && outOfFuel == x.outOfFuel
    {
      if listening {
        events := events + [ExecutionStarted];
      }
      var status := OperateGroup(sem, program, fuel);
      outOfFuel := status.OutOfFuel?;
      thrown := None;
      if status.Crashed? {
        thrown := Some(Unchecked(status.exception));
        return;
      }
      if listening {
        events := events + [ExecutionEnded];
      }
      if status.Failed? {
        var aborted := Poll();
        if !aborted {
          thrown := Some(Error(status.error));
        }
      }
    }
  }
}
