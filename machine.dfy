/**
 * The stack machine that runs a compiled program, as functions: values, the
 * interpreter state, the abort flag that another thread may set, and the
 * meaning of every operation whose class is part of this model. The classes
 * in `interpreter.dfy` are proved to compute these functions.
 */
module Machine {
  import opened JavaTypes
  import opened FalseLanguageDefinition
  import opened Operations

  /** A value on the stack or in a variable: a Java `Integer` or a `Function`. */
  datatype Value = Int(n: Int32) | Fn(body: seq<Op>)

  /** The two interpreter errors, with the index of the instruction that raised them. */
  datatype InterpretError = EmptyStack(index: int) | WrongDataType(index: int)

  /**
   * The unchecked exceptions an operation can let escape: `pick` and `pop`
   * of `StackMemory` past its size, and `nextLine` on input that has no
   * line left.
   */
  datatype UncheckedException = ArrayIndexOutOfBounds | NoSuchElement

  /** What an operation throws: an interpreter error, or an unchecked exception that nothing catches. */
  datatype Throwable = Error(error: InterpretError) | Unchecked(exception: UncheckedException)

  /**
   * Everything an operation can see or change: the stack (top last), the
   * variables, the input buffer, the lines the input stream still holds,
   * the text written so far, the abort indicator's flag, and how often the
   * flag has been asked for so far.
   */
  datatype Env = Env(
    stack: seq<Value>,
    variables: map<JChar, Value>,
    buffer: JString,
    lines: seq<JString>,
    output: JString,
    aborted: bool,
    polls: nat)

  /**
   * When the other thread calls `abortExecution`: never, or just before the
   * flag is asked for the n-th time (counting from 0).
   */
  datatype AbortSchedule = Never | BeforePoll(n: nat)

  /**
   * How a run ended: normally (also when it stopped for an abort), with an
   * interpreter error, with an unchecked exception, or out of fuel.
   */
  datatype Status = Done | Failed(error: InterpretError) | Crashed(exception: UncheckedException) | OutOfFuel

  datatype Result = Result(env: Env, status: Status)

  /**
   * What an operation whose class is not part of this model does to the
   * state: the new stack, variables, buffer, remaining lines and output,
   * and what it throws, if anything. It cannot touch the abort flag.
   */
  datatype Effect = Effect(
    stack: seq<Value>,
    variables: map<JChar, Value>,
    buffer: JString,
    lines: seq<JString>,
    output: JString,
    error: Option<Throwable>)

  type Semantics = (Op, Env) -> Effect

  function Top(s: seq<Value>): Value
    requires |s| > 0
  {
    s[|s| - 1]
  }

  function Below(s: seq<Value>): seq<Value>
    requires |s| > 0
  {
    s[..|s| - 1]
  }

  function Push(env: Env, v: Value): Env
  {
    env.(stack := env.stack + [v])
  }

  /** `println`: the text and a line break. */
  function Line(s: JString): JString
  {
    s + [LF]
  }

  /** One call of `isToBeAborted`, after the other thread may have set the flag. */
  function Poll(env: Env, abort: AbortSchedule): Env
  {
    env.(aborted := env.aborted || abort == BeforePoll(env.polls), polls := env.polls + 1)
  }

  /** The truth a FALSE boolean stands for: -1 is true and 0 false; nothing else is a boolean. */
  function Truth(v: Value): (r: Option<bool>)
    ensures r.Some? <==> v == Int(TRUE) || v == Int(FALSE)
    ensures r == Some(true) <==> v == Int(TRUE)
  {
    match v
    case Int(n) => if n == TRUE then Some(true) else if n == FALSE then Some(false) else None
    case Fn(_) => None
  }

  function Apply(e: Effect, env: Env): Result
  {
    Result(
      env.(stack := e.stack, variables := e.variables, buffer := e.buffer, lines := e.lines, output := e.output),
      Outcome(e.error))
  }

  /** The status an operation ends with when it throws `t`, if anything. */
  function Outcome(t: Option<Throwable>): (s: Status)
    ensures s.Done? <==> t.None?
    ensures s.Failed? <==> t.Some? && t.value.Error?
    ensures s.Crashed? <==> t.Some? && t.value.Unchecked?
    ensures s.Failed? ==> t == Some(Error(s.error))
    ensures s.Crashed? ==> t == Some(Unchecked(s.exception))
  {
    match t
    case None => Done
    case Some(Error(e)) => Failed(e)
    case Some(Unchecked(x)) => Crashed(x)
  }

  /** `readCharacter`: the next buffered character's code and the rest of the buffer, or -1. */
  function ReadCharacter(buffer: JString): (r: (Int32, JString))
    ensures buffer == [] ==> r == (-1, buffer)
    ensures buffer != [] ==> r.0 as int == buffer[0] as int && [buffer[0]] + r.1 == buffer
  {
    if buffer == [] then (-1, buffer) else (buffer[0] as int as Int32, buffer[1..])
  }

  /** `_`: negate the top, which must be an integer. */
  function UnaryMinusStep(env: Env, index: int): (r: Result)
    ensures |env.stack| == 0 ==> r == Result(env, Failed(EmptyStack(index)))
    ensures |env.stack| > 0 && !Top(env.stack).Int? ==>
      r == Result(env.(stack := Below(env.stack)), Failed(WrongDataType(index)))
    ensures r.status.Done? <==> |env.stack| > 0 && Top(env.stack).Int?
    ensures r.status.Done? ==>
      r.env == env.(stack := Below(env.stack) + [Int(Negate(Top(env.stack).n))])
  {
    if |env.stack| == 0 then Result(env, Failed(EmptyStack(index)))
    else
      var e := env.(stack := Below(env.stack));
      match Top(env.stack)
      case Int(n) => Result(Push(e, Int(Negate(n))), Done)
      case Fn(_) => Result(e, Failed(WrongDataType(index)))
  }

  /** `>`: pop the top and the item below it; push whether the lower one is the greater. */
  function GreaterThanStep(env: Env, index: int): (r: Result)
    ensures |env.stack| < 2 ==> r == Result(env, Failed(EmptyStack(index)))
    ensures |env.stack| >= 2 ==>
      |env.stack| - 2 <= |r.env.stack| && r.env.stack[..|env.stack| - 2] == env.stack[..|env.stack| - 2]
    ensures |env.stack| >= 2 && !r.status.Done? ==>
      r == Result(env.(stack := env.stack[..|env.stack| - 2]), Failed(WrongDataType(index)))
    ensures r.status.Done? <==> |env.stack| >= 2 && env.stack[|env.stack| - 2].Int? && env.stack[|env.stack| - 1].Int?
    ensures r.status.Done? ==>
      r.env == env.(stack := r.env.stack) && |r.env.stack| == |env.stack| - 1
      && (Top(r.env.stack) == Int(TRUE) <==> env.stack[|env.stack| - 2].n > env.stack[|env.stack| - 1].n)
      && (Top(r.env.stack) == Int(TRUE) || Top(r.env.stack) == Int(FALSE))
  {
    if |env.stack| < 2 then Result(env, Failed(EmptyStack(index)))
    else
      var n2 := Top(env.stack);
      var n1 := Top(Below(env.stack));
      assert Below(Below(env.stack)) == env.stack[..|env.stack| - 2];
      var e := env.(stack := Below(Below(env.stack)));
      if !n1.Int? || !n2.Int? then Result(e, Failed(WrongDataType(index)))
      else Result(Push(e, Int(if n1.n > n2.n then TRUE else FALSE)), Done)
  }

  /** `^`: push the next input character's code, or -1 when the buffer is empty. */
  function ReadCharacterStep(env: Env): (r: Result)
    ensures r.status == Done
    ensures |r.env.stack| == |env.stack| + 1 && r.env.stack[..|env.stack|] == env.stack
    ensures env.buffer == [] ==> r.env == Push(env, Int(-1))
    ensures env.buffer != [] ==>
      r.env == Push(env, Int(env.buffer[0] as int as Int32)).(buffer := env.buffer[1..])
  {
    var (c, rest) := ReadCharacter(env.buffer);
    Result(Push(env, Int(c)).(buffer := rest), Done)
  }

  /** What `?` or `#` does before it runs a function: the functions it will run, or how it ended. */
  datatype Branch =
    | Run(body: seq<Op>, env: Env)
    | Loop(cond: seq<Op>, body: seq<Op>, env: Env)
    | Finish(r: Result)

  /** `?`: pop the function and the boolean below it, check the boolean first, then the function. */
  function IfStep(env: Env, index: int): (b: Branch)
    ensures |env.stack| < 2 ==> b == Finish(Result(env, Failed(EmptyStack(index))))
    ensures |env.stack| >= 2 && Truth(env.stack[|env.stack| - 2]).None? ==>
      b == Finish(Result(env.(stack := env.stack[..|env.stack| - 2]), Failed(WrongDataType(index))))
    ensures b.Run? <==>
      |env.stack| >= 2 && env.stack[|env.stack| - 2] == Int(TRUE) && Top(env.stack).Fn?
    ensures b.Run? ==> b.body == Top(env.stack).body && b.env == env.(stack := env.stack[..|env.stack| - 2])
    ensures !b.Loop?
    ensures b.Finish? && b.r.status.Done? <==>
      |env.stack| >= 2 && env.stack[|env.stack| - 2] == Int(FALSE) && Top(env.stack).Fn?
    ensures b.Finish? && |env.stack| >= 2 ==> b.r.env == env.(stack := env.stack[..|env.stack| - 2])
    ensures b.Finish? && !b.r.status.Done? ==> b.r.status.Failed?
  {
    if |env.stack| < 2 then Finish(Result(env, Failed(EmptyStack(index))))
    else
      var func := Top(env.stack);
      var boolean := Top(Below(env.stack));
      assert Below(Below(env.stack)) == env.stack[..|env.stack| - 2];
      var e := env.(stack := Below(Below(env.stack)));
      match Truth(boolean)
      case None => Finish(Result(e, Failed(WrongDataType(index))))
      case Some(holds) =>
        if !func.Fn? then Finish(Result(e, Failed(WrongDataType(index))))
        else if holds then Run(func.body, e)
        else Finish(Result(e, Done))
  }

  /** `#`: pop the body and the condition below it; both must be functions, the condition checked first. */
  function WhileStep(env: Env, index: int): (b: Branch)
    ensures |env.stack| < 2 ==> b == Finish(Result(env, Failed(EmptyStack(index))))
    ensures b.Loop? <==> |env.stack| >= 2 && env.stack[|env.stack| - 2].Fn? && Top(env.stack).Fn?
    ensures b.Loop? ==>
      b.cond == env.stack[|env.stack| - 2].body && b.body == Top(env.stack).body
      && b.env == env.(stack := env.stack[..|env.stack| - 2])
    ensures !b.Run?
    ensures |env.stack| >= 2 && !b.Loop? ==>
      b == Finish(Result(env.(stack := env.stack[..|env.stack| - 2]), Failed(WrongDataType(index))))
  {
    if |env.stack| < 2 then Finish(Result(env, Failed(EmptyStack(index))))
    else
      var func := Top(env.stack);
      var boolfunc := Top(Below(env.stack));
      assert Below(Below(env.stack)) == env.stack[..|env.stack| - 2];
      var e := env.(stack := Below(Below(env.stack)));
      if !boolfunc.Fn? || !func.Fn? then Finish(Result(e, Failed(WrongDataType(index))))
      else Loop(boolfunc.body, func.body, e)
  }

  /** The value a `#` condition left: whether it holds, or the error it makes. */
  datatype Condition = Proceed(env: Env, holds: bool) | Broken(r: Result)

  /** `evaluateCondition` after the condition ran: pop one value, which must be a boolean. */
  function ConditionStep(env: Env, index: int): (c: Condition)
    ensures |env.stack| == 0 ==> c == Broken(Result(env, Failed(EmptyStack(index))))
    ensures |env.stack| > 0 ==>
      (c.Proceed? <==> Truth(Top(env.stack)).Some?)
      && (c.Proceed? ==> c == Proceed(env.(stack := Below(env.stack)), Top(env.stack) == Int(TRUE)))
      && (c.Broken? ==> c.r == Result(env.(stack := Below(env.stack)), Failed(WrongDataType(index))))
  {
    if |env.stack| == 0 then Broken(Result(env, Failed(EmptyStack(index))))
    else
      var e := env.(stack := Below(env.stack));
      match Truth(Top(env.stack))
      case None => Broken(Result(e, Failed(WrongDataType(index))))
      case Some(holds) => Proceed(e, holds)
  }

  /**
   * `OperationGroup.operate`: before each child, ask for the abort flag and
   * stop if it is set; otherwise run the child; an error ends the group.
   */
  function RunGroup(sem: Semantics, abort: AbortSchedule, ops: seq<Op>, env: Env, fuel: nat): Result
    decreases fuel, 1, ops
  {
    if |ops| == 0 then Result(env, Done)
    else
      var polled := Poll(env, abort);
      if polled.aborted then Result(polled, Done)
      else
        var r := RunOp(sem, abort, ops[0], polled, fuel);
        if r.status.Done? then RunGroup(sem, abort, ops[1..], r.env, fuel) else r
  }

  /**
   * One operation's `operate`. Running a function costs one unit of fuel, and
   * so does every round of a `#` loop; the operations whose classes are not
   * part of this model do what `sem` says.
   */
  function RunOp(sem: Semantics, abort: AbortSchedule, op: Op, env: Env, fuel: nat): Result
    decreases fuel, 1, op
  {
    match op
    case IntegerValue(_, v) => Result(Push(env, Int(v)), Done)
    case PrintString(_, s) => Result(env.(output := env.output + Line(s)), Done)
    case Assembly(_, _) => Result(env, Done)
    case Instr(index, UnaryMinus) => UnaryMinusStep(env, index)
    case Instr(index, GreaterThan) => GreaterThanStep(env, index)
    case Instr(_, ReadCharacter) => ReadCharacterStep(env)
    case Instr(index, If) =>
      (match IfStep(env, index)
       case Run(body, e) => if fuel == 0 then Result(e, OutOfFuel) else RunGroup(sem, abort, body, e, fuel - 1)
       case Loop(_, _, e) => Result(e, Done)
       case Finish(r) => r)
    case Instr(index, While) =>
      (match WhileStep(env, index)
       case Loop(cond, body, e) => RunWhile(sem, abort, index, cond, body, e, fuel)
       case Run(_, e) => Result(e, Done)
       case Finish(r) => r)
    case _ => Apply(sem(op, env), env)
  }

  /** The loop of `#`: ask for the abort flag, run the condition, and run the body while it holds. */
  function RunWhile(sem: Semantics, abort: AbortSchedule, index: int, cond: seq<Op>, body: seq<Op>, env: Env, fuel: nat): Result
    decreases fuel, 0
  {
    var polled := Poll(env, abort);
    if polled.aborted then Result(polled, Done)
    else if fuel == 0 then Result(polled, OutOfFuel)
    else
      var c := RunGroup(sem, abort, cond, polled, fuel - 1);
      if !c.status.Done? then c
      else
        match ConditionStep(c.env, index)
        case Broken(r) => r
        case Proceed(e, holds) =>
          if !holds then Result(e, Done)
          else
            var b := RunGroup(sem, abort, body, e, fuel - 1);
            if b.status.Done? then RunWhile(sem, abort, index, cond, body, b.env, fuel - 1) else b
  }

  /** The calls the interpreter makes on its execution listener. */
  datatype Event = ExecutionStarted | ExecutionEnded

  /**
   * What `execute` leaves: the listener calls, the state, what it throws,
   * and whether the fuel ran out.
   */
  datatype Execution = Execution(events: seq<Event>, env: Env, thrown: Option<Throwable>, outOfFuel: bool)

  /**
   * `FalseInterpreter.execute`: tell the listener, run the program, tell the
   * listener again, and throw a caught error only when the abort flag,
   * asked for once more, is not set. An unchecked exception is not caught:
   * it leaves at once, so the listener does not hear of the end, the flag
   * is not asked for, and the exception escapes whatever the flag says.
   */
  function Execute(sem: Semantics, abort: AbortSchedule, program: seq<Op>, env: Env, fuel: nat, listening: bool): (x: Execution)
    ensures var r := RunGroup(sem, abort, program, env, fuel);
      x.events == if !listening then [] else if r.status.Crashed? then [ExecutionStarted] else [ExecutionStarted, ExecutionEnded]
    ensures var r := RunGroup(sem, abort, program, env, fuel);
      x.thrown.Some? <==> r.status.Crashed? || (r.status.Failed? && !x.env.aborted)
    ensures var r := RunGroup(sem, abort, program, env, fuel);
      x.thrown.Some? && x.thrown.value.Error? ==> r.status == Failed(x.thrown.value.error)
    ensures var r := RunGroup(sem, abort, program, env, fuel);
      r.status.Crashed? ==> x.thrown == Some(Unchecked(r.status.exception)) && x.env == r.env
    ensures env.aborted ==> x.thrown == None
  {
    var r := RunGroup(sem, abort, program, env, fuel);
    GroupKeepsAbort(sem, abort, program, env, fuel);
    if r.status.Crashed? then
      Execution(if listening then [ExecutionStarted] else [], r.env, Some(Unchecked(r.status.exception)), false)
    else
      var last := if r.status.Failed? then Poll(r.env, abort) else r.env;
      Execution(
        if listening then [ExecutionStarted, ExecutionEnded] else [],
        last,
        if r.status.Failed? && !last.aborted then Some(Error(r.status.error)) else None,
        r.status.OutOfFuel?)
  }

  /** The semantics of an operation that throws `t` and changes nothing else. */
  function Throwing(t: Throwable): Semantics
  {
    (op: Op, e: Env) => Effect(e.stack, e.variables, e.buffer, e.lines, e.output, Some(t))
  }

  /**
   * When the other thread sets the flag while a `ø` runs, an interpreter
   * error it raises is swallowed, but an unchecked exception it raises
   * escapes, and the listener hears only of the start.
   */
  lemma AbortSilencesOnlyInterpretErrors(env: Env)
    requires !env.aborted && env.polls == 0
    ensures Execute(Throwing(Error(EmptyStack(0))), BeforePoll(1), [Instr(0, Pick)], env, 0, true).thrown == None
    ensures var x := Execute(Throwing(Unchecked(ArrayIndexOutOfBounds)), BeforePoll(1), [Instr(0, Pick)], env, 0, true);
      x.thrown == Some(Unchecked(ArrayIndexOutOfBounds)) && x.events == [ExecutionStarted]
  {
  }

  /**
   * The abort flag is one way: a run never clears it, it is never set
   * without the other thread, and the flag is asked for at least as often as before.
   */
  lemma {:induction false} GroupKeepsAbort(sem: Semantics, abort: AbortSchedule, ops: seq<Op>, env: Env, fuel: nat)
    ensures env.aborted ==> RunGroup(sem, abort, ops, env, fuel).env.aborted
    ensures abort == Never && !env.aborted ==> !RunGroup(sem, abort, ops, env, fuel).env.aborted
    ensures env.polls <= RunGroup(sem, abort, ops, env, fuel).env.polls
    decreases fuel, 1, ops
  {
    if |ops| > 0 {
      var polled := Poll(env, abort);
      if !polled.aborted {
        OpKeepsAbort(sem, abort, ops[0], polled, fuel);
        var r := RunOp(sem, abort, ops[0], polled, fuel);
        if r.status.Done? {
          GroupKeepsAbort(sem, abort, ops[1..], r.env, fuel);
        }
      }
    }
  }

  lemma {:induction false} OpKeepsAbort(sem: Semantics, abort: AbortSchedule, op: Op, env: Env, fuel: nat)
    ensures env.aborted ==> RunOp(sem, abort, op, env, fuel).env.aborted
    ensures abort == Never && !env.aborted ==> !RunOp(sem, abort, op, env, fuel).env.aborted
    ensures env.polls <= RunOp(sem, abort, op, env, fuel).env.polls
    decreases fuel, 1, op
  {
    match op
    case Instr(index, If) =>
      match IfStep(env, index) {
        case Run(body, e) =>
          if fuel > 0 {
            GroupKeepsAbort(sem, abort, body, e, fuel - 1);
          }
        case Loop(_, _, _) =>
        case Finish(_) =>
      }
    case Instr(index, While) =>
      match WhileStep(env, index) {
        case Loop(cond, body, e) => WhileKeepsAbort(sem, abort, index, cond, body, e, fuel);
        case Run(_, _) =>
        case Finish(_) =>
      }
    case _ =>
  }

  lemma {:induction false} WhileKeepsAbort(sem: Semantics, abort: AbortSchedule, index: int, cond: seq<Op>, body: seq<Op>, env: Env, fuel: nat)
    ensures env.aborted ==> RunWhile(sem, abort, index, cond, body, env, fuel).env.aborted
    ensures abort == Never && !env.aborted ==> !RunWhile(sem, abort, index, cond, body, env, fuel).env.aborted
    ensures env.polls <= RunWhile(sem, abort, index, cond, body, env, fuel).env.polls
    decreases fuel, 0
  {
    var polled := Poll(env, abort);
    if !polled.aborted && fuel > 0 {
      GroupKeepsAbort(sem, abort, cond, polled, fuel - 1);
      var c := RunGroup(sem, abort, cond, polled, fuel - 1);
      if c.status.Done? {
        match ConditionStep(c.env, index)
        case Broken(_) =>
        case Proceed(e, holds) =>
          if holds {
            GroupKeepsAbort(sem, abort, body, e, fuel - 1);
            var b := RunGroup(sem, abort, body, e, fuel - 1);
            if b.status.Done? {
              WhileKeepsAbort(sem, abort, index, cond, body, b.env, fuel - 1);
            }
          }
      }
    }
  }

  /**
   * Running `a + b` is running `a` and then `b` on what `a` left: an error
   * in `a` ends the whole group, and once the flag is set after `a`, `b`
   * changes nothing but the count of polls.
   */
  lemma {:induction false} GroupConcat(sem: Semantics, abort: AbortSchedule, a: seq<Op>, b: seq<Op>, env: Env, fuel: nat)
    ensures var r := RunGroup(sem, abort, a, env, fuel);
      var whole := RunGroup(sem, abort, a + b, env, fuel);
      (r.status.Done? && !r.env.aborted ==> whole == RunGroup(sem, abort, b, r.env, fuel))
      && (!r.status.Done? ==> whole == r)
      && (r.status.Done? && r.env.aborted ==> whole.status == Done && whole.env == r.env.(polls := whole.env.polls))
  {
    if |a| == 0 {
      assert a + b == b;
      if env.aborted && |b| > 0 {
        assert RunGroup(sem, abort, b, env, fuel) == Result(Poll(env, abort), Done);
      }
    } else {
      assert (a + b)[0] == a[0];
      assert (a + b)[1..] == a[1..] + b;
      var polled := Poll(env, abort);
      if !polled.aborted {
        var r := RunOp(sem, abort, a[0], polled, fuel);
        if r.status.Done? {
          GroupConcat(sem, abort, a[1..], b, r.env, fuel);
        }
      }
    }
  }

  /** When the flag is set on entry, no child runs: only the one poll happens. */
  lemma AbortedGroupRunsNothing(sem: Semantics, abort: AbortSchedule, ops: seq<Op>, env: Env, fuel: nat)
    requires env.aborted
    ensures RunGroup(sem, abort, ops, env, fuel) == Result(if |ops| == 0 then env else env.(polls := env.polls + 1), Done)
  {
  }

  /**
   * Once the flag is set, no later child of the group runs: if the abort
   * comes during child `k`, the children after it change nothing.
   */
  lemma GroupStopsAfterAbort(sem: Semantics, abort: AbortSchedule, ops: seq<Op>, k: nat, env: Env, fuel: nat)
    requires k <= |ops|
    requires RunGroup(sem, abort, ops[..k], env, fuel).status.Done?
    requires RunGroup(sem, abort, ops[..k], env, fuel).env.aborted
    ensures var r := RunGroup(sem, abort, ops[..k], env, fuel);
      RunGroup(sem, abort, ops, env, fuel) == Result(r.env.(polls := RunGroup(sem, abort, ops, env, fuel).env.polls), Done)
  {
    assert ops == ops[..k] + ops[k..];
    GroupConcat(sem, abort, ops[..k], ops[k..], env, fuel);
  }

  /** A child's error ends the group at once: the children after it do not run. */
  lemma GroupStopsAtError(sem: Semantics, abort: AbortSchedule, ops: seq<Op>, k: nat, env: Env, fuel: nat)
    requires k <= |ops|
    requires !RunGroup(sem, abort, ops[..k], env, fuel).status.Done?
    ensures RunGroup(sem, abort, ops, env, fuel) == RunGroup(sem, abort, ops[..k], env, fuel)
  {
    assert ops == ops[..k] + ops[k..];
    GroupConcat(sem, abort, ops[..k], ops[k..], env, fuel);
  }

  /** The children run in list order, each on the state the one before left. */
  lemma GroupRunsInOrder(sem: Semantics, abort: AbortSchedule, ops: seq<Op>, k: nat, env: Env, fuel: nat)
    requires k < |ops|
    requires RunGroup(sem, abort, ops[..k], env, fuel).status.Done?
    requires !RunGroup(sem, abort, ops[..k], env, fuel).env.aborted
    ensures var before := RunGroup(sem, abort, ops[..k], env, fuel).env;
      var polled := Poll(before, abort);
      RunGroup(sem, abort, ops[..k + 1], env, fuel)
        == if polled.aborted then Result(polled, Done) else RunOp(sem, abort, ops[k], polled, fuel)
  {
    var before := RunGroup(sem, abort, ops[..k], env, fuel).env;
    assert ops[..k + 1] == ops[..k] + [ops[k]];
    GroupConcat(sem, abort, ops[..k], [ops[k]], env, fuel);
    var polled := Poll(before, abort);
    if !polled.aborted {
      var r := RunOp(sem, abort, ops[k], polled, fuel);
      assert [ops[k]][1..] == [];
    }
  }

  /** `?` with 0 below a function only removes the two items. */
  lemma IfFalseOnlyPops(sem: Semantics, abort: AbortSchedule, index: int, s: seq<Value>, body: seq<Op>, env: Env, fuel: nat)
    requires env.stack == s + [Int(FALSE), Fn(body)]
    ensures RunOp(sem, abort, Instr(index, If), env, fuel) == Result(env.(stack := s), Done)
  {
    assert env.stack[..|env.stack| - 2] == s;
  }

  /** `?` with -1 below a function runs the function on the rest of the stack. */
  lemma IfTrueRunsFunction(sem: Semantics, abort: AbortSchedule, index: int, s: seq<Value>, body: seq<Op>, env: Env, fuel: nat)
    requires env.stack == s + [Int(TRUE), Fn(body)] && fuel > 0
    ensures RunOp(sem, abort, Instr(index, If), env, fuel) == RunGroup(sem, abort, body, env.(stack := s), fuel - 1)
  {
    assert env.stack[..|env.stack| - 2] == s;
  }

  /** A `#` whose condition pushes 0 pops the two functions and the 0, and never runs its body. */
  lemma WhileFalseRunsNoBody(sem: Semantics, index: int, j: int, s: seq<Value>, body: seq<Op>, env: Env, fuel: nat)
    requires env.stack == s + [Fn([IntegerValue(j, FALSE)]), Fn(body)] && !env.aborted && fuel > 0
    ensures RunOp(sem, Never, Instr(index, While), env, fuel) == Result(env.(stack := s, polls := env.polls + 2), Done)
  {
    var e := env.(stack := s);
    assert env.stack[..|env.stack| - 2] == s;
    assert WhileStep(env, index) == Loop([IntegerValue(j, FALSE)], body, e);
    var polled := Poll(e, Never);
    var c := RunGroup(sem, Never, [IntegerValue(j, FALSE)], polled, fuel - 1);
    var p2 := Poll(polled, Never);
    assert !p2.aborted;
    assert RunOp(sem, Never, IntegerValue(j, FALSE), p2, fuel - 1) == Result(Push(p2, Int(FALSE)), Done);
    var cond := [IntegerValue(j, FALSE)];
    assert cond[0] == IntegerValue(j, FALSE) && cond[1..] == [];
    assert RunGroup(sem, Never, cond[1..], Push(p2, Int(FALSE)), fuel - 1) == Result(Push(p2, Int(FALSE)), Done);
    assert c == Result(Push(p2, Int(FALSE)), Done);
    assert Below(c.env.stack) == s;
  }

  /** A no-op (inline assembly) changes nothing and never fails. */
  lemma AssemblyChangesNothing(sem: Semantics, abort: AbortSchedule, index: int, v: Int32, env: Env, fuel: nat)
    ensures RunOp(sem, abort, Assembly(index, v), env, fuel) == Result(env, Done)
  {
  }

  /** An integer literal pushes exactly its value and changes nothing else. */
  lemma IntegerValuePushes(sem: Semantics, abort: AbortSchedule, index: int, v: Int32, env: Env, fuel: nat)
    ensures var r := RunOp(sem, abort, IntegerValue(index, v), env, fuel);
      r.status == Done && r.env.stack == env.stack + [Int(v)] && r.env == env.(stack := r.env.stack)
  {
  }

  /** A string is written once, followed by a line break; nothing else changes. */
  lemma PrintStringWrites(sem: Semantics, abort: AbortSchedule, index: int, s: JString, env: Env, fuel: nat)
    ensures var r := RunOp(sem, abort, PrintString(index, s), env, fuel);
      r.status == Done && r.env.output == env.output + s + [LF] && r.env == env.(output := r.env.output)
  {
  }
}
