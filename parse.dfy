/**
 * The compiler's last pass: turns stripped, validated code into the
 * operation tree, numbering every operation with one shared occurrence
 * counter. The parser trusts its input; on code the validator lets through
 * it can still hit the end of the code or an integer literal out of range,
 * and those failures are part of the model.
 */
module Parser {
  import opened JavaTypes
  import opened FalseLanguageDefinition
  import opened Operations
  import opened OccurrenceCounting

  /** The run-time exceptions `parse` can raise. */
  datatype ParseCrash = IndexOutOfBounds | NumberFormat

  datatype ParseOutcome = Parsed(ops: seq<Op>, counter: int) | ParseFailure(crash: ParseCrash)

  /** The instruction a one-character operator stands for. */
  function InstructionOf(c: JChar): Option<Instruction>
  {
    if c == ASSIGN_OPERATOR then Some(Assign)
    else if c == READ_OPERATOR then Some(Read)
    else if c == EXECUTE_OPERATOR then Some(Execute)
    else if c == ADD_OPERATOR then Some(Add)
    else if c == SUBTRACT_OPERATOR then Some(Subtract)
    else if c == MULTIPLY_OPERATOR then Some(Multiply)
    else if c == DIVIDE_OPERATOR then Some(Divide)
    else if c == UNARYMINUS_OPERATOR then Some(UnaryMinus)
    else if c == EQUALS_OPERATOR then Some(Equals)
    else if c == GREATER_OPERATOR then Some(GreaterThan)
    else if c == AND_OPERATOR then Some(And)
    else if c == OR_OPERATOR then Some(Or)
    else if c == NOT_OPERATOR then Some(Not)
    else if c == DUPLICATE_OPERATOR then Some(Duplicate)
    else if c == DELETE_OPERATOR then Some(Delete)
    else if c == SWAP_OPERATOR then Some(Swap)
    else if c == ROTATE_OPERATOR then Some(Rotate)
    else if c == PICK_OPERATOR || c == PICK_OPERATOR_COMPAT then Some(Pick)
    else if c == IF_OPERATOR then Some(If)
    else if c == WHILE_OPERATOR then Some(While)
    else if c == PRINT_NUMBER_OPERATION then Some(PrintNumber)
    else if c == PRINT_CHARACTER_OPERATION then Some(PrintCharacter)
    else if c == READ_CHARACTER_OPERATOR then Some(ReadCharacter)
    else if c == FLUSH_STREAM_OPERATOR || c == FLUSH_STREAM_OPERATOR_COMPAT then Some(Flush)
    else None
  }

  /** Exactly the operator characters stand for an instruction. */
  lemma InstructionOfOperators(c: JChar)
    ensures InstructionOf(c).Some? <==> c in OPERATORS
  {
  }

  /** The two spellings of pick and of flush compile to the same instruction. */
  lemma CompatSpellings()
    ensures InstructionOf(PICK_OPERATOR) == InstructionOf(PICK_OPERATOR_COMPAT) == Some(Pick)
    ensures InstructionOf(FLUSH_STREAM_OPERATOR) == InstructionOf(FLUSH_STREAM_OPERATOR_COMPAT) == Some(Flush)
  {
  }

  /**
   * The search for the `]` that closes a lambda, from `end` at nesting
   * `level`: every `[` and `]` counts, inside strings and character
   * literals too. `None` when the search runs off the end of the code.
   */
  function LambdaEnd(code: JString, end: nat, level: int): (r: Option<nat>)
    decreases |code| - end
    ensures r.Some? ==> end <= r.value < |code| && code[r.value] == LAMBDA_END
  {
    if end >= |code| then None
    else if code[end] == LAMBDA_END && !(level > 0) then Some(end)
    else LambdaEnd(code, end + 1, if code[end] == LAMBDA_BEGIN then level + 1
                                  else if code[end] == LAMBDA_END then level - 1 else level)
  }

  /** The search for the `"` that closes a string, from `end`. */
  function QuoteEnd(code: JString, end: nat): (r: Option<nat>)
    decreases |code| - end
    ensures r.Some? ==> end <= r.value < |code| && code[r.value] == PRINT_STRING_OPERATION
    ensures r.Some? ==> forall k :: end <= k < r.value ==> code[k] != PRINT_STRING_OPERATION
    ensures r.None? ==> forall k :: end <= k < |code| ==> code[k] != PRINT_STRING_OPERATION
  {
    if end >= |code| then None
    else if code[end] == PRINT_STRING_OPERATION then Some(end)
    else QuoteEnd(code, end + 1)
  }

  /** The end of the run of digits that starts at `end`. */
  function DigitsEnd(code: JString, end: nat): (r: nat)
    requires end <= |code|
    decreases |code| - end
    ensures end <= r <= |code|
    ensures forall k :: end <= k < r ==> IsDigit(code[k])
    ensures r < |code| ==> !IsDigit(code[r])
  {
    if end < |code| && IsDigit(code[end]) then DigitsEnd(code, end + 1) else end
  }

  /** `Integer.parseInt` on a run of digits: fails above the largest int. */
  function ParseInt(digits: JString): (r: Option<Int32>)
    ensures r.Some? <==> DigitsValue(digits) <= INT_MAX as int
    ensures r.Some? ==> r.value as int == DigitsValue(digits)
  {
    if DigitsValue(digits) <= INT_MAX as int then Some(DigitsValue(digits) as Int32) else None
  }

  /** `op` in front of what the rest of the code parses to. */
  function Prepend(op: Op, rest: ParseOutcome): ParseOutcome
  {
    if rest.Parsed? then Parsed([op] + rest.ops, rest.counter) else rest
  }

  /** The operations parsed so far in front of what the rest parses to. */
  function PrependAll(ops: seq<Op>, rest: ParseOutcome): ParseOutcome
  {
    if rest.Parsed? then Parsed(ops + rest.ops, rest.counter) else rest
  }

  /**
   * What one turn of the loop of `parse` reads at `i`: the operation, if
   * the character there means one, where the loop goes on and where the
   * counter then stands; or the exception raised.
   */
  datatype Token = Token(op: Option<Op>, next: nat, counter: int) | TokenFailure(crash: ParseCrash)

  /**
   * The token at `i` with the counter standing at `ctr`. An operation takes
   * the next count; a lambda takes it before its body is parsed.
   * Characters without meaning are skipped.
   */
  function TokenAt(code: JString, i: nat, ctr: int): (t: Token)
    requires i < |code|
    decreases |code|, |code| - i, 0
    ensures t.Token? ==> i < t.next <= |code|
  {
    var c := code[i];
    if c == LAMBDA_BEGIN then
      match LambdaEnd(code, i + 1, 0)
      case None => TokenFailure(IndexOutOfBounds)
      case Some(end) =>
        match ParseFrom(code[i + 1..end], 0, ctr + 1)
        case ParseFailure(e) => TokenFailure(e)
        case Parsed(body, c1) => Token(Some(Lambda(ctr + 1, body)), end + 1, c1)
    else if c == PRINT_STRING_OPERATION then
      match QuoteEnd(code, i + 1)
      case None => TokenFailure(IndexOutOfBounds)
      case Some(end) => Token(Some(PrintString(ctr + 1, code[i + 1..end])), end + 1, ctr + 1)
    else if IsVariableName(c) then Token(Some(VariableAddress(ctr + 1, c)), i + 1, ctr + 1)
    else if IsDigit(c) then
      var end := DigitsEnd(code, i);
      match ParseInt(code[i..end])
      case None => TokenFailure(NumberFormat)
      case Some(v) =>
        // the assembly marker is looked for one place too far on
        var op := if |code| >= end + 2 && code[end + 1] == INLINE_ASSEMBLY_DECLARATION
                  then Assembly(ctr + 1, v) else IntegerValue(ctr + 1, v);
        Token(Some(op), end, ctr + 1)
    else if c == CHARACTER_DECLARATION then
      if i + 1 < |code| then Token(Some(CharacterValue(ctr + 1, code[i + 1])), i + 2, ctr + 1)
      else TokenFailure(IndexOutOfBounds)
    else
      match InstructionOf(c)
      case Some(k) => Token(Some(Instr(ctr + 1, k)), i + 1, ctr + 1)
      case None => Token(None, i + 1, ctr)
  }

  /**
   * Reference definition of `parse` on `code` from index `i`, with the
   * occurrence counter standing at `ctr`: the operations and where the
   * counter stops, or the exception raised.
   */
  function ParseFrom(code: JString, i: nat, ctr: int): ParseOutcome
    decreases |code|, |code| - i, 1
  {
    if i >= |code| then Parsed([], ctr)
    else
      match TokenAt(code, i, ctr)
      case TokenFailure(e) => ParseFailure(e)
      case Token(op, next, c1) => PrependOption(op, ParseFrom(code, next, c1))
  }

  /** The operation parsed, if any, in front of what the rest parses to. */
  function PrependOption(op: Option<Op>, rest: ParseOutcome): ParseOutcome
  {
    if op.Some? then Prepend(op.value, rest) else rest
  }

  /** `parse(code)`: parsing with a fresh counter. */
  function ParseSpec(code: JString): ParseOutcome
  {
    ParseFrom(code, 0, 0)
  }

  lemma PrependAllStep(ops: seq<Op>, op: Op, rest: ParseOutcome)
    ensures PrependAll(ops, Prepend(op, rest)) == PrependAll(ops + [op], rest)
  {
    if rest.Parsed? {
      assert ops + ([op] + rest.ops) == ops + [op] + rest.ops;
    }
  }

  /** The bracket search of `parse`, as a loop. */
  method FindLambdaEnd(code: JString, start: nat) returns (r: Option<nat>)
    ensures r == LambdaEnd(code, start, 0)
  {
    var end := start;
    var level := 0;
    while end < |code| && (code[end] != LAMBDA_END || level > 0)
      invariant start <= end
      invariant LambdaEnd(code, end, level) == LambdaEnd(code, start, 0)
      decreases |code| - end
    {
      if code[end] == LAMBDA_BEGIN {
        level := level + 1;
      } else if code[end] == LAMBDA_END {
        level := level - 1;
      }
      end := end + 1;
    }
    // `charAt` on the index past the end raises the exception
    r := if end < |code| then Some(end) else None;
  }

  /** The quote search of `parse`, as a loop. */
  method FindQuoteEnd(code: JString, start: nat) returns (r: Option<nat>)
    ensures r == QuoteEnd(code, start)
  {
    var end := start;
    while end < |code| && code[end] != PRINT_STRING_OPERATION
      invariant start <= end
      invariant QuoteEnd(code, end) == QuoteEnd(code, start)
      decreases |code| - end
    {
      end := end + 1;
    }
    r := if end < |code| then Some(end) else None;
  }

  /** The digit search of `parse`, as a loop. */
  method FindDigitsEnd(code: JString, start: nat) returns (end: nat)
    requires start <= |code|
    ensures end == DigitsEnd(code, start)
  {
    end := start;
    while end < |code| && IsDigit(code[end])
      invariant start <= end <= |code|
      invariant DigitsEnd(code, end) == DigitsEnd(code, start)
      decreases |code| - end
    {
      end := end + 1;
    }
  }

  /**
   * `parse(code, ctr)`: one pass over the code that calls itself on the
   * body of every lambda with the same counter. `crash` is the exception
   * raised, if any; then `program` means nothing.
   */
  method Parse(code: JString, ctr: OccurrenceCounter) returns (program: seq<Op>, crash: Option<ParseCrash>)
    modifies ctr
    decreases |code|, 1
    ensures crash.None? ==> ParseFrom(code, 0, old(ctr.ctr)) == Parsed(program, ctr.ctr)
    ensures crash.Some? ==> ParseFrom(code, 0, old(ctr.ctr)) == ParseFailure(crash.value)
  {
    program := [];
    ghost var c0 := ctr.ctr;
    var i := 0;
    while i < |code|
      invariant 0 <= i <= |code|
      invariant ParseFrom(code, 0, c0) == PrependAll(program, ParseFrom(code, i, ctr.ctr))
      decreases |code| - i
    {
      ghost var before := ctr.ctr;
      var op, next, failed := ParseToken(code, i, ctr);
      if failed.Some? {
        return program, failed;
      }
      if op.Some? {
        PrependAllStep(program, op.value, ParseFrom(code, next, ctr.ctr));
        program := program + [op.value];
      }
      i := next;
    }
    assert program + [] == program;
    crash := None;
  }

  /**
   * One turn of the loop of `parse`: the operation that starts at `i`, if
   * the character there means one, and where the loop goes on.
   */
  method ParseToken(code: JString, i: nat, ctr: OccurrenceCounter)
    returns (op: Option<Op>, next: nat, crash: Option<ParseCrash>)
    requires i < |code|
    modifies ctr
    decreases |code|, 0
    ensures crash.Some? ==> TokenAt(code, i, old(ctr.ctr)) == TokenFailure(crash.value)
    ensures crash.None? ==> TokenAt(code, i, old(ctr.ctr)) == Token(op, next, ctr.ctr)
  {
    var c := code[i];
    op, next, crash := None, i + 1, None;
    if c == LAMBDA_BEGIN {
      var found := FindLambdaEnd(code, i + 1);
      if found.None? {
        crash := Some(IndexOutOfBounds);
        return;
      }
      var end := found.value;
      var index := ctr.Count();
      var body, failed := Parse(code[i + 1..end], ctr);
      if failed.Some? {
        crash := failed;
        return;
      }
      op, next := Some(Lambda(index, body)), end + 1;
    } else if c == PRINT_STRING_OPERATION {
      var found := FindQuoteEnd(code, i + 1);
      if found.None? {
        crash := Some(IndexOutOfBounds);
        return;
      }
      var end := found.value;
      var index := ctr.Count();
      op, next := Some(PrintString(index, code[i + 1..end])), end + 1;
    } else if IsVariableName(c) {
      var index := ctr.Count();
      op := Some(VariableAddress(index, c));
    } else if IsDigit(c) {
      var end := FindDigitsEnd(code, i);
      var index := ctr.Count();
      var value := ParseInt(code[i..end]);
      if value.None? {
        crash := Some(NumberFormat);
        return;
      }
      if |code| >= end + 2 && code[end + 1] == INLINE_ASSEMBLY_DECLARATION {
        op := Some(Assembly(index, value.value));
      } else {
        op := Some(IntegerValue(index, value.value));
      }
      next := end;
    } else if c == CHARACTER_DECLARATION {
      if i + 1 >= |code| {
        crash := Some(IndexOutOfBounds);
        return;
      }
      var index := ctr.Count();
      op, next := Some(CharacterValue(index, code[i + 1])), i + 2;
    } else {
      var kind := InstructionOf(c);
      if kind.Some? {
        var index := ctr.Count();
        op := Some(Instr(index, kind.value));
      }
    }
  }

  /** `parse(code)`: parsing with a new counter. */
  method ParseProgram(code: JString) returns (program: seq<Op>, crash: Option<ParseCrash>)
    ensures crash.None? ==> ParseSpec(code).Parsed? && program == ParseSpec(code).ops
    ensures crash.Some? ==> ParseSpec(code) == ParseFailure(crash.value)
  {
    var ctr := new OccurrenceCounter();
    program, crash := Parse(code, ctr);
  }

  /**
   * A successful parse numbers its operations as the counter would: the
   * tree comes out exactly as renumbering it from the starting count
   * gives it, and the counter stops where renumbering stops.
   */
  lemma {:induction false} ParseIsNumbered(code: JString, i: nat, ctr: int)
    requires ParseFrom(code, i, ctr).Parsed?
    ensures Renumber(ParseFrom(code, i, ctr).ops, ctr) == (ParseFrom(code, i, ctr).ops, ParseFrom(code, i, ctr).counter)
    decreases |code|, |code| - i, 1
  {
    if i < |code| {
      var t := TokenAt(code, i, ctr);
      TokenIsNumbered(code, i, ctr);
      ParseIsNumbered(code, t.next, t.counter);
      if t.op.Some? {
        var rest := ParseFrom(code, t.next, t.counter);
        var ops := [t.op.value] + rest.ops;
        assert ops[0] == t.op.value && ops[1..] == rest.ops;
      }
    }
  }

  lemma {:induction false} TokenIsNumbered(code: JString, i: nat, ctr: int)
    requires i < |code| && TokenAt(code, i, ctr).Token?
    ensures var t := TokenAt(code, i, ctr);
      if t.op.Some? then RenumberOp(t.op.value, ctr) == (t.op.value, t.counter) else t.counter == ctr
    decreases |code|, |code| - i, 0
  {
    if code[i] == LAMBDA_BEGIN {
      var end := LambdaEnd(code, i + 1, 0).value;
      ParseIsNumbered(code[i + 1..end], 0, ctr + 1);
    }
  }

  /**
   * The indices `parse` hands out are consecutive from one on, in the
   * order of the code, a lambda before its body; so they are distinct.
   */
  lemma ParseIndicesAreConsecutive(code: JString)
    requires ParseSpec(code).Parsed?
    ensures 0 <= ParseSpec(code).counter
    ensures Indices(ParseSpec(code).ops) == Upto(0, ParseSpec(code).counter)
  {
    ParseIsNumbered(code, 0, 0);
    RenumberIsConsecutive(ParseSpec(code).ops, 0);
  }

  /** The nesting depth at the end of `s`: opened minus closed brackets. */
  function Balance(s: JString): int
  {
    if |s| == 0 then 0
    else Balance(s[..|s| - 1])
         + (if s[|s| - 1] == LAMBDA_BEGIN then 1 else if s[|s| - 1] == LAMBDA_END then -1 else 0)
  }

  /** A `]` at `p` that closes the lambda whose body starts at `start`. */
  predicate Closes(code: JString, start: nat, p: nat)
    requires start <= p < |code|
  {
    code[p] == LAMBDA_END && Balance(code[start..p]) <= 0
  }

  lemma {:induction false} LambdaEndScan(code: JString, start: nat, end: nat)
    requires start <= end <= |code|
    requires forall p :: start <= p < end ==> !Closes(code, start, p)
    ensures var r := LambdaEnd(code, end, Balance(code[start..end]));
      && (r.Some? ==> Closes(code, start, r.value) && forall p :: start <= p < r.value ==> !Closes(code, start, p))
      && (r.None? ==> forall p :: start <= p < |code| ==> !Closes(code, start, p))
    decreases |code| - end
  {
    if end < |code| {
      var level := Balance(code[start..end]);
      if !(code[end] == LAMBDA_END && !(level > 0)) {
        assert code[start..end + 1][..end - start] == code[start..end];
        LambdaEndScan(code, start, end + 1);
      }
    }
  }

  /**
   * The body of a lambda ends at the first `]` that brings the bracket
   * depth counted from the body's start down to zero; the search fails
   * exactly when there is no such `]`.
   */
  lemma LambdaEndIsFirstMatch(code: JString, start: nat)
    requires start <= |code|
    ensures LambdaEnd(code, start, 0).Some? ==>
      var e := LambdaEnd(code, start, 0).value;
      Closes(code, start, e) && forall p :: start <= p < e ==> !Closes(code, start, p)
    ensures LambdaEnd(code, start, 0).None? <==> forall p :: start <= p < |code| ==> !Closes(code, start, p)
  {
    assert code[start..start] == [];
    LambdaEndScan(code, start, start);
  }

  /** A number directly followed by the assembly marker is an integer literal. */
  lemma AssemblyMarkerRightAfterNumber()
    ensures ParseSpec(Str("12`")) == Parsed([IntegerValue(1, 12)], 1)
  {
    var code := Str("12`");
    assert DigitsEnd(code, 2) == 2;
    assert DigitsEnd(code, 1) == 2;
    assert DigitsEnd(code, 0) == 2;
    assert code[0..1][..0] == code[0..0];
    assert DigitsValue(code[0..1]) == 1;
    assert code[0..2][..1] == code[0..1];
    assert DigitsValue(code[0..2]) == 12;
    assert TokenAt(code, 2, 1) == Token(None, 3, 1);
    assert TokenAt(code, 0, 0) == Token(Some(IntegerValue(1, 12)), 2, 1);
  }

  /** The marker one character further on makes the number assembly. */
  lemma AssemblyMarkerOneFurther()
    ensures ParseSpec(Str("12;`")) == Parsed([Assembly(1, 12), Instr(2, Read)], 2)
  {
    var code := Str("12;`");
    assert DigitsEnd(code, 2) == 2;
    assert DigitsEnd(code, 1) == 2;
    assert DigitsEnd(code, 0) == 2;
    assert code[0..1][..0] == code[0..0];
    assert DigitsValue(code[0..1]) == 1;
    assert code[0..2][..1] == code[0..1];
    assert DigitsValue(code[0..2]) == 12;
    assert TokenAt(code, 3, 2) == Token(None, 4, 2);
    assert TokenAt(code, 2, 1) == Token(Some(Instr(2, Read)), 3, 2);
    assert TokenAt(code, 0, 0) == Token(Some(Assembly(1, 12)), 2, 1);
  }

  /** Integer literals are whatever `Integer.parseInt` accepts. */
  lemma IntegerLiteralRange()
    ensures ParseSpec(Str("2147483647")) == Parsed([IntegerValue(1, INT_MAX as Int32)], 1)
    ensures ParseSpec(Str("2147483648")) == ParseFailure(NumberFormat)
  {
    LargestIntegerParses();
    SmallestOverflowFails();
  }

  lemma LargestIntegerParses()
    ensures ParseSpec(Str("2147483647")) == Parsed([IntegerValue(1, INT_MAX as Int32)], 1)
  {
    var code := Str("2147483647");
    TenDigitsEnd(code);
    LargestIntegerValue();
    assert TokenAt(code, 0, 0) == Token(Some(IntegerValue(1, INT_MAX as Int32)), 10, 1);
  }

  lemma SmallestOverflowFails()
    ensures ParseSpec(Str("2147483648")) == ParseFailure(NumberFormat)
  {
    var code := Str("2147483648");
    TenDigitsEnd(code);
    SmallestOverflowValue();
  }

  /** A numeral of ten digits ends where the code ends. */
  lemma TenDigitsEnd(code: JString)
    requires |code| == 10 && forall k :: 0 <= k < 10 ==> IsDigit(code[k])
    ensures DigitsEnd(code, 0) == 10
  {
    assert DigitsEnd(code, 10) == 10;
    assert DigitsEnd(code, 9) == 10;
    assert DigitsEnd(code, 8) == 10;
    assert DigitsEnd(code, 7) == 10;
    assert DigitsEnd(code, 6) == 10;
    assert DigitsEnd(code, 5) == 10;
    assert DigitsEnd(code, 4) == 10;
    assert DigitsEnd(code, 3) == 10;
    assert DigitsEnd(code, 2) == 10;
    assert DigitsEnd(code, 1) == 10;
  }

  lemma LargestIntegerValue()
    ensures DigitsValue(Str("2147483647")[0..10]) == 2147483647
  {
    var code := Str("2147483647");
    assert code[0..1][..0] == code[0..0];
    assert DigitsValue(code[0..1]) == 2;
    assert code[0..2][..1] == code[0..1];
    assert DigitsValue(code[0..2]) == 21;
    assert code[0..3][..2] == code[0..2];
    assert DigitsValue(code[0..3]) == 214;
    assert code[0..4][..3] == code[0..3];
    assert DigitsValue(code[0..4]) == 2147;
    assert code[0..5][..4] == code[0..4];
    assert DigitsValue(code[0..5]) == 21474;
    assert code[0..6][..5] == code[0..5];
    assert DigitsValue(code[0..6]) == 214748;
    assert code[0..7][..6] == code[0..6];
    assert DigitsValue(code[0..7]) == 2147483;
    assert code[0..8][..7] == code[0..7];
    assert DigitsValue(code[0..8]) == 21474836;
    assert code[0..9][..8] == code[0..8];
    assert DigitsValue(code[0..9]) == 214748364;
    assert code[0..10][..9] == code[0..9];
    assert DigitsValue(code[0..10]) == 2147483647;
  }

  lemma SmallestOverflowValue()
    ensures DigitsValue(Str("2147483648")[0..10]) == 2147483648
  {
    var code := Str("2147483648");
    assert code[0..1][..0] == code[0..0];
    assert DigitsValue(code[0..1]) == 2;
    assert code[0..2][..1] == code[0..1];
    assert DigitsValue(code[0..2]) == 21;
    assert code[0..3][..2] == code[0..2];
    assert DigitsValue(code[0..3]) == 214;
    assert code[0..4][..3] == code[0..3];
    assert DigitsValue(code[0..4]) == 2147;
    assert code[0..5][..4] == code[0..4];
    assert DigitsValue(code[0..5]) == 21474;
    assert code[0..6][..5] == code[0..5];
    assert DigitsValue(code[0..6]) == 214748;
    assert code[0..7][..6] == code[0..6];
    assert DigitsValue(code[0..7]) == 2147483;
    assert code[0..8][..7] == code[0..7];
    assert DigitsValue(code[0..8]) == 21474836;
    assert code[0..9][..8] == code[0..8];
    assert DigitsValue(code[0..9]) == 214748364;
    assert code[0..10][..9] == code[0..9];
    assert DigitsValue(code[0..10]) == 2147483648;
  }

  /** A `]` inside a string ends the lambda around it. */
  lemma BracketInStringEndsLambda()
    ensures ParseSpec(Str("[\"]\"]")) == ParseFailure(IndexOutOfBounds)
  {
    var code := Str("[\"]\"]");
    assert LambdaEnd(code, 2, 0) == Some(2);
    assert LambdaEnd(code, 1, 0) == Some(2);
    assert code[1..2] == [PRINT_STRING_OPERATION];
    assert ParseFrom(code[1..2], 0, 1) == ParseFailure(IndexOutOfBounds);
  }
}
