/**
 * `compile`: the syntax check, then `strip`, then `parse`. Code with
 * syntax errors is rejected with every error found; code that passes the
 * check can still make the later passes raise an exception.
 */
module Compiler {
  import opened JavaTypes
  import opened Operations
  import opened CompileErrors
  import opened SyntaxCheck
  import opened Stripper
  import opened Parser

  /** The exception a later pass raised on code that passed the check. */
  datatype CompileCrash = StripCrash | ParseCrashed(crash: ParseCrash)

  datatype CompileOutcome =
    | Compiled(program: seq<Op>)
    | Rejected(errors: seq<CompilationError>)
    | Crashed(cause: CompileCrash)

  /** Reference definition of `compile`. */
  function CompileSpec(code: JString): CompileOutcome
  {
    var errors := SyntaxErrors(code);
    if |errors| > 0 then Rejected(errors)
    else
      match StripSpec(code)
      case StripOutOfBounds => Crashed(StripCrash)
      case Stripped(stripped) =>
        match ParseSpec(stripped)
        case ParseFailure(e) => Crashed(ParseCrashed(e))
        case Parsed(ops, _) => Compiled(ops)
  }

  /** `compile(code)`: a program, the collection of errors thrown, or a crash. */
  method Compile(code: JString) returns (r: CompileOutcome)
    ensures r == CompileSpec(code)
  {
    var errorStack, clean := FindSyntaxError(code);
    if !clean {
      return Rejected(errorStack.collectedErrors);
    }
    var stripped := Strip(code);
    if stripped.StripOutOfBounds? {
      return Crashed(StripCrash);
    }
    var program, crash := ParseProgram(stripped.code);
    if crash.Some? {
      return Crashed(ParseCrashed(crash.value));
    }
    r := Compiled(program);
  }

  /**
   * Code is rejected exactly when the check finds errors, and then with all
   * of them; strip and parse only see code without errors.
   */
  lemma RejectedIffErrors(code: JString)
    ensures CompileSpec(code).Rejected? <==> |SyntaxErrors(code)| > 0
    ensures CompileSpec(code).Rejected? ==> CompileSpec(code).errors == SyntaxErrors(code)
    ensures !CompileSpec(code).Rejected? ==> StripSpec(code).Stripped? || CompileSpec(code) == Crashed(StripCrash)
  {
  }

  /**
   * A compiled program is the parse of the stripped code, and its
   * operations are numbered 1, 2, ... in the order of the code.
   */
  lemma CompiledIsNumbered(code: JString)
    requires CompileSpec(code).Compiled?
    ensures SyntaxErrors(code) == [] && StripSpec(code).Stripped?
    ensures ParseSpec(StripSpec(code).code).Parsed?
    ensures var ops := CompileSpec(code).program;
      ops == ParseSpec(StripSpec(code).code).ops
      && 0 <= ParseSpec(StripSpec(code).code).counter
      && Indices(ops) == Upto(0, ParseSpec(StripSpec(code).code).counter)
  {
    ParseIndicesAreConsecutive(StripSpec(code).code);
  }

  /** Compiling compiled-away white space and comments changes nothing. */
  lemma CompileIgnoresStripping(code: JString)
    requires SyntaxErrors(code) == [] && StripSpec(code).Stripped?
    requires SyntaxErrors(StripSpec(code).code) == []
    ensures CompileSpec(StripSpec(code).code) == CompileSpec(code)
  {
    StripIsIdempotent(code);
  }

  /** White space after a trailing digit passes the check, and `strip` then fails. */
  lemma TrailingSpaceCrashes()
    ensures SyntaxErrors(Str("1 ")) == []
    ensures CompileSpec(Str("1 ")) == Crashed(StripCrash)
  {
    TrailingSpacePassesCheck();
    TrailingSpaceAfterDigitFails();
  }

  /** A digit and a space are no error to the check. */
  lemma TrailingSpacePassesCheck()
    ensures SyntaxErrors(Str("1 ")) == []
  {
    var code := Str("1 ");
    assert code[0] == JC('1') && code[1] == JC(' ');
    assert Step(code, START) == START.(i := 1);
    assert Step(code, START.(i := 1)) == START.(i := 2);
  }

  /** A `]` in a string inside a lambda is not counted by the check. */
  lemma BracketInStringPassesCheck()
    ensures SyntaxErrors(Str("[\"]\"]")) == []
  {
    var code := Str("[\"]\"]");
    assert code[0] == JC('[') && code[1] == JC('"') && code[2] == JC(']') && code[3] == JC('"') && code[4] == JC(']');
    var s1 := START.(functionLevel := 1, lastOpenedFunctionIndices := [0], i := 1);
    var s2 := s1.(lastString := 1, inString := true, i := 2);
    var s3 := s2.(i := 3);
    var s4 := s3.(lastString := 3, inString := false, i := 4);
    var s5 := s4.(functionLevel := 0, lastOpenedFunctionIndices := [], i := 5);
    assert Step(code, START) == s1;
    assert Step(code, s1) == s2;
    assert Step(code, s2) == s3;
    assert Step(code, s3) == s4;
    assert [0][..0] == [];
    assert Step(code, s4) == s5;
    assert ScanFrom(code, s4) == s5;
    assert ScanFrom(code, s2) == s5;
    assert ScanFrom(code, START) == s5;
  }

  /** A `]` in a string inside a lambda passes the check, and `parse` then fails. */
  lemma BracketInStringCrashes()
    ensures SyntaxErrors(Str("[\"]\"]")) == []
    ensures CompileSpec(Str("[\"]\"]")) == Crashed(ParseCrashed(IndexOutOfBounds))
  {
    BracketInStringPassesCheck();
    BracketInStringIsKept();
    BracketInStringEndsLambda();
  }
}
