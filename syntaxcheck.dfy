/**
 * The syntax check the compiler runs before anything else: one pass over
 * the source text that tracks comments, strings and lambda nesting and
 * collects every error it meets, then reports whatever is left open.
 */
module SyntaxCheck {
  import opened JavaTypes
  import opened FalseLanguageDefinition
  import opened CompileErrors
  import opened CodeSnippets

  const VARIABLE_INFO: JString :=
    Str("There must be an assigning or an reading operator following a variable adress!")

  /** The pass's state at the start of one iteration of its loop. */
  datatype Scan = Scan(
    i: nat,
    inString: bool,
    lastString: int,
    functionLevel: int,
    lastOpenedFunctionIndices: seq<int>,
    inComment: bool,
    lastOpenedComment: int,
    errors: seq<CompilationError>)

  const START: Scan := Scan(0, false, 0, 0, [], false, 0, [])

  /** A character without any meaning: no token, no variable name, no digit, no white space. */
  predicate Unresolvable(c: JChar)
  {
    !IsToken(c) && !IsVariableName(c) && !IsDigit(c) && !IsWhitespace(c)
  }

  /** The first index at or after `j` that does not hold white space. */
  function NextToken(code: JString, j: nat): (r: nat)
    ensures j <= r
    ensures r < |code| ==> !IsWhitespace(code[r])
    ensures forall k :: j <= k < r ==> k < |code| && IsWhitespace(code[k])
    decreases |code| - j
  {
    if j < |code| && IsWhitespace(code[j]) then NextToken(code, j + 1) else j
  }

  /** Outside comments and strings, or at the character that closes the one we are in. */
  predicate Active(code: JString, s: Scan)
    requires s.i < |code|
  {
    (!s.inComment || code[s.i] == COMMENT_END) && (!s.inString || code[s.i] == PRINT_STRING_OPERATION)
  }

  /** One iteration of the pass, on the character at `s.i`. */
  function Step(code: JString, s: Scan): (t: Scan)
    requires s.i < |code|
    ensures s.i < t.i <= s.i + 2
  {
    var i := s.i;
    var c := code[i];
    if !Active(code, s) then s.(i := i + 1)
    else if c == COMMENT_BEGIN then s.(inComment := true, lastOpenedComment := i, i := i + 1)
    else if c == COMMENT_END then
      if s.inComment then s.(inComment := false, i := i + 1)
      // a stray closer is reported and, falling into the next case, skips the following character
      else s.(errors := s.errors + [UnexpectedToken(i, Snippet(i, code), None)], i := i + 2)
    else if c == CHARACTER_DECLARATION then s.(i := i + 2)
    else if c == PRINT_STRING_OPERATION then s.(lastString := i, inString := !s.inString, i := i + 1)
    else if c == LAMBDA_BEGIN then
      s.(functionLevel := s.functionLevel + 1,
         lastOpenedFunctionIndices := s.lastOpenedFunctionIndices + [i], i := i + 1)
    else if c == LAMBDA_END then
      var open := s.lastOpenedFunctionIndices;
      var rest := if |open| > 0 then open[..|open| - 1] else open;
      if s.functionLevel - 1 < 0 then
        s.(functionLevel := 0, lastOpenedFunctionIndices := rest,
           errors := s.errors + [UnexpectedToken(i, Snippet(i, code), None)], i := i + 1)
      else
        s.(functionLevel := s.functionLevel - 1, lastOpenedFunctionIndices := rest, i := i + 1)
    else if c == INLINE_ASSEMBLY_DECLARATION || c in OPERATORS then s.(i := i + 1)
    else if !IsVariableName(c) && !IsDigit(c) && !IsWhitespace(c) then
      s.(errors := s.errors + [UnresolvedSymbol(i, Snippet(i, code), None)], i := i + 1)
    else if IsVariableName(c) then
      var next := NextToken(code, i + 1);
      if next < |code| && code[next] != READ_OPERATOR && code[next] != ASSIGN_OPERATOR then
        s.(errors := s.errors + [UnexpectedToken(next, Snippet(next, code), Some(VARIABLE_INFO))], i := i + 1)
      else if next >= |code| then
        s.(errors := s.errors + [UnexpectedEndOfCode(Snippet(i, code), Some(VARIABLE_INFO))], i := i + 1)
      else s.(i := i + 1)
    else s.(i := i + 1)
  }

  /** The rest of the pass from `s`: the state once the loop is over. */
  function ScanFrom(code: JString, s: Scan): Scan
    decreases |code| - s.i
  {
    if s.i >= |code| then s else ScanFrom(code, Step(code, s))
  }

  function UnclosedLambdas(code: JString, tokens: seq<int>): (r: seq<CompilationError>)
    ensures |r| == |tokens|
  {
    seq(|tokens|, k requires 0 <= k < |tokens| => UnclosedLiteral(tokens[k], Snippet(tokens[k], code)))
  }

  /** What the pass adds after its loop: the string, the comment and the lambdas left open, in this order. */
  function Unclosed(code: JString, s: Scan): seq<CompilationError>
  {
    OpenLiteral(code, s.inString, s.lastString)
    + OpenLiteral(code, s.inComment, s.lastOpenedComment)
    + (if s.functionLevel > 0 then UnclosedLambdas(code, s.lastOpenedFunctionIndices) else [])
  }

  /** The report of a string or comment literal opened at `token`, if it is still open. */
  function OpenLiteral(code: JString, open: bool, token: int): seq<CompilationError>
  {
    if open then [UnclosedLiteral(token, Snippet(token, code))] else []
  }

  /** Every error the pass reports when continued from `s`. */
  function ErrorsFrom(code: JString, s: Scan): seq<CompilationError>
  {
    var f := ScanFrom(code, s);
    f.errors + Unclosed(code, f)
  }

  /** Every error `findSyntaxError` collects for `code`; the code compiles only if there is none. */
  function SyntaxErrors(code: JString): seq<CompilationError>
  {
    ErrorsFrom(code, START)
  }

  /** The variable-name case: skips white space and demands `;` or `:` next. */
  method CheckVariableUse(code: JString, i: nat, errorStack: CompileErrorCollection)
    requires i < |code|
    modifies errorStack
    ensures var next := NextToken(code, i + 1);
      errorStack.collectedErrors == old(errorStack.collectedErrors)
        + (if next < |code| && code[next] != READ_OPERATOR && code[next] != ASSIGN_OPERATOR
           then [UnexpectedToken(next, Snippet(next, code), Some(VARIABLE_INFO))]
           else if next >= |code| then [UnexpectedEndOfCode(Snippet(i, code), Some(VARIABLE_INFO))]
           else [])
  {
    var nextToken := i + 1;
    while nextToken < |code| && IsWhitespace(code[nextToken])
      invariant i + 1 <= nextToken <= |code|
      invariant NextToken(code, nextToken) == NextToken(code, i + 1)
      decreases |code| - nextToken
    {
      nextToken := nextToken + 1;
    }
    if nextToken < |code| && code[nextToken] != READ_OPERATOR && code[nextToken] != ASSIGN_OPERATOR {
      var snippet := EvaluateCodeSnippet(nextToken, code);
      errorStack.AddError(UnexpectedToken(nextToken, snippet, Some(VARIABLE_INFO)));
    } else if nextToken >= |code| {
      var snippet := EvaluateCodeSnippet(i, code);
      errorStack.AddError(UnexpectedEndOfCode(snippet, Some(VARIABLE_INFO)));
    }
  }

  /** The body of the pass's loop: the switch on the character at `s.i`. */
  method ScanCharacter(code: JString, s: Scan, errorStack: CompileErrorCollection) returns (t: Scan)
    requires s.i < |code| && s.errors == errorStack.collectedErrors
    modifies errorStack
    ensures t == Step(code, s) && t.errors == errorStack.collectedErrors
  {
    var i := s.i;
    var c := code[i];
    t := s.(i := i + 1);
    if (!s.inComment || c == COMMENT_END) && (!s.inString || c == PRINT_STRING_OPERATION) {
      if c == COMMENT_BEGIN {
        t := t.(inComment := true, lastOpenedComment := i);
      } else if c == COMMENT_END {
        if s.inComment {
          t := t.(inComment := false);
        } else {
          var snippet := EvaluateCodeSnippet(i, code);
          errorStack.AddError(UnexpectedToken(i, snippet, None));
          t := t.(i := i + 2, errors := errorStack.collectedErrors);
        }
      } else if c == CHARACTER_DECLARATION {
        t := t.(i := i + 2);
      } else if c == PRINT_STRING_OPERATION {
        t := t.(lastString := i, inString := !s.inString);
      } else if c == LAMBDA_BEGIN {
        t := t.(functionLevel := s.functionLevel + 1,
                lastOpenedFunctionIndices := s.lastOpenedFunctionIndices + [i]);
      } else if c == LAMBDA_END {
        var level := s.functionLevel - 1;
        var open := s.lastOpenedFunctionIndices;
        if |open| > 0 {
          open := open[..|open| - 1];
        }
        if level < 0 {
          level := 0;
          var snippet := EvaluateCodeSnippet(i, code);
          errorStack.AddError(UnexpectedToken(i, snippet, None));
        }
        t := t.(functionLevel := level, lastOpenedFunctionIndices := open, errors := errorStack.collectedErrors);
      } else if c == INLINE_ASSEMBLY_DECLARATION || c in OPERATORS {
      } else if !IsVariableName(c) && !IsDigit(c) && !IsWhitespace(c) {
        var snippet := EvaluateCodeSnippet(i, code);
        errorStack.AddError(UnresolvedSymbol(i, snippet, None));
        t := t.(errors := errorStack.collectedErrors);
      } else if IsVariableName(c) {
        CheckVariableUse(code, i, errorStack);
        t := t.(errors := errorStack.collectedErrors);
      }
    }
  }

  lemma ScanFromStep(code: JString, s: Scan)
    requires s.i < |code|
    ensures ScanFrom(code, s) == ScanFrom(code, Step(code, s))
  {
  }

  /** The loop over the lambdas still open: one error each, innermost last. */
  method ReportUnclosedLambdas(code: JString, tokens: seq<int>, errorStack: CompileErrorCollection)
    modifies errorStack
    ensures errorStack.collectedErrors == old(errorStack.collectedErrors) + UnclosedLambdas(code, tokens)
  {
    var k := 0;
    while k < |tokens|
      invariant 0 <= k <= |tokens|
      invariant errorStack.collectedErrors == old(errorStack.collectedErrors) + UnclosedLambdas(code, tokens[..k])
    {
      var token := tokens[k];
      var snippet := EvaluateCodeSnippet(token, code);
      assert UnclosedLambdas(code, tokens[..k + 1])
          == UnclosedLambdas(code, tokens[..k]) + [UnclosedLiteral(token, snippet)];
      errorStack.AddError(UnclosedLiteral(token, snippet));
      k := k + 1;
    }
    assert tokens[..k] == tokens;
  }

  /** What follows the pass's loop: the literals left open are reported. */
  method ReportUnclosed(code: JString, s: Scan, errorStack: CompileErrorCollection)
    requires s.errors == errorStack.collectedErrors
    modifies errorStack
    ensures errorStack.collectedErrors == s.errors + Unclosed(code, s)
  {
    ReportIfOpen(code, s.inString, s.lastString, errorStack);
    ReportIfOpen(code, s.inComment, s.lastOpenedComment, errorStack);
    if s.functionLevel > 0 {
      ReportUnclosedLambdas(code, s.lastOpenedFunctionIndices, errorStack);
    }
  }

  /** The report of a string or comment literal still open at `token`. */
  method ReportIfOpen(code: JString, open: bool, token: int, errorStack: CompileErrorCollection)
    modifies errorStack
    ensures errorStack.collectedErrors == old(errorStack.collectedErrors) + OpenLiteral(code, open, token)
  {
    if open {
      var snippet := EvaluateCodeSnippet(token, code);
      errorStack.AddError(UnclosedLiteral(token, snippet));
    }
  }

  /** `findSyntaxError`: the pass as a loop over the characters of the code. */
  method FindSyntaxError(code: JString) returns (errorStack: CompileErrorCollection, clean: bool)
    ensures fresh(errorStack)
    ensures errorStack.collectedErrors == SyntaxErrors(code)
    ensures clean <==> |SyntaxErrors(code)| == 0
  {
    errorStack := new CompileErrorCollection();
    var s := START;
    while s.i < |code|
      invariant s.errors == errorStack.collectedErrors
      invariant ScanFrom(code, s) == ScanFrom(code, START)
      decreases |code| - s.i
    {
      ScanFromStep(code, s);
      s := ScanCharacter(code, s, errorStack);
    }
    assert ScanFrom(code, s) == s;
    ReportUnclosed(code, s, errorStack);
    clean := errorStack.Size() == 0;
  }

  /** The nesting level and the list of open lambdas move together. */
  predicate LevelMatchesOpen(s: Scan)
  {
    s.functionLevel == |s.lastOpenedFunctionIndices|
  }

  lemma {:induction false} ScanKeepsLevelMatched(code: JString, s: Scan)
    requires LevelMatchesOpen(s)
    ensures LevelMatchesOpen(ScanFrom(code, s))
    decreases |code| - s.i
  {
    if s.i < |code| {
      ScanKeepsLevelMatched(code, Step(code, s));
    }
  }

  /** The pass never takes an error back: the errors of `s` start the final report. */
  lemma {:induction false} ErrorsOnlyGrow(code: JString, s: Scan)
    ensures s.errors <= ScanFrom(code, s).errors
    decreases |code| - s.i
  {
    if s.i < |code| {
      ErrorsOnlyGrow(code, Step(code, s));
    }
  }

  /** The state after `n` iterations of the pass from `s`. */
  function Steps(code: JString, s: Scan, n: nat): Scan
    decreases n
  {
    if n == 0 || s.i >= |code| then s else Steps(code, Step(code, s), n - 1)
  }

  lemma {:induction false} StepsStayOnPath(code: JString, s: Scan, n: nat)
    ensures ScanFrom(code, Steps(code, s, n)) == ScanFrom(code, s)
    decreases n
  {
    if n > 0 && s.i < |code| {
      StepsStayOnPath(code, Step(code, s), n - 1);
    }
  }

  /**
   * Whenever the pass meets, outside comments and strings, a character
   * that means nothing, the report contains an unresolved-symbol error at
   * that index.
   */
  lemma UnresolvableIsReported(code: JString, n: nat)
    requires var t := Steps(code, START, n); t.i < |code| && Active(code, t) && Unresolvable(code[t.i])
    ensures var t := Steps(code, START, n); UnresolvedSymbol(t.i, Snippet(t.i, code), None) in SyntaxErrors(code)
  {
    var t := Steps(code, START, n);
    var e := UnresolvedSymbol(t.i, Snippet(t.i, code), None);
    assert Step(code, t).errors == t.errors + [e];
    StepsStayOnPath(code, START, n);
    ErrorsOnlyGrow(code, Step(code, t));
    var f := ScanFrom(code, START);
    assert f == ScanFrom(code, Step(code, t));
    assert f.errors[|t.errors|] == e;
  }

  /** Every unresolved-symbol error points at a character that means nothing. */
  predicate UnresolvedAreUnresolvable(code: JString, errors: seq<CompilationError>)
  {
    forall k :: 0 <= k < |errors| && errors[k].UnresolvedSymbol? ==>
      0 <= errors[k].pos < |code| && Unresolvable(code[errors[k].pos])
  }

  lemma {:induction false} ScanReportsOnlyUnresolvable(code: JString, s: Scan)
    requires UnresolvedAreUnresolvable(code, s.errors)
    ensures UnresolvedAreUnresolvable(code, ScanFrom(code, s).errors)
    decreases |code| - s.i
  {
    if s.i < |code| {
      var t := Step(code, s);
      assert UnresolvedAreUnresolvable(code, t.errors) by {
        var c := code[s.i];
        if t.errors != s.errors {
          var k := |t.errors| - 1;
          assert t.errors == s.errors + [t.errors[k]];
          if t.errors[k].UnresolvedSymbol? {
            assert !IsToken(c);
          }
        }
      }
      ScanReportsOnlyUnresolvable(code, t);
    }
  }

  /** No unresolved-symbol error is reported for a character that has a meaning. */
  lemma UnresolvedSymbolsAreUnresolvable(code: JString)
    ensures UnresolvedAreUnresolvable(code, SyntaxErrors(code))
  {
    ScanReportsOnlyUnresolvable(code, START);
    var f := ScanFrom(code, START);
    var u := Unclosed(code, f);
    assert forall k :: 0 <= k < |u| ==> u[k].UnclosedLiteral?;
  }

  /** Every lambda still open when the pass ends is reported, at its opening bracket. */
  lemma OpenLambdasAreReported(code: JString, t: int)
    requires t in ScanFrom(code, START).lastOpenedFunctionIndices
    ensures UnclosedLiteral(t, Snippet(t, code)) in SyntaxErrors(code)
  {
    ScanKeepsLevelMatched(code, START);
    var f := ScanFrom(code, START);
    var k :| 0 <= k < |f.lastOpenedFunctionIndices| && f.lastOpenedFunctionIndices[k] == t;
    var u := UnclosedLambdas(code, f.lastOpenedFunctionIndices);
    assert u[k] == UnclosedLiteral(t, Snippet(t, code));
    assert Unclosed(code, f)[|Unclosed(code, f)| - |u| + k] == u[k];
  }
}
