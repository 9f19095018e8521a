/**
 * The diagnostics of the FALSE compiler: the four kinds of compilation
 * error with the message each one formats, and the collection the syntax
 * check gathers them in and throws as one.
 */
module CompileErrors {
  import opened JavaTypes

  /**
   * One compile-time diagnostic. `pos` is an index into the source text,
   * `snippet` the excerpt of the source shown beside it and `info` the
   * optional explanation the longer constructors append on a line of its own.
   */
  datatype CompilationError =
    | UnexpectedToken(pos: int, snippet: JString, info: Option<JString>)
    | UnresolvedSymbol(pos: int, snippet: JString, info: Option<JString>)
    | UnexpectedEndOfCode(snippet: JString, info: Option<JString>)
    | UnclosedLiteral(pos: int, snippet: JString)

  /** The text a message starts with, before the position (or the snippet). */
  function Lead(e: CompilationError): JString
  {
    match e
    case UnexpectedToken(_, _, _) => Str("Unexpected symbol at index ")
    case UnresolvedSymbol(_, _, _) => Str("Unresolved symbol at index ")
    case UnexpectedEndOfCode(_, _) => Str("Unexpected end of code: ")
    case UnclosedLiteral(_, _) => Str("Literal at position ")
  }

  function AppendInfo(m: JString, info: Option<JString>): JString
  {
    match info
    case None => m
    case Some(t) => m + [LF] + t
  }

  /** `getMessage()` of a single error. */
  function Message(e: CompilationError): JString
  {
    match e
    case UnexpectedToken(pos, s, info) =>
      AppendInfo(Lead(e) + DecimalString(pos) + Str(": ") + s, info)
    case UnresolvedSymbol(pos, s, info) =>
      AppendInfo(Lead(e) + DecimalString(pos) + Str(": ") + s, info)
    case UnexpectedEndOfCode(s, info) =>
      AppendInfo(Lead(e) + s, info)
    case UnclosedLiteral(pos, s) =>
      Lead(e) + DecimalString(pos) + Str(" has not been closed: ") + s
  }

  /**
   * The longer constructors put the explanation on a line of its own after
   * the message the shorter constructor gives, so both can be read back.
   */
  lemma MessageWithInfo(e: CompilationError, t: JString)
    requires !e.UnclosedLiteral?
    ensures Message(e.(info := Some(t))) == Message(e.(info := None)) + [LF] + t
    ensures var short := Message(e.(info := None)); var long := Message(e.(info := Some(t)));
      |short| < |long| && long[..|short|] == short && long[|short|] == LF && long[|short| + 1..] == t
  {
  }

  /**
   * Every positioned message starts with its lead text followed by the
   * position in decimal, so the position can be read back from the message.
   */
  lemma MessageNamesPosition(e: CompilationError)
    requires !e.UnexpectedEndOfCode?
    ensures PositionAfter(Message(e), Lead(e), e.pos)
  {
    LeadAndPositionStartMessage(e);
    PositionAfterLead(Message(e), Lead(e), e.pos);
  }

  /** `m` starts with `lead`, and the decimal digits of `n` that follow it read back as `n`. */
  predicate PositionAfter(m: JString, lead: JString, n: int)
  {
    var k := |lead|; var d := DecimalString(n);
    k + |d| <= |m| && m[..k] == lead && ParseDecimal(m[k..k + |d|]) == n
  }

  /** A text that starts with `lead` and then `n` in decimal gives back `n`. */
  lemma PositionAfterLead(m: JString, lead: JString, n: int)
    requires IsPrefix(lead + DecimalString(n), m)
    ensures PositionAfter(m, lead, n)
  {
    SplitPrefix(lead, DecimalString(n), m);
    DecimalRoundTrip(n);
  }

  lemma LeadAndPositionStartMessage(e: CompilationError)
    requires !e.UnexpectedEndOfCode?
    ensures IsPrefix(Lead(e) + DecimalString(e.pos), Message(e))
  {
    var p := Lead(e) + DecimalString(e.pos);
    match e
    case UnclosedLiteral(_, s) =>
      PrefixOfAppend(p, Str(" has not been closed: "));
      PrefixOfAppend(p + Str(" has not been closed: "), s);
      PrefixTrans(p, p + Str(" has not been closed: "), Message(e));
    case UnexpectedToken(_, s, info) =>
      PrefixOfMessage(p, s, info);
    case UnresolvedSymbol(_, s, info) =>
      PrefixOfMessage(p, s, info);
  }

  predicate IsPrefix(p: JString, m: JString)
  {
    |p| <= |m| && m[..|p|] == p
  }

  lemma PrefixOfAppend(p: JString, x: JString)
    ensures IsPrefix(p, p + x)
  {
    assert (p + x)[..|p|] == p;
  }

  lemma PrefixTrans(p: JString, q: JString, m: JString)
    requires IsPrefix(p, q) && IsPrefix(q, m)
    ensures IsPrefix(p, m)
  {
    assert m[..|p|] == m[..|q|][..|p|];
  }

  lemma SplitPrefix(p: JString, d: JString, m: JString)
    requires IsPrefix(p + d, m)
    ensures |p| + |d| <= |m| && m[..|p|] == p && m[|p|..|p| + |d|] == d
  {
    assert m[..|p|] == (p + d)[..|p|];
    assert m[|p|..|p| + |d|] == (p + d)[|p|..];
  }

  /** The head of a message with a snippet and optional information after the position. */
  lemma PrefixOfMessage(p: JString, s: JString, info: Option<JString>)
    ensures IsPrefix(p, AppendInfo(p + Str(": ") + s, info))
  {
    var q := p + Str(": ") + s;
    PrefixOfAppend(p, Str(": "));
    PrefixOfAppend(p + Str(": "), s);
    PrefixTrans(p, p + Str(": "), q);
    match info
    case None =>
    case Some(t) =>
      PrefixOfAppend(q, [LF]);
      PrefixOfAppend(q + [LF], t);
      PrefixTrans(q, q + [LF], q + [LF] + t);
      PrefixTrans(p, q, q + [LF] + t);
  }

  /** A message without extra information ends with the code snippet. */
  lemma MessageEndsWithSnippet(e: CompilationError)
    requires e.UnclosedLiteral? || e.info.None?
    ensures var m := Message(e); |e.snippet| <= |m| && m[|m| - |e.snippet|..] == e.snippet
  {
  }

  /** `sep`-separated concatenation of `parts`. */
  function Join(parts: seq<JString>, sep: JString): JString
  {
    if |parts| == 0 then []
    else if |parts| == 1 then parts[0]
    else parts[0] + sep + Join(parts[1..], sep)
  }

  lemma {:induction false} JoinAppend(parts: seq<JString>, p: JString, sep: JString)
    requires |parts| > 0
    ensures Join(parts + [p], sep) == Join(parts, sep) + sep + p
  {
    if |parts| > 1 {
      assert (parts + [p])[1..] == parts[1..] + [p];
      JoinAppend(parts[1..], p, sep);
    } else {
      assert (parts + [p])[1..] == [p];
    }
  }

  /** Line `k` (counting from 0) of a collection's message. */
  function NumberedLine(k: nat, e: CompilationError): JString
  {
    DecimalString(k + 1) + Str(". ") + Message(e)
  }

  function NumberedLines(errors: seq<CompilationError>): (r: seq<JString>)
    ensures |r| == |errors|
  {
    seq(|errors|, k requires 0 <= k < |errors| => NumberedLine(k, errors[k]))
  }

  /**
   * The message of a whole collection: the messages numbered from 1, each
   * as "<n>. <message>", separated by line breaks, with no break after the
   * last one.
   */
  function NumberedList(errors: seq<CompilationError>): JString
  {
    Join(NumberedLines(errors), [LF])
  }

  lemma NumberedListAppend(errors: seq<CompilationError>, e: CompilationError)
    requires |errors| > 0
    ensures NumberedList(errors + [e]) == NumberedList(errors) + [LF] + NumberedLine(|errors|, e)
  {
    assert NumberedLines(errors + [e]) == NumberedLines(errors) + [NumberedLine(|errors|, e)];
    JoinAppend(NumberedLines(errors), NumberedLine(|errors|, e), [LF]);
  }

  /** The numbered list of the first `i + 1` errors, from that of the first `i`. */
  lemma NumberedListPrefix(errors: seq<CompilationError>, i: nat)
    requires i < |errors|
    ensures NumberedList(errors[..i + 1])
      == (if i == 0 then [] else NumberedList(errors[..i]) + [LF]) + NumberedLine(i, errors[i])
  {
    if i > 0 {
      assert errors[..i + 1] == errors[..i] + [errors[i]];
      NumberedListAppend(errors[..i], errors[i]);
    } else {
      assert NumberedLines(errors[..1]) == [NumberedLine(0, errors[0])];
    }
  }

  /** The errors one syntax check found, thrown together once the check is over. */
  class CompileErrorCollection {
    var collectedErrors: seq<CompilationError>

    constructor ()
      ensures collectedErrors == []
    {
      collectedErrors := [];
    }

    method AddError(error: CompilationError)
      modifies this
      ensures collectedErrors == old(collectedErrors) + [error]
    {
      collectedErrors := collectedErrors + [error];
    }

    /** The error at `ind`; `None` stands for the index-out-of-bounds exception. */
    method GetError(ind: int) returns (r: Option<CompilationError>)
      ensures 0 <= ind < |collectedErrors| ==> r == Some(collectedErrors[ind])
      ensures !(0 <= ind < |collectedErrors|) ==> r == None
    {
      if 0 <= ind < |collectedErrors| {
        r := Some(collectedErrors[ind]);
      } else {
        r := None;
      }
    }

    function Size(): nat
      reads this
    {
      |collectedErrors|
    }

    /** Drops the final line break of what `AppendLines` built. */
    method GetMessage() returns (msg: JString)
      ensures msg == NumberedList(collectedErrors)
    {
      msg := AppendLines();
      if |msg| > 0 && msg[|msg| - 1] == LF {
        ghost var all := NumberedList(collectedErrors);
        assert msg[..|msg| - 1] == all;
        msg := msg[..|msg| - 1];
      }
    }

    /** The loop of `getMessage`: every numbered line, each followed by a line break. */
    method AppendLines() returns (msg: JString)
      ensures msg == if |collectedErrors| == 0 then [] else NumberedList(collectedErrors) + [LF]
    {
      msg := [];
      var i := 0;
      while i < |collectedErrors|
        invariant 0 <= i <= |collectedErrors|
        invariant msg == if i == 0 then [] else NumberedList(collectedErrors[..i]) + [LF]
      {
        var line := NumberedLine(i, collectedErrors[i]);
        NumberedListPrefix(collectedErrors, i);
        msg := msg + line + [LF];
        i := i + 1;
      }
      assert collectedErrors[..i] == collectedErrors;
    }
  }
}
