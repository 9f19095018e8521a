/**
 * The code excerpts compile errors show: up to three characters around a
 * position, with "... " / " ..." where the source continues beyond them.
 */
module CodeSnippets {
  import opened JavaTypes

  function Min(a: int, b: int): int
  {
    if a < b then a else b
  }

  /** Where the excerpt for `token` starts: one character before it, but not before the start. */
  function SnippetStart(token: int): nat
  {
    if token - 1 < 0 then 0 else token - 1
  }

  /**
   * The excerpt for `token`: the characters from one before it to one after
   * it, led by "... " when code precedes them and followed by " ..." when
   * code follows them; empty for empty code.
   */
  function Snippet(token: int, code: JString): JString
  {
    if |code| == 0 then []
    else
      var beg := SnippetStart(token);
      (if beg == 0 then [] else Str("... "))
      + (if beg < |code| then code[beg..Min(beg + 3, |code|)] else [])
      + (if beg + 3 < |code| then Str(" ...") else [])
  }

  /** `evaluateCodeSnippet`: copies the shown characters one at a time. */
  method EvaluateCodeSnippet(token: int, compilableCode: JString) returns (codeSnippet: JString)
    ensures codeSnippet == Snippet(token, compilableCode)
  {
    if |compilableCode| > 0 {
      var beg := if token - 1 < 0 then 0 else token - 1;
      codeSnippet := if beg == 0 then [] else Str("... ");
      var shown := CopyShown(compilableCode, beg);
      codeSnippet := codeSnippet + shown;
    } else {
      codeSnippet := [];
    }
  }

  /** The loop of `evaluateCodeSnippet`: up to three characters from `beg`, then " ..." if code follows. */
  method CopyShown(code: JString, beg: nat) returns (part: JString)
    ensures part == (if beg < |code| then code[beg..Min(beg + 3, |code|)] else [])
                    + (if beg + 3 < |code| then Str(" ...") else [])
  {
    part := [];
    var i := 0;
    while i < 3 && i + beg < |code|
      invariant 0 <= i <= 3 && (i > 0 ==> beg + i <= |code|)
      invariant part == (if i == 0 then [] else code[beg..beg + i])
                        + (if i == 3 && beg + 3 < |code| then Str(" ...") else [])
    {
      assert code[beg..beg + i + 1] == code[beg..beg + i] + [code[beg + i]];
      part := part + [code[beg + i]];
      if i == 2 && i + beg + 1 < |code| {
        part := part + Str(" ...");
      }
      i := i + 1;
    }
  }

  /** Where in the excerpt the character at `token` itself appears. */
  function TokenOffset(token: int): nat
  {
    if token <= 0 then 0 else if token == 1 then 1 else 5
  }

  /**
   * The excerpt shows the character at `token`, at a fixed offset, and is
   * never longer than eleven characters.
   */
  lemma SnippetShowsToken(token: int, code: JString)
    requires 0 <= token < |code|
    ensures var r := Snippet(token, code);
      TokenOffset(token) < |r| <= 11 && r[TokenOffset(token)] == code[token]
  {
  }

  /**
   * The excerpt begins with "... " when characters before it are hidden and
   * ends with " ..." when characters after it are hidden.
   */
  lemma SnippetMarksHiddenCode(token: int, code: JString)
    requires 0 <= token < |code|
    ensures var r := Snippet(token, code); var beg := SnippetStart(token);
      (beg > 0 ==> |r| >= 4 && r[..4] == Str("... "))
      && (beg + 3 < |code| ==> |r| >= 4 && r[|r| - 4..] == Str(" ..."))
  {
  }
}
