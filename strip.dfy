/**
 * The compiler's second pass: it removes comments and the white space the
 * parser does not need. The only white space left is white space inside
 * strings, the character of a character literal, and white space between
 * two digits (which separates two numbers).
 */
module Stripper {
  import opened JavaTypes
  import opened FalseLanguageDefinition

  /** The stripped code, or the string-index exception `strip` can raise. */
  datatype StripResult = Stripped(code: JString) | StripOutOfBounds

  /**
   * Reference definition of `strip` as a left-to-right pass over the
   * original text `src`, at index `j`: `out` is the text kept so far and
   * `pending` the comment seen so far, which is dropped once it is closed
   * and kept if it never is.
   */
  function StripFrom(src: JString, j: nat, out: JString, inString: bool, inComment: bool, pending: JString): StripResult
    decreases |src| - j
  {
    if j >= |src| then Stripped(out + pending)
    else
      var c := src[j];
      if inComment then
        if c == COMMENT_END then StripFrom(src, j + 1, out, false, false, [])
        else StripFrom(src, j + 1, out, false, true, pending + [c])
      else if inString then StripFrom(src, j + 1, out + [c], c != PRINT_STRING_OPERATION, false, [])
      else if c == PRINT_STRING_OPERATION then StripFrom(src, j + 1, out + [c], true, false, [])
      else if c == COMMENT_BEGIN then StripFrom(src, j + 1, out, false, true, [c])
      else if c == CHARACTER_DECLARATION then
        if j + 1 < |src| then StripFrom(src, j + 2, out + [c, src[j + 1]], false, false, [])
        else Stripped(out + [c])
      else if IsWhitespace(c) then
        if |out| > 0 && IsDigit(out[|out| - 1]) then
          // the look at the character after the white space is unguarded
          if j + 1 >= |src| then StripOutOfBounds
          else if IsDigit(src[j + 1]) then StripFrom(src, j + 1, out + [c], false, false, [])
          else StripFrom(src, j + 1, out, false, false, [])
        else StripFrom(src, j + 1, out, false, false, [])
      else StripFrom(src, j + 1, out + [c], false, false, [])
  }

  function StripSpec(src: JString): StripResult
  {
    StripFrom(src, 0, [], false, false, [])
  }

  lemma SplitAt(s: JString, j: nat)
    requires j < |s|
    ensures s[j..] == [s[j]] + s[j + 1..]
  {
  }

  /**
   * How the state of `strip` (the code being cut, the index into it, the
   * flags and where the open comment began) stands to the reference pass
   * over the original `source`, at `j` with `out` kept and `pending` held.
   */
  ghost predicate StripState(source: JString, code: JString, ind: int, inString: bool, inComment: bool,
                             commentBeg: int, j: nat, out: JString, pending: JString)
  {
    && 0 <= ind && j <= |source|
    && code == out + pending + source[j..]
    && (ind <= |code| ==> ind == |out| + |pending|)
    && (ind > |code| ==> ind == |code| + 1 && j == |source| && pending == [])
    && (inComment ==> !inString && commentBeg == |out| && |pending| > 0)
    && (!inComment ==> pending == [])
    && StripFrom(source, j, out, inString, inComment, pending) == StripSpec(source)
  }

  /** One turn of the loop of `strip` inside a comment. */
  method CommentStep(ghost source: JString, code: JString, ind: int, commentBeg: int,
                     ghost j: nat, ghost out: JString, ghost pending: JString)
    returns (code': JString, ind': int, inComment': bool, ghost j': nat, ghost pending': JString)
    requires ind < |code|
    requires StripState(source, code, ind, false, true, commentBeg, j, out, pending)
    ensures StripState(source, code', ind', false, inComment', commentBeg, j', out, pending')
    ensures |code'| - ind' < |code| - ind
  {
    assert code[ind] == source[j];
    var c := code[ind];
    SplitAt(source, j);
    if c == COMMENT_END {
      inComment' := false;
      var commentEnd := ind;
      assert code[..commentBeg] == out && code[commentEnd + 1..] == source[j + 1..];
      code' := code[..commentBeg] + code[commentEnd + 1..];
      ind' := ind - ((commentEnd - commentBeg) + 1);
      pending' := [];
    } else {
      inComment' := true;
      assert code == out + (pending + [c]) + source[j + 1..];
      code', ind', pending' := code, ind, pending + [c];
    }
    j' := j + 1;
    ind' := ind' + 1;
  }

  /**
   * One turn of the loop of `strip` outside a comment; `crash` is the
   * string-index exception of the white-space case.
   */
  method PlainStep(ghost source: JString, code: JString, ind: int, inString: bool,
                   ghost j: nat, ghost out: JString)
    returns (code': JString, ind': int, inString': bool, inComment': bool, commentBeg': int,
             ghost j': nat, ghost out': JString, ghost pending': JString, crash: bool)
    requires ind < |code|
    requires StripState(source, code, ind, inString, false, 0, j, out, [])
    ensures crash ==> StripSpec(source) == StripOutOfBounds
    ensures !crash ==> StripState(source, code', ind', inString', inComment', commentBeg', j', out', pending')
    ensures !crash ==> |code'| - ind' < |code| - ind
  {
    assert code[ind] == source[j];
    var c := code[ind];
    SplitAt(source, j);
    code', ind', inString', inComment', commentBeg', crash := code, ind, inString, false, 0, false;
    j', out', pending' := j + 1, out, [];
    if inString {
      if c == PRINT_STRING_OPERATION {
        inString' := false;
      }
      assert code == (out + [c]) + source[j + 1..];
      out' := out + [c];
    } else if c == PRINT_STRING_OPERATION {
      inString' := true;
      assert code == (out + [c]) + source[j + 1..];
      out' := out + [c];
    } else if c == COMMENT_BEGIN {
      inComment', commentBeg' := true, ind;
      assert code == out + [c] + source[j + 1..];
      pending' := [c];
    } else if c == CHARACTER_DECLARATION {
      ind' := ind + 1;
      if j + 1 < |source| {
        SplitAt(source, j + 1);
        assert code == (out + [c, source[j + 1]]) + source[j + 2..];
        out', j' := out + [c, source[j + 1]], j + 2;
      } else {
        assert code == (out + [c]) + source[j + 1..];
        out' := out + [c];
      }
    } else if IsWhitespace(c) {
      code', ind', j', out', crash := WhitespaceStep(source, code, ind, j, out);
      return;
    } else {
      assert code == (out + [c]) + source[j + 1..];
      out' := out + [c];
    }
    ind' := ind' + 1;
  }

  /** The white-space case of the loop of `strip`. */
  method WhitespaceStep(ghost source: JString, code: JString, ind: int, ghost j: nat, ghost out: JString)
    returns (code': JString, ind': int, ghost j': nat, ghost out': JString, crash: bool)
    requires 0 <= ind < |code| && IsWhitespace(code[ind])
    requires code[ind] != PRINT_STRING_OPERATION && code[ind] != COMMENT_BEGIN && code[ind] != CHARACTER_DECLARATION
    requires StripState(source, code, ind, false, false, 0, j, out, [])
    ensures crash ==> StripSpec(source) == StripOutOfBounds
    ensures !crash ==> StripState(source, code', ind', false, false, 0, j', out', [])
    ensures !crash ==> |code'| - ind' < |code| - ind
  {
    assert code[ind] == source[j];
    var c := code[ind];
    SplitAt(source, j);
    var keep := false;
    crash := false;
    if ind > 0 && IsDigit(code[ind - 1]) && ind < |code| {
      assert code[ind - 1] == out[|out| - 1];
      if ind + 1 >= |code| {
        crash := true;
        code', ind', j', out' := code, ind, j, out;
        return;
      }
      assert code[ind + 1] == source[j + 1];
      keep := IsDigit(code[ind + 1]);
    }
    if !keep {
      assert code[..ind] == out && code[ind + 1..] == source[j + 1..];
      code' := code[..ind] + code[ind + 1..];
      ind' := ind - 1;
      out' := out;
    } else {
      assert code == (out + [c]) + source[j + 1..];
      code', ind' := code, ind;
      out' := out + [c];
    }
    j' := j + 1;
    ind' := ind' + 1;
  }

  /**
   * `strip`: walks an index through the code and cuts comments and white
   * space out of the code in place, moving the index back over what it cut.
   */
  method Strip(source: JString) returns (r: StripResult)
    ensures r == StripSpec(source)
  {
    var code := source;
    var ind := 0;
    var inString := false;
    var inComment := false;
    var commentBeg := 0;
    ghost var j: nat := 0;
    ghost var out: JString := [];
    ghost var pending: JString := [];
    while ind < |code|
      invariant StripState(source, code, ind, inString, inComment, commentBeg, j, out, pending)
      decreases |code| - ind
    {
      if inComment {
        code, ind, inComment, j, pending := CommentStep(source, code, ind, commentBeg, j, out, pending);
      } else {
        var crash;
        code, ind, inString, inComment, commentBeg, j, out, pending, crash :=
          PlainStep(source, code, ind, inString, j, out);
        if crash {
          return StripOutOfBounds;
        }
      }
    }
    r := Stripped(code);
  }

  /**
   * What stripped code looks like, read from index `k` with `inString`
   * telling whether a string is open there: outside strings and character
   * literals every white-space character sits between two digits, and a
   * comment opening outside them runs unclosed to the end of the code.
   */
  predicate CompactFrom(r: JString, k: nat, inString: bool)
    decreases |r| - k
  {
    if k >= |r| then true
    else if inString then CompactFrom(r, k + 1, r[k] != PRINT_STRING_OPERATION)
    else if r[k] == PRINT_STRING_OPERATION then CompactFrom(r, k + 1, true)
    else if r[k] == COMMENT_BEGIN then forall m :: k < m < |r| ==> r[m] != COMMENT_END
    else if r[k] == CHARACTER_DECLARATION then CompactFrom(r, k + 2, false)
    else if IsWhitespace(r[k]) then
      0 < k && IsDigit(r[k - 1]) && k + 1 < |r| && IsDigit(r[k + 1]) && CompactFrom(r, k + 1, false)
    else CompactFrom(r, k + 1, false)
  }

  predicate Compact(r: JString)
  {
    CompactFrom(r, 0, false)
  }

  /** A digit met outside strings and comments is kept as the next output character. */
  lemma DigitIsKept(src: JString, j: nat, out: JString, r: JString)
    requires j < |src| && IsDigit(src[j])
    requires StripFrom(src, j, out, false, false, []) == Stripped(r)
    ensures |r| > |out| && r[|out|] == src[j]
  {
    KeptIsPrefix(src, j + 1, out + [src[j]], false, false, [], r);
  }

  /** What the reference pass has kept is never taken back. */
  lemma {:induction false} KeptIsPrefix(src: JString, j: nat, out: JString, inString: bool, inComment: bool,
                                        pending: JString, r: JString)
    requires StripFrom(src, j, out, inString, inComment, pending) == Stripped(r)
    ensures |out| <= |r| && r[..|out|] == out
    decreases |src| - j
  {
    if j < |src| {
      var c := src[j];
      if inComment {
        if c == COMMENT_END {
          KeptIsPrefix(src, j + 1, out, false, false, [], r);
        } else {
          KeptIsPrefix(src, j + 1, out, false, true, pending + [c], r);
        }
      } else if inString {
        KeptIsPrefix(src, j + 1, out + [c], c != PRINT_STRING_OPERATION, false, [], r);
      } else if c == PRINT_STRING_OPERATION {
        KeptIsPrefix(src, j + 1, out + [c], true, false, [], r);
      } else if c == COMMENT_BEGIN {
        KeptIsPrefix(src, j + 1, out, false, true, [c], r);
      } else if c == CHARACTER_DECLARATION {
        if j + 1 < |src| {
          KeptIsPrefix(src, j + 2, out + [c, src[j + 1]], false, false, [], r);
        }
      } else if IsWhitespace(c) {
        if |out| > 0 && IsDigit(out[|out| - 1]) {
          if j + 1 < |src| {
            if IsDigit(src[j + 1]) {
              KeptIsPrefix(src, j + 1, out + [c], false, false, [], r);
            } else {
              KeptIsPrefix(src, j + 1, out, false, false, [], r);
            }
          }
        } else {
          KeptIsPrefix(src, j + 1, out, false, false, [], r);
        }
      } else {
        KeptIsPrefix(src, j + 1, out + [c], false, false, [], r);
      }
    }
  }

  /**
   * The reference pass only produces compact code: the part it still adds
   * after `out` is compact, and an open comment is either closed and
   * dropped or kept to the end without a closing brace.
   */
  lemma {:induction false} StripFromIsCompact(src: JString, j: nat, out: JString, inString: bool, inComment: bool,
                                              pending: JString, r: JString)
    requires StripFrom(src, j, out, inString, inComment, pending) == Stripped(r)
    requires inComment ==> !inString && |pending| > 0 && pending[0] == COMMENT_BEGIN
                             && forall m :: 0 < m < |pending| ==> pending[m] != COMMENT_END
    requires !inComment ==> pending == []
    ensures |out| <= |r| && CompactFrom(r, |out|, inString)
    decreases |src| - j
  {
    KeptIsPrefix(src, j, out, inString, inComment, pending, r);
    if j >= |src| {
      if inComment {
        assert r == out + pending;
        assert forall m :: |out| < m < |r| ==> r[m] == pending[m - |out|];
      }
    } else {
      var c := src[j];
      if inComment {
        if c == COMMENT_END {
          StripFromIsCompact(src, j + 1, out, false, false, [], r);
        } else {
          var p := pending + [c];
          assert forall m :: 0 < m < |p| ==> p[m] != COMMENT_END by {
            forall m | 0 < m < |p| ensures p[m] != COMMENT_END {
              if m < |pending| { assert p[m] == pending[m]; }
            }
          }
          StripFromIsCompact(src, j + 1, out, false, true, p, r);
        }
      } else if inString {
        StripFromIsCompact(src, j + 1, out + [c], c != PRINT_STRING_OPERATION, false, [], r);
        KeptIsPrefix(src, j + 1, out + [c], c != PRINT_STRING_OPERATION, false, [], r);
        assert r[|out|] == (out + [c])[|out|];
      } else if c == PRINT_STRING_OPERATION {
        StripFromIsCompact(src, j + 1, out + [c], true, false, [], r);
        KeptIsPrefix(src, j + 1, out + [c], true, false, [], r);
        assert r[|out|] == (out + [c])[|out|];
      } else if c == COMMENT_BEGIN {
        StripFromIsCompact(src, j + 1, out, false, true, [c], r);
      } else if c == CHARACTER_DECLARATION {
        if j + 1 < |src| {
          StripFromIsCompact(src, j + 2, out + [c, src[j + 1]], false, false, [], r);
          KeptIsPrefix(src, j + 2, out + [c, src[j + 1]], false, false, [], r);
          assert r[|out|] == (out + [c, src[j + 1]])[|out|];
        } else {
          assert r == out + [c];
        }
      } else if IsWhitespace(c) {
        if |out| > 0 && IsDigit(out[|out| - 1]) {
          if j + 1 < |src| {
            if IsDigit(src[j + 1]) {
              StripFromIsCompact(src, j + 1, out + [c], false, false, [], r);
              KeptIsPrefix(src, j + 1, out + [c], false, false, [], r);
              DigitIsKept(src, j + 1, out + [c], r);
              assert r[|out|] == (out + [c])[|out|];
              assert r[|out| - 1] == out[|out| - 1];
            } else {
              StripFromIsCompact(src, j + 1, out, false, false, [], r);
            }
          }
        } else {
          StripFromIsCompact(src, j + 1, out, false, false, [], r);
        }
      } else {
        StripFromIsCompact(src, j + 1, out + [c], false, false, [], r);
        KeptIsPrefix(src, j + 1, out + [c], false, false, [], r);
        assert r[|out|] == (out + [c])[|out|];
      }
    }
  }

  /** Whatever `strip` returns is compact. */
  lemma StripIsCompact(src: JString)
    ensures StripSpec(src).Stripped? ==> Compact(StripSpec(src).code)
  {
    if StripSpec(src).Stripped? {
      StripFromIsCompact(src, 0, [], false, false, [], StripSpec(src).code);
    }
  }

  /** An unclosed comment is kept as it is. */
  lemma {:induction false} UnclosedCommentIsKept(r: JString, j: nat, out: JString, pending: JString)
    requires j <= |r|
    requires forall m :: j <= m < |r| ==> r[m] != COMMENT_END
    ensures StripFrom(r, j, out, false, true, pending) == Stripped(out + pending + r[j..])
    decreases |r| - j
  {
    if j < |r| {
      UnclosedCommentIsKept(r, j + 1, out, pending + [r[j]]);
      assert r[j..] == [r[j]] + r[j + 1..];
    }
  }

  /** Compact code is left as it is: from `k` on, the pass keeps everything. */
  lemma {:induction false} CompactIsKept(r: JString, k: nat, inString: bool)
    requires k <= |r| && CompactFrom(r, k, inString)
    ensures StripFrom(r, k, r[..k], inString, false, []) == Stripped(r)
    decreases |r| - k
  {
    if k < |r| {
      var c := r[k];
      assert r[..k + 1] == r[..k] + [c];
      if inString || c == PRINT_STRING_OPERATION {
        CompactIsKept(r, k + 1, if inString then c != PRINT_STRING_OPERATION else true);
      } else if c == COMMENT_BEGIN {
        UnclosedCommentIsKept(r, k + 1, r[..k], [c]);
        assert r[..k] + [c] + r[k + 1..] == r;
      } else if c == CHARACTER_DECLARATION {
        if k + 1 < |r| {
          assert r[..k + 2] == r[..k] + [c, r[k + 1]];
          if k + 2 < |r| {
            CompactIsKept(r, k + 2, false);
          } else {
            assert r[..k + 2] == r;
          }
        }
      } else if IsWhitespace(c) {
        assert r[..k][k - 1] == r[k - 1];
        CompactIsKept(r, k + 1, false);
      } else {
        CompactIsKept(r, k + 1, false);
      }
    }
  }

  /**
   * Compact code is exactly the code `strip` leaves unchanged; in
   * particular stripping twice is stripping once.
   */
  lemma CompactIsFixpoint(r: JString)
    ensures Compact(r) <==> StripSpec(r) == Stripped(r)
  {
    if Compact(r) {
      CompactIsKept(r, 0, false);
    }
    if StripSpec(r) == Stripped(r) {
      StripIsCompact(r);
    }
  }

  lemma StripIsIdempotent(src: JString)
    requires StripSpec(src).Stripped?
    ensures StripSpec(StripSpec(src).code) == StripSpec(src)
  {
    StripIsCompact(src);
    CompactIsFixpoint(StripSpec(src).code);
  }

  /**
   * White space after a digit at the very end of the code reaches past the
   * end of the code in the look at the following character.
   */
  lemma TrailingSpaceAfterDigitFails()
    ensures StripSpec(Str("1 ")) == StripOutOfBounds
    ensures StripSpec(Str("1 {c}")) == Stripped(Str("1"))
  {
  }

  /** White space separating two numbers stays; other white space and closed comments go. */
  lemma StripExamples()
    ensures StripSpec(Str("1  2")) == Stripped(Str("1 2"))
    ensures StripSpec(Str("{c} a")) == Stripped(Str("a"))
    ensures StripSpec(Str("\" x\"")) == Stripped(Str("\" x\""))
  {
  }

  /** `strip` keeps a lambda holding a string with a `]` as it is. */
  lemma BracketInStringIsKept()
    ensures StripSpec(Str("[\"]\"]")) == Stripped(Str("[\"]\"]"))
  {
    var code := Str("[\"]\"]");
    assert code[0] == JC('[') && code[1] == JC('"') && code[2] == JC(']') && code[3] == JC('"') && code[4] == JC(']');
  }
}
