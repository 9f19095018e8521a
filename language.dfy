/**
 * The lexical vocabulary of FALSE: the truth values and the character of
 * every token the compiler recognises.
 */
module FalseLanguageDefinition {
  import opened JavaTypes

  /** The two truth values; every other integer is not a boolean. */
  const TRUE: Int32 := -1
  const FALSE: Int32 := 0

  const COMMENT_BEGIN: JChar := JC('{')
  const COMMENT_END: JChar := JC('}')
  const LAMBDA_BEGIN: JChar := JC('[')
  const LAMBDA_END: JChar := JC(']')
  const VARIABLE_SCOPE_BEGIN: JChar := JC('a')
  const VARIABLE_SCOPE_END: JChar := JC('z')
  const CHARACTER_DECLARATION: JChar := JC('\'')
  /** Marks inline assembly, which compiles to an operation that does nothing. */
  const INLINE_ASSEMBLY_DECLARATION: JChar := JC('`')

  const ASSIGN_OPERATOR: JChar := JC(':')
  const READ_OPERATOR: JChar := JC(';')
  const EXECUTE_OPERATOR: JChar := JC('!')

  const ADD_OPERATOR: JChar := JC('+')
  const SUBTRACT_OPERATOR: JChar := JC('-')
  const MULTIPLY_OPERATOR: JChar := JC('*')
  const DIVIDE_OPERATOR: JChar := JC('/')
  const UNARYMINUS_OPERATOR: JChar := JC('_')

  const EQUALS_OPERATOR: JChar := JC('=')
  const GREATER_OPERATOR: JChar := JC('>')
  const AND_OPERATOR: JChar := JC('&')
  const OR_OPERATOR: JChar := JC('|')
  const NOT_OPERATOR: JChar := JC('~')

  const DUPLICATE_OPERATOR: JChar := JC('$')
  const DELETE_OPERATOR: JChar := JC('%')
  const SWAP_OPERATOR: JChar := JC('\\')
  const ROTATE_OPERATOR: JChar := JC('@')
  /** `ø`, with the upper-case `O` accepted in its place. */
  const PICK_OPERATOR: JChar := 0xF8
  const PICK_OPERATOR_COMPAT: JChar := JC('O')

  const IF_OPERATOR: JChar := JC('?')
  const WHILE_OPERATOR: JChar := JC('#')

  const PRINT_NUMBER_OPERATION: JChar := JC('.')
  const PRINT_STRING_OPERATION: JChar := JC('"')
  const PRINT_CHARACTER_OPERATION: JChar := JC(',')
  const READ_CHARACTER_OPERATOR: JChar := JC('^')
  /** `ß`, with the upper-case `S` accepted in its place. */
  const FLUSH_STREAM_OPERATOR: JChar := 0xDF
  const FLUSH_STREAM_OPERATOR_COMPAT: JChar := JC('S')

  /** A variable name: one lower-case letter. */
  predicate IsVariableName(c: JChar)
  {
    VARIABLE_SCOPE_BEGIN <= c <= VARIABLE_SCOPE_END
  }

  /** The structural characters: comments, lambdas, character and string literals, assembly. */
  const DELIMITERS: seq<JChar> :=
    [COMMENT_BEGIN, COMMENT_END, LAMBDA_BEGIN, LAMBDA_END, CHARACTER_DECLARATION,
     PRINT_STRING_OPERATION, INLINE_ASSEMBLY_DECLARATION]

  /** The characters that stand for one instruction each. */
  const OPERATORS: seq<JChar> :=
    [ASSIGN_OPERATOR, READ_OPERATOR, EXECUTE_OPERATOR,
     ADD_OPERATOR, SUBTRACT_OPERATOR, MULTIPLY_OPERATOR, DIVIDE_OPERATOR, UNARYMINUS_OPERATOR,
     EQUALS_OPERATOR, GREATER_OPERATOR, AND_OPERATOR, OR_OPERATOR, NOT_OPERATOR,
     DUPLICATE_OPERATOR, DELETE_OPERATOR, SWAP_OPERATOR, ROTATE_OPERATOR,
     PICK_OPERATOR, PICK_OPERATOR_COMPAT, IF_OPERATOR, WHILE_OPERATOR,
     PRINT_NUMBER_OPERATION, PRINT_CHARACTER_OPERATION, READ_CHARACTER_OPERATOR,
     FLUSH_STREAM_OPERATOR, FLUSH_STREAM_OPERATOR_COMPAT]

  /** The characters the language gives a meaning of their own. */
  predicate IsToken(c: JChar)
  {
    c in DELIMITERS || c in OPERATORS
  }

  /** No two tokens share a character, so each character has at most one meaning. */
  lemma TokensDistinct()
    ensures var all := DELIMITERS + OPERATORS;
      forall i, j :: 0 <= i < j < |all| ==> all[i] != all[j]
  {
  }

  /** No token is a variable name, a digit or white space. */
  lemma TokensAreNotNamesDigitsOrSpace(c: JChar)
    requires IsToken(c)
    ensures !IsVariableName(c) && !IsDigit(c) && !IsWhitespace(c)
  {
  }

  /** Each closing bracket is two code points above its opening bracket. */
  lemma ClosersAreTwoAboveOpeners()
    ensures LAMBDA_END == LAMBDA_BEGIN + 2 && COMMENT_END == COMMENT_BEGIN + 2
  {
  }
}
