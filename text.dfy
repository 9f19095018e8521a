/**
 * `toString` of the operation tree, which `decompile` returns: a group
 * concatenates its children's texts, and an integer literal gets a leading
 * space only when the sibling before it is an integer literal too.
 */
module Decompiler {
  import opened JavaTypes
  import opened FalseLanguageDefinition
  import opened Operations

  /** The texts of the operations whose classes are not part of this model. */
  type OtherTexts = Op -> JString

  /** `getValueWithWhiteSpace(ws)`. */
  function IntegerText(v: Int32, ws: bool): JString
  {
    (if ws then [JC(' ')] else []) + DecimalString(v as int)
  }

  /** `toString` of one operation; a lambda prints like a `Function`. */
  function OpText(other: OtherTexts, op: Op): JString
    decreases op, 0
  {
    match op
    case Lambda(_, body) => [LAMBDA_BEGIN] + GroupText(other, body, false) + [LAMBDA_END]
    case PrintString(_, s) => [PRINT_STRING_OPERATION] + s + [PRINT_STRING_OPERATION]
    case IntegerValue(_, v) => IntegerText(v, true)
    case Assembly(_, v) => [JC(' ')] + DecimalString(v as int) + [INLINE_ASSEMBLY_DECLARATION]
    case Instr(_, UnaryMinus) => [UNARYMINUS_OPERATOR]
    case Instr(_, GreaterThan) => [GREATER_OPERATOR]
    case Instr(_, If) => [IF_OPERATOR]
    case Instr(_, While) => [WHILE_OPERATOR]
    case Instr(_, ReadCharacter) => [READ_CHARACTER_OPERATOR]
    case _ => other(op)
  }

  /** A child's text in a group, `afterInteger` telling whether the sibling before it is an integer literal. */
  function ChildText(other: OtherTexts, op: Op, afterInteger: bool): JString
    decreases op, 1
  {
    if op.IntegerValue? then IntegerText(op.value, afterInteger) else OpText(other, op)
  }

  /** The children's texts one after another, the first one after a sibling described by `afterInteger`. */
  function GroupText(other: OtherTexts, ops: seq<Op>, afterInteger: bool): JString
    decreases ops
  {
    if |ops| == 0 then []
    else ChildText(other, ops[0], afterInteger) + GroupText(other, ops[1..], ops[0].IntegerValue?)
  }

  /** `FalseProgram.toString`, which `decompile` returns. */
  function Decompile(other: OtherTexts, ops: seq<Op>): JString
  {
    GroupText(other, ops, false)
  }

  /** The text of a group grows by one child's text per child, in order. */
  lemma {:induction false} GroupTextSnoc(other: OtherTexts, ops: seq<Op>, op: Op, afterInteger: bool)
    ensures GroupText(other, ops + [op], afterInteger)
         == GroupText(other, ops, afterInteger)
            + ChildText(other, op, if |ops| == 0 then afterInteger else ops[|ops| - 1].IntegerValue?)
    decreases |ops|
  {
    if |ops| == 0 {
      assert [op][1..] == [];
    } else {
      assert (ops + [op])[0] == ops[0] && (ops + [op])[1..] == ops[1..] + [op];
      GroupTextSnoc(other, ops[1..], op, ops[0].IntegerValue?);
    }
  }

  /**
   * The loop of `toString` in `FalseProgram` and `Function`: each child's
   * text, an integer literal with a leading space when the child before it
   * is an integer literal.
   */
  method ChildrenToString(other: OtherTexts, ops: seq<Op>) returns (content: JString)
    ensures content == GroupText(other, ops, false)
    decreases ops
  {
    content := [];
    var i := 0;
    while i < |ops|
      invariant 0 <= i <= |ops|
      invariant content == GroupText(other, ops[..i], false)
    {
      var op := ops[i];
      var text: JString;
      if !op.IntegerValue? {
        text := OpToString(other, op);
      } else {
        text := IntegerText(op.value, i > 0 && ops[i - 1].IntegerValue?);
      }
      GroupTextSnoc(other, ops[..i], op, false);
      assert ops[..i + 1] == ops[..i] + [op];
      assert i > 0 ==> ops[..i][i - 1] == ops[i - 1];
      content := content + text;
      i := i + 1;
    }
    assert ops[..i] == ops;
  }

  /** `toString` of one operation; for a function, `"["`, the children's texts, `"]"`. */
  method OpToString(other: OtherTexts, op: Op) returns (text: JString)
    ensures text == OpText(other, op)
    decreases op
  {
    if op.Lambda? {
      var content := ChildrenToString(other, op.body);
      text := [LAMBDA_BEGIN] + content + [LAMBDA_END];
    } else {
      text := OpText(other, op);
    }
  }

  /** `decompile(program)`: the program's `toString`. */
  method DecompileProgram(other: OtherTexts, ops: seq<Op>) returns (text: JString)
    ensures text == Decompile(other, ops)
  {
    text := ChildrenToString(other, ops);
  }

  /** `toString` of an integer literal is `getValueWithWhiteSpace(true)`, which reads back as the value after its space. */
  lemma IntegerTextReadsBack(v: Int32, ws: bool)
    ensures IntegerText(v, true) == [JC(' ')] + IntegerText(v, false)
    ensures ParseDecimal(IntegerText(v, ws)[if ws then 1 else 0..]) == v as int
  {
    var d := DecimalString(v as int);
    if ws {
      assert ([JC(' ')] + d)[1..] == d;
    } else {
      assert [] + d == d;
    }
    DecimalRoundTrip(v as int);
  }
}
