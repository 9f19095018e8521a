/**
 * The byte code of a compiled FALSE program: how an operation tree is
 * written as bytes and how the loader reads bytes back into a tree.
 *
 * A program is `7`, its operations, `127`; a function is `8`, its
 * operations, `126`; a string is `-1`, its characters two bytes each, `-2`;
 * an integer is `11` and an inline-assembly number `12`, each followed by
 * four bytes, most significant first. Every other operation is a single
 * opcode byte, apart from a variable address (opcode and one byte) and a
 * character value (opcode and two bytes).
 */
module ByteCode {
  import opened JavaTypes
  import opened Operations

  const PROGRAM_BEGIN: Byte := 7
  const PROGRAM_END: Byte := 127
  const FUNCTION_BEGIN: Byte := 8
  const FUNCTION_END: Byte := 126
  const STRING_BEGIN: Byte := -1
  const STRING_END: Byte := -2
  const INTEGER_BYTE: Byte := 11
  const ASSEMBLY_BYTE: Byte := 12

  const UNARY_MINUS_BYTE: Byte := 21
  const GREATER_THAN_BYTE: Byte := 24
  const IF_BYTE: Byte := 35
  const WHILE_BYTE: Byte := 37
  const READ_CHARACTER_BYTE: Byte := 41

  /**
   * The opcodes of the operations whose classes are not part of this
   * model: one per remaining instruction, the variable address opcode and
   * the character value opcode.
   */
  datatype Opcodes = Opcodes(instruction: Instruction -> Byte, variable: Byte, character: Byte)

  /** The opcode of an instruction. */
  function InstructionByte(t: Opcodes, k: Instruction): Byte
  {
    match k
    case UnaryMinus => UNARY_MINUS_BYTE
    case GreaterThan => GREATER_THAN_BYTE
    case If => IF_BYTE
    case While => WHILE_BYTE
    case ReadCharacter => READ_CHARACTER_BYTE
    case _ => t.instruction(k)
  }

  /** The number of instruction cases in the loader's switch. */
  const SWITCH_CASES := 24

  /** The instruction of the loader's `n`th switch case. */
  function CaseAt(n: nat): Instruction
  {
    match n
    case 0 => Assign case 1 => Read case 2 => Execute case 3 => Add case 4 => Subtract
    case 5 => Multiply case 6 => Divide case 7 => UnaryMinus case 8 => Equals
    case 9 => GreaterThan case 10 => And case 11 => Or case 12 => Not case 13 => Duplicate
    case 14 => Delete case 15 => Swap case 16 => Rotate case 17 => Pick case 18 => If
    case 19 => While case 20 => PrintNumber case 21 => Flush case 22 => ReadCharacter
    case _ => PrintCharacter
  }

  /** The case of an instruction in the loader's switch. */
  function CaseOf(k: Instruction): (n: nat)
    ensures n < SWITCH_CASES && CaseAt(n) == k
  {
    match k
    case Assign => 0 case Read => 1 case Execute => 2 case Add => 3 case Subtract => 4
    case Multiply => 5 case Divide => 6 case UnaryMinus => 7 case Equals => 8
    case GreaterThan => 9 case And => 10 case Or => 11 case Not => 12 case Duplicate => 13
    case Delete => 14 case Swap => 15 case Rotate => 16 case Pick => 17 case If => 18
    case While => 19 case PrintNumber => 20 case Flush => 21 case ReadCharacter => 22
    case PrintCharacter => 23
  }

  /** The first switch case from the `n`th on whose opcode is `b`, if there is one. */
  function FirstWithOpcode(t: Opcodes, b: Byte, n: nat): (r: Option<Instruction>)
    decreases SWITCH_CASES - n
    ensures r.Some? ==> InstructionByte(t, r.value) == b
  {
    if n >= SWITCH_CASES then None
    else if InstructionByte(t, CaseAt(n)) == b then Some(CaseAt(n))
    else FirstWithOpcode(t, b, n + 1)
  }

  /** The cases of the loader's switch that stand for an instruction, tried in its order. */
  function DecodeInstruction(t: Opcodes, b: Byte): (r: Option<Instruction>)
    ensures r.Some? ==> InstructionByte(t, r.value) == b
  {
    FirstWithOpcode(t, b, 0)
  }

  /** The search finds an instruction whose case it has not yet passed. */
  lemma {:induction false} FirstWithOpcodeReaches(t: Opcodes, n: nat, k: Instruction)
    requires n <= CaseOf(k)
    ensures FirstWithOpcode(t, InstructionByte(t, k), n).Some?
    decreases CaseOf(k) - n
  {
    if InstructionByte(t, CaseAt(n)) != InstructionByte(t, k) {
      assert n != CaseOf(k);
      FirstWithOpcodeReaches(t, n + 1, k);
    }
  }

  /** Every instruction's opcode is one of the switch's cases. */
  lemma DecodeInstructionIsComplete(t: Opcodes, k: Instruction)
    ensures DecodeInstruction(t, InstructionByte(t, k)).Some?
  {
    FirstWithOpcodeReaches(t, 0, k);
  }

  /** The bytes with a structural meaning, and the two payload opcodes the loader's switch tests first. */
  predicate Structural(b: Byte)
  {
    b == PROGRAM_BEGIN || b == PROGRAM_END || b == FUNCTION_BEGIN || b == FUNCTION_END
    || b == STRING_BEGIN || b == STRING_END || b == INTEGER_BYTE || b == ASSEMBLY_BYTE
  }

  /**
   * The opcodes form a switch: every instruction's opcode leads back to
   * that instruction, and no opcode is a structural byte or another
   * opcode.
   */
  predicate ValidOpcodes(t: Opcodes)
  {
    && (forall k {:trigger DecodeInstruction(t, InstructionByte(t, k))} :: DecodeInstruction(t, InstructionByte(t, k)) == Some(k))
    && (forall k :: !Structural(InstructionByte(t, k))
                    && InstructionByte(t, k) != t.variable && InstructionByte(t, k) != t.character)
    && !Structural(t.variable) && !Structural(t.character) && t.variable != t.character
  }

  /** Distinct instructions have distinct opcodes. */
  lemma OpcodesAreDistinct(t: Opcodes, k1: Instruction, k2: Instruction)
    requires ValidOpcodes(t)
    ensures InstructionByte(t, k1) == InstructionByte(t, k2) ==> k1 == k2
  {
    assert DecodeInstruction(t, InstructionByte(t, k1)) == Some(k1);
    assert DecodeInstruction(t, InstructionByte(t, k2)) == Some(k2);
  }

  /** A choice of opcodes for the instructions without a class in this model. */
  function SampleInstructionByte(k: Instruction): Byte
  {
    match k
    case Assign => 1 case Read => 2 case Execute => 3 case Add => 4 case Subtract => 5
    case Multiply => 6 case Divide => 9 case UnaryMinus => 21 case Equals => 10
    case GreaterThan => 24 case And => 13 case Or => 14 case Not => 15 case Duplicate => 16
    case Delete => 17 case Swap => 18 case Rotate => 19 case Pick => 20 case If => 35
    case While => 37 case PrintNumber => 22 case PrintCharacter => 23
    case ReadCharacter => 41 case Flush => 25
  }

  const SAMPLE_OPCODES: Opcodes := Opcodes(SampleInstructionByte, 26, 27)

  lemma SampleOpcodesAreDistinct(k1: Instruction, k2: Instruction)
    requires InstructionByte(SAMPLE_OPCODES, k1) == InstructionByte(SAMPLE_OPCODES, k2)
    ensures k1 == k2
  {
  }

  lemma SampleOpcodeDecodes(k: Instruction)
    ensures DecodeInstruction(SAMPLE_OPCODES, InstructionByte(SAMPLE_OPCODES, k)) == Some(k)
  {
    DecodeInstructionIsComplete(SAMPLE_OPCODES, k);
    var r := DecodeInstruction(SAMPLE_OPCODES, InstructionByte(SAMPLE_OPCODES, k));
    SampleOpcodesAreDistinct(r.value, k);
  }

  lemma SampleOpcodeIsFree(k: Instruction)
    ensures !Structural(InstructionByte(SAMPLE_OPCODES, k))
    ensures InstructionByte(SAMPLE_OPCODES, k) != 26 && InstructionByte(SAMPLE_OPCODES, k) != 27
  {
  }

  /** The opcode tables the model admits are not empty. */
  lemma SampleOpcodesAreValid()
    ensures ValidOpcodes(SAMPLE_OPCODES)
  {
    forall k: Instruction
      ensures DecodeInstruction(SAMPLE_OPCODES, InstructionByte(SAMPLE_OPCODES, k)) == Some(k)
      ensures !Structural(InstructionByte(SAMPLE_OPCODES, k))
      ensures InstructionByte(SAMPLE_OPCODES, k) != 26 && InstructionByte(SAMPLE_OPCODES, k) != 27
    {
      SampleOpcodeDecodes(k);
      SampleOpcodeIsFree(k);
    }
  }

  /** `ByteBuffer.putChar` for each character of a string, in order. */
  function StringBytes(s: JString): (r: seq<Byte>)
    ensures |r| == 2 * |s|
  {
    if |s| == 0 then [] else StringBytes(s[..|s| - 1]) + BigEndian16(s[|s| - 1])
  }

  /**
   * `toByteArray` of one operation. A lambda is written like a function;
   * a variable address and a character value are written in the layout
   * the loader reads.
   */
  function EncodeOp(t: Opcodes, op: Op): (r: seq<Byte>)
    decreases op
    ensures |r| > 0
  {
    match op
    case Lambda(_, body) => [FUNCTION_BEGIN] + EncodeOps(t, body) + [FUNCTION_END]
    case PrintString(_, s) => [STRING_BEGIN] + StringBytes(s) + [STRING_END]
    case VariableAddress(_, name) => [t.variable, ToByte(name as int)]
    case CharacterValue(_, c) => [t.character] + BigEndian16(c)
    case IntegerValue(_, v) => [INTEGER_BYTE] + BigEndian32(v)
    case Assembly(_, v) => [ASSEMBLY_BYTE] + BigEndian32(v)
    case Instr(_, k) => [InstructionByte(t, k)]
  }

  /** The operations' encodings one after another. */
  function EncodeOps(t: Opcodes, ops: seq<Op>): seq<Byte>
    decreases ops
  {
    if |ops| == 0 then [] else EncodeOp(t, ops[0]) + EncodeOps(t, ops[1..])
  }

  /** `FalseProgram.toByteArray`. */
  function EncodeProgram(t: Opcodes, ops: seq<Op>): seq<Byte>
  {
    [PROGRAM_BEGIN] + EncodeOps(t, ops) + [PROGRAM_END]
  }

  /** The exceptions the loader can raise: its own `IOException`, or an array index out of range. */
  datatype DecodeError = IllegallyChanged | OutOfBounds

  datatype DecodeOutcome = Decoded(ops: seq<Op>, counter: int) | DecodeFailure(error: DecodeError)

  /**
   * The search for the end of a function's block, from `e` at nesting
   * `level`, `inString` telling whether a string has been opened. Every
   * `8` and `126` counts, including those inside strings and numbers; the
   * block ends at the first `126` outside a string at level zero, or at the
   * end of the data.
   */
  function BlockEnd(data: seq<Byte>, e: nat, level: int, inString: bool): (r: nat)
    requires e <= |data|
    decreases |data| - e
    ensures e <= r <= |data|
  {
    if e >= |data| then e
    else if data[e] == FUNCTION_END && !inString && !(level > 0) then e
    else if data[e] == FUNCTION_BEGIN then BlockEnd(data, e + 1, level + 1, inString)
    else if data[e] == FUNCTION_END then BlockEnd(data, e + 1, level - 1, inString)
    else if !inString && data[e] == STRING_BEGIN then BlockEnd(data, e + 1, level, true)
    else if inString && data[e] == STRING_END then BlockEnd(data, e + 1, level, false)
    else BlockEnd(data, e + 1, level, inString)
  }

  /**
   * The characters of a string block from `e` on, two bytes each, up to
   * the first pair that starts with `-2` or the end of the data, with the
   * index where that search stopped. `None` when a pair is cut off by the
   * end of the data.
   */
  function StringFrom(data: seq<Byte>, e: nat): (r: Option<(nat, JString)>)
    requires e <= |data|
    decreases |data| - e
    ensures r.Some? ==> e <= r.value.0 <= |data|
  {
    if e >= |data| || data[e] == STRING_END then Some((e, []))
    else if e + 1 >= |data| then None
    else
      match StringFrom(data, e + 2)
      case None => None
      case Some((end, s)) => Some((end, [FromBigEndian16(data[e], data[e + 1])] + s))
  }

  /**
   * What one turn of the loader's loop reads at `i`: the operation, where
   * the loop goes on and where the counter then stands; or the exception.
   */
  datatype DecodedOp = DecodedOp(op: Op, next: nat, counter: int) | OpFailure(error: DecodeError)

  /**
   * The operation whose opcode is at `i`, the counter standing at `ctr`.
   * A function's body is read from the same data, between `i + 1` and the
   * end of its block, with the same counter after the function took its
   * index.
   */
  function DecodeOpAt(t: Opcodes, data: seq<Byte>, i: nat, ctr: int): (r: DecodedOp)
    requires i < |data|
    decreases |data| - i, 0
    ensures r.DecodedOp? ==> i < r.next
  {
    var b := data[i];
    if b == FUNCTION_BEGIN then
      var e := BlockEnd(data, i + 1, 0, false);
      match DecodeFrom(t, data, i + 1, e, ctr + 1)
      case DecodeFailure(err) => OpFailure(err)
      case Decoded(body, c1) => DecodedOp(Lambda(ctr + 1, body), e + 1, c1)
    else if b == STRING_BEGIN then
      match StringFrom(data, i + 1)
      case None => OpFailure(OutOfBounds)
      case Some((end, s)) => DecodedOp(PrintString(ctr + 1, s), end + 1, ctr + 1)
    else if b == t.variable then
      if i + 1 < |data| then DecodedOp(VariableAddress(ctr + 1, SignExtend(data[i + 1])), i + 2, ctr + 1)
      else OpFailure(OutOfBounds)
    else if b == t.character then
      if i + 2 < |data| then DecodedOp(CharacterValue(ctr + 1, FromBigEndian16(data[i + 1], data[i + 2])), i + 3, ctr + 1)
      else OpFailure(OutOfBounds)
    else if b == INTEGER_BYTE || b == ASSEMBLY_BYTE then
      if i + 4 < |data| then
        var v := FromBigEndian32(data[i + 1], data[i + 2], data[i + 3], data[i + 4]);
        DecodedOp(if b == INTEGER_BYTE then IntegerValue(ctr + 1, v) else Assembly(ctr + 1, v), i + 5, ctr + 1)
      else OpFailure(OutOfBounds)
    else
      match DecodeInstruction(t, b)
      case Some(k) => DecodedOp(Instr(ctr + 1, k), i + 1, ctr + 1)
      case None => OpFailure(IllegallyChanged)
  }

  /** `op` in front of what the rest of the data decodes to. */
  function PrependDecoded(op: Op, rest: DecodeOutcome): DecodeOutcome
  {
    if rest.Decoded? then Decoded([op] + rest.ops, rest.counter) else rest
  }

  /**
   * Reference definition of `parseByteCode(beg, end, data, ctr)`: the
   * operations whose opcodes lie from `i` to before `end`; an operation's
   * payload may reach past `end`.
   */
  function DecodeFrom(t: Opcodes, data: seq<Byte>, i: nat, end: int, ctr: int): DecodeOutcome
    decreases |data| - i, 1
  {
    if !(i < end && i < |data|) then Decoded([], ctr)
    else
      match DecodeOpAt(t, data, i, ctr)
      case OpFailure(err) => DecodeFailure(err)
      case DecodedOp(op, next, c1) => PrependDecoded(op, DecodeFrom(t, data, next, end, c1))
  }

  /**
   * The checks of `loadByteCode` on the bytes read, then
   * `parseByteCode(data)` between the header and the trailer.
   */
  function LoadByteCode(t: Opcodes, data: seq<Byte>): (r: DecodeOutcome)
    ensures r.Decoded? ==> 2 <= |data| && data[0] == PROGRAM_BEGIN && data[|data| - 1] == PROGRAM_END
  {
    if |data| == 0 then DecodeFailure(OutOfBounds)
    else if data[0] != PROGRAM_BEGIN || data[|data| - 1] != PROGRAM_END then DecodeFailure(IllegallyChanged)
    else DecodeFrom(t, data, 1, |data| - 1, 0)
  }
}
