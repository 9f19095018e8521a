/**
 * The `toByteArray` methods: each group collects its children's bytes in a
 * list and copies the list into an array; a string fills a byte buffer
 * character by character; a number copies the four bytes of its buffer.
 */
module ByteCodeEncoder {
  import opened JavaTypes
  import opened Operations
  import opened ByteCode

  /** Encoding is compatible with splitting the operation list anywhere. */
  lemma {:induction false} EncodeOpsConcat(t: Opcodes, a: seq<Op>, b: seq<Op>)
    ensures EncodeOps(t, a + b) == EncodeOps(t, a) + EncodeOps(t, b)
    decreases |a|
  {
    if |a| > 0 {
      assert (a + b)[0] == a[0] && (a + b)[1..] == a[1..] + b;
      EncodeOpsConcat(t, a[1..], b);
    } else {
      assert a + b == b;
    }
  }

  /** `ByteBuffer.putChar` for the characters one after another. */
  lemma StringBytesStep(s: JString, i: nat)
    requires i < |s|
    ensures StringBytes(s[..i + 1]) == StringBytes(s[..i]) + BigEndian16(s[i])
  {
    assert s[..i + 1][..i] == s[..i];
  }

  /** The copy of a list into a new array of its size. */
  method ToArray(list: seq<Byte>) returns (a: array<Byte>)
    ensures a[..] == list
    ensures fresh(a)
  {
    a := new Byte[|list|];
    var i := 0;
    while i < |list|
      invariant 0 <= i <= |list|
      invariant a[..i] == list[..i]
    {
      a[i] := list[i];
      i := i + 1;
    }
  }

  /** `toByteArray` of a group: `begin`, each child's bytes in order, `end`. */
  method GroupToByteArray(t: Opcodes, begin: Byte, ops: seq<Op>, end: Byte) returns (a: array<Byte>)
    ensures a[..] == [begin] + EncodeOps(t, ops) + [end]
    ensures fresh(a)
    decreases ops
  {
    var codeList: seq<Byte> := [begin];
    var i := 0;
    while i < |ops|
      invariant 0 <= i <= |ops|
      invariant codeList == [begin] + EncodeOps(t, ops[..i])
    {
      var child := OpToByteArray(t, ops[i]);
      EncodeOpsConcat(t, ops[..i], [ops[i]]);
      assert ops[..i + 1] == ops[..i] + [ops[i]];
      assert EncodeOps(t, [ops[i]]) == EncodeOp(t, ops[i]);
      codeList := codeList + child[..];
      i := i + 1;
    }
    assert ops[..i] == ops;
    codeList := codeList + [end];
    a := ToArray(codeList);
  }

  /** `PrintStringOperation.toByteArray`. */
  method StringToByteArray(content: JString) returns (a: array<Byte>)
    ensures a[..] == [STRING_BEGIN] + StringBytes(content) + [STRING_END]
    ensures fresh(a)
  {
    var values: seq<Byte> := [];
    var i := 0;
    while i < |content|
      invariant 0 <= i <= |content|
      invariant values == StringBytes(content[..i])
    {
      StringBytesStep(content, i);
      values := values + BigEndian16(content[i]);
      i := i + 1;
    }
    assert content[..i] == content;
    a := new Byte[2 * (|content| + 1)];
    a[0] := STRING_BEGIN;
    var k := 0;
    while k < |values|
      invariant 0 <= k <= |values|
      invariant a[0] == STRING_BEGIN
      invariant a[1..1 + k] == values[..k]
    {
      a[1 + k] := values[k];
      k := k + 1;
    }
    a[a.Length - 1] := STRING_END;
    assert a[1..1 + |values|] == values;
    assert a[..] == [a[0]] + a[1..1 + |values|] + [a[a.Length - 1]];
  }

  /** `toByteArray` of an integer or inline-assembly value: the opcode, then the `int` big-endian. */
  method NumberToByteArray(opcode: Byte, value: Int32) returns (a: array<Byte>)
    ensures a[..] == [opcode] + BigEndian32(value)
    ensures fresh(a)
  {
    var bb := BigEndian32(value);
    a := new Byte[5];
    a[0] := opcode;
    for i := 0 to 4
      invariant a[0] == opcode
      invariant a[1..1 + i] == bb[..i]
    {
      a[1 + i] := bb[i];
    }
    assert a[..] == [a[0]] + a[1..5];
  }

  /** `toByteArray` of one operation. */
  method OpToByteArray(t: Opcodes, op: Op) returns (a: array<Byte>)
    ensures a[..] == EncodeOp(t, op)
    ensures fresh(a)
    decreases op
  {
    match op
    case Lambda(_, body) =>
      a := GroupToByteArray(t, FUNCTION_BEGIN, body, FUNCTION_END);
    case PrintString(_, s) =>
      a := StringToByteArray(s);
    case VariableAddress(_, name) =>
      a := ToArray([t.variable, ToByte(name as int)]);
    case CharacterValue(_, c) =>
      a := ToArray([t.character] + BigEndian16(c));
    case IntegerValue(_, v) =>
      a := NumberToByteArray(INTEGER_BYTE, v);
    case Assembly(_, v) =>
      a := NumberToByteArray(ASSEMBLY_BYTE, v);
    case Instr(_, k) =>
      a := new Byte[1] [InstructionByte(t, k)];
  }

  /** `FalseProgram.toByteArray`. */
  method ProgramToByteArray(t: Opcodes, ops: seq<Op>) returns (a: array<Byte>)
    ensures a[..] == EncodeProgram(t, ops)
    ensures fresh(a)
  {
    a := GroupToByteArray(t, PROGRAM_BEGIN, ops, PROGRAM_END);
  }

  /** `FalseProgram.toPrimitiveByteArray`: the boxed bytes copied into a new array. */
  method ToPrimitiveByteArray(t: Opcodes, ops: seq<Op>) returns (r: array<Byte>)
    ensures r[..] == EncodeProgram(t, ops)
    ensures fresh(r)
  {
    var data := ProgramToByteArray(t, ops);
    r := new Byte[data.Length];
    var i := 0;
    while i < data.Length
      invariant 0 <= i <= data.Length
      invariant r[..i] == data[..i]
      invariant data[..] == EncodeProgram(t, ops)
    {
      r[i] := data[i];
      i := i + 1;
    }
    assert r[..] == r[..i] && data[..] == data[..i];
  }
}
