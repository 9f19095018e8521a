/**
 * What the loader makes of the encoder's output. The function-block scan
 * counts every `8` and `126` and every string marker, also inside payloads,
 * so the round trip holds for trees whose payload bytes avoid the four
 * markers `8`, `126`, `-1` and `-2`; then loading gives the tree back with
 * only its indices renumbered.
 */
module ByteCodeRoundTrip {
  import opened JavaTypes
  import opened Operations
  import opened ByteCode
  import opened Parser
  import opened Stripper
  import opened Compiler

  /** The bytes the loader's scans react to. */
  predicate Marker(b: Byte)
  {
    b == FUNCTION_BEGIN || b == FUNCTION_END || b == STRING_BEGIN || b == STRING_END
  }

  predicate PlainBytes(s: seq<Byte>)
  {
    forall k :: 0 <= k < |s| ==> !Marker(s[k])
  }

  /**
   * No payload byte of `op` is a marker, and a variable name survives the
   * one-byte round trip through `(char)`.
   */
  predicate PlainOp(op: Op)
    decreases op
  {
    match op
    case Lambda(_, body) => PlainOps(body)
    case PrintString(_, s) => forall k :: 0 <= k < |s| ==> PlainBytes(BigEndian16(s[k]))
    case VariableAddress(_, n) => n < 0x80 && !Marker(ToByte(n as int))
    case CharacterValue(_, c) => PlainBytes(BigEndian16(c))
    case IntegerValue(_, v) => PlainBytes(BigEndian32(v))
    case Assembly(_, v) => PlainBytes(BigEndian32(v))
    case Instr(_, _) => true
  }

  predicate PlainOps(ops: seq<Op>)
    decreases ops
  {
    |ops| == 0 || (PlainOp(ops[0]) && PlainOps(ops[1..]))
  }

  /** `s` stands in `data` from `e` on. */
  predicate At(data: seq<Byte>, e: nat, s: seq<Byte>)
  {
    e + |s| <= |data| && forall k :: 0 <= k < |s| ==> data[e + k] == s[k]
  }

  lemma AtSplit(data: seq<Byte>, e: nat, a: seq<Byte>, b: seq<Byte>)
    requires At(data, e, a + b)
    ensures At(data, e, a) && At(data, e + |a|, b)
  {
    forall k | 0 <= k < |a| ensures data[e + k] == a[k] {
      assert (a + b)[k] == a[k];
    }
    forall k | 0 <= k < |b| ensures data[e + |a| + k] == b[k] {
      assert (a + b)[|a| + k] == b[k];
    }
  }

  lemma AtIndex(data: seq<Byte>, e: nat, s: seq<Byte>, k: nat)
    requires At(data, e, s) && k < |s|
    ensures data[e + k] == s[k]
  {
  }

  /** The encoding of a string read from the front: the first character's two bytes, then the rest. */
  lemma {:induction false} StringBytesFront(s: JString)
    requires |s| > 0
    ensures StringBytes(s) == BigEndian16(s[0]) + StringBytes(s[1..])
    decreases |s|
  {
    if |s| > 1 {
      var u := s[..|s| - 1];
      StringBytesFront(u);
      assert u[0] == s[0] && u[1..] == s[1..][..|s[1..]| - 1];
      assert s[1..][|s[1..]| - 1] == s[|s| - 1];
    } else {
      assert s[..0] == [] && s[1..] == [];
    }
  }

  /** Character `k` of a string sits, high byte first, at bytes `2k` and `2k + 1` of its encoding. */
  lemma {:induction false} StringBytesAt(s: JString, k: nat)
    requires k < |s|
    ensures StringBytes(s)[2 * k..2 * k + 2] == BigEndian16(s[k])
    decreases |s|
  {
    var u := s[..|s| - 1];
    assert StringBytes(s) == StringBytes(u) + BigEndian16(s[|s| - 1]);
    if k < |s| - 1 {
      StringBytesAt(u, k);
      assert StringBytes(s)[2 * k..2 * k + 2] == StringBytes(u)[2 * k..2 * k + 2];
    }
  }

  /** The encoding of a string whose characters are plain holds no marker. */
  lemma StringBytesArePlain(s: JString)
    requires forall k :: 0 <= k < |s| ==> PlainBytes(BigEndian16(s[k]))
    ensures PlainBytes(StringBytes(s))
  {
    var r := StringBytes(s);
    forall j | 0 <= j < |r| ensures !Marker(r[j]) {
      var k := Halve(j);
      StringBytesAt(s, k);
      assert r[j] == r[2 * k..2 * k + 2][j - 2 * k];
    }
  }

  /** The character whose bytes include byte `j`. */
  lemma Halve(j: nat) returns (k: nat)
    ensures 2 * k <= j < 2 * k + 2
  {
    k := j / 2;
  }

  /** Plain bytes pass through the function-block scan without changing its state. */
  lemma {:induction false} PlainRunSkips(data: seq<Byte>, e: nat, n: nat, level: int, inString: bool)
    requires e + n <= |data|
    requires forall k :: e <= k < e + n ==> !Marker(data[k])
    ensures BlockEnd(data, e, level, inString) == BlockEnd(data, e + n, level, inString)
    decreases n
  {
    if n > 0 {
      PlainRunSkips(data, e + 1, n - 1, level, inString);
    }
  }

  lemma PlainAt(data: seq<Byte>, e: nat, s: seq<Byte>)
    requires At(data, e, s) && PlainBytes(s)
    ensures forall k :: e <= k < e + |s| ==> !Marker(data[k])
  {
    forall k | e <= k < e + |s| ensures !Marker(data[k]) {
      AtIndex(data, e, s, k - e);
    }
  }

  /** No opcode of the table is a marker; this is all the scan lemmas need of a valid table. */
  predicate MarkerFreeOpcodes(t: Opcodes)
  {
    && (forall k :: !Marker(InstructionByte(t, k)))
    && !Marker(t.variable) && !Marker(t.character)
  }

  /** A valid table, as the decoding lemmas demand it. */
  predicate Loadable(t: Opcodes)
  {
    ValidOpcodes(t)
  }

  lemma ValidOpcodesAreMarkerFree(t: Opcodes)
    requires ValidOpcodes(t)
    ensures MarkerFreeOpcodes(t)
  {
  }

  /** The opcodes of the single-byte-headed operations are not markers. */
  lemma OpcodeIsNoMarker(t: Opcodes, op: Op)
    requires MarkerFreeOpcodes(t) && !op.Lambda? && !op.PrintString?
    ensures !Marker(EncodeOp(t, op)[0])
  {
  }

  /** The function-block scan steps over the encoding of a plain operation at a non-negative level. */
  lemma {:induction false} ScanOp(t: Opcodes, op: Op, data: seq<Byte>, e: nat, level: int)
    requires MarkerFreeOpcodes(t) && PlainOp(op) && 0 <= level
    requires At(data, e, EncodeOp(t, op))
    ensures BlockEnd(data, e, level, false) == BlockEnd(data, e + |EncodeOp(t, op)|, level, false)
    decreases op, 0
  {
    match op
    case Lambda(_, body) =>
      var b := EncodeOps(t, body);
      AtSplit(data, e, [FUNCTION_BEGIN] + b, [FUNCTION_END]);
      AtSplit(data, e, [FUNCTION_BEGIN], b);
      AtIndex(data, e, [FUNCTION_BEGIN], 0);
      ScanOps(t, body, data, e + 1, level + 1);
      AtIndex(data, e + 1 + |b|, [FUNCTION_END], 0);
      ScanClose(data, e, |b|, level);
    case PrintString(_, s) =>
      ScanString(data, e, s, level);
    case _ =>
      ScanAtom(t, op, data, e, level);
  }

  /** The step over a function's `8` and matching `126` around its body. */
  lemma ScanClose(data: seq<Byte>, e: nat, n: nat, level: int)
    requires 0 <= level && e + n + 2 <= |data|
    requires data[e] == FUNCTION_BEGIN && data[e + 1 + n] == FUNCTION_END
    requires BlockEnd(data, e + 1, level + 1, false) == BlockEnd(data, e + 1 + n, level + 1, false)
    ensures BlockEnd(data, e, level, false) == BlockEnd(data, e + n + 2, level, false)
  {
  }

  lemma ScanString(data: seq<Byte>, e: nat, s: JString, level: int)
    requires 0 <= level
    requires forall k :: 0 <= k < |s| ==> PlainBytes(BigEndian16(s[k]))
    requires At(data, e, [STRING_BEGIN] + StringBytes(s) + [STRING_END])
    ensures BlockEnd(data, e, level, false) == BlockEnd(data, e + 2 * |s| + 2, level, false)
  {
    var b := StringBytes(s);
    AtSplit(data, e, [STRING_BEGIN] + b, [STRING_END]);
    AtSplit(data, e, [STRING_BEGIN], b);
    AtIndex(data, e, [STRING_BEGIN], 0);
    AtIndex(data, e + 1 + |b|, [STRING_END], 0);
    StringBytesArePlain(s);
    PlainAt(data, e + 1, b);
    PlainRunSkips(data, e + 1, |b|, level, true);
    assert BlockEnd(data, e, level, false) == BlockEnd(data, e + 1, level, true);
    assert BlockEnd(data, e + 1 + |b|, level, true) == BlockEnd(data, e + 2 + |b|, level, false);
  }

  lemma ScanAtom(t: Opcodes, op: Op, data: seq<Byte>, e: nat, level: int)
    requires MarkerFreeOpcodes(t) && PlainOp(op) && !op.Lambda? && !op.PrintString?
    requires At(data, e, EncodeOp(t, op))
    ensures BlockEnd(data, e, level, false) == BlockEnd(data, e + |EncodeOp(t, op)|, level, false)
  {
    var enc := EncodeOp(t, op);
    assert PlainBytes(enc) by {
      OpcodeIsNoMarker(t, op);
    }
    PlainAt(data, e, enc);
    PlainRunSkips(data, e, |enc|, level, false);
  }

  lemma {:induction false} ScanOps(t: Opcodes, ops: seq<Op>, data: seq<Byte>, e: nat, level: int)
    requires MarkerFreeOpcodes(t) && PlainOps(ops) && 0 <= level
    requires At(data, e, EncodeOps(t, ops))
    ensures BlockEnd(data, e, level, false) == BlockEnd(data, e + |EncodeOps(t, ops)|, level, false)
    decreases ops, 1
  {
    if |ops| > 0 {
      var a := EncodeOp(t, ops[0]);
      var rest := EncodeOps(t, ops[1..]);
      assert EncodeOps(t, ops) == a + rest;
      AtSplit(data, e, a, rest);
      ScanOp(t, ops[0], data, e, level);
      ScanOps(t, ops[1..], data, e + |a|, level);
    }
  }

  /** A plain string's encoding, followed by `-2`, reads back as the string. */
  lemma {:induction false} StringFromBytes(data: seq<Byte>, e: nat, s: JString)
    requires forall k :: 0 <= k < |s| ==> PlainBytes(BigEndian16(s[k]))
    requires At(data, e, StringBytes(s) + [STRING_END])
    ensures StringFrom(data, e) == Some((e + 2 * |s|, s))
    decreases |s|
  {
    if |s| == 0 {
      AtIndex(data, e, StringBytes(s) + [STRING_END], 0);
    } else {
      var c := BigEndian16(s[0]);
      StringBytesFront(s);
      assert StringBytes(s) + [STRING_END] == c + (StringBytes(s[1..]) + [STRING_END]);
      AtSplit(data, e, c, StringBytes(s[1..]) + [STRING_END]);
      AtIndex(data, e, c, 0);
      AtIndex(data, e, c, 1);
      assert PlainBytes(c);
      assert forall k :: 0 <= k < |s[1..]| ==> s[1..][k] == s[k + 1];
      StringFromBytes(data, e + 2, s[1..]);
      BigEndian16RoundTrip(s[0]);
      assert [s[0]] + s[1..] == s;
    }
  }

  /** A byte below `0x80` is its own sign extension. */
  lemma VariableNameRoundTrip(n: JChar)
    requires n < 0x80
    ensures SignExtend(ToByte(n as int)) == n
  {
  }

  /**
   * The loader reads the encoding of a plain operation back as the same
   * operation, numbered by the counter, and goes on right after it.
   */
  lemma {:induction false} DecodeOpIsRenumber(t: Opcodes, op: Op, data: seq<Byte>, i: nat, ctr: int)
    requires Loadable(t) && PlainOp(op)
    requires At(data, i, EncodeOp(t, op))
    ensures i < |data|
    ensures DecodeOpAt(t, data, i, ctr) == DecodedOp(RenumberOp(op, ctr).0, i + |EncodeOp(t, op)|, RenumberOp(op, ctr).1)
    decreases op, 0
  {
    var enc := EncodeOp(t, op);
    AtIndex(data, i, enc, 0);
    match op
    case Lambda(_, body) =>
      DecodeLambda(t, body, data, i, ctr);
    case PrintString(_, s) =>
      var b := StringBytes(s);
      assert enc == [STRING_BEGIN] + (b + [STRING_END]);
      AtSplit(data, i, [STRING_BEGIN], b + [STRING_END]);
      StringFromBytes(data, i + 1, s);
    case _ =>
      DecodeAtom(t, op, data, i, ctr);
  }

  lemma {:induction false} DecodeLambda(t: Opcodes, body: seq<Op>, data: seq<Byte>, i: nat, ctr: int)
    requires Loadable(t) && PlainOps(body)
    requires At(data, i, [FUNCTION_BEGIN] + EncodeOps(t, body) + [FUNCTION_END])
    ensures i < |data|
    ensures var (b, c1) := Renumber(body, ctr + 1);
      DecodeOpAt(t, data, i, ctr) == DecodedOp(Lambda(ctr + 1, b), i + |EncodeOps(t, body)| + 2, c1)
    decreases body, 2
  {
    var b := EncodeOps(t, body);
    AtSplit(data, i, [FUNCTION_BEGIN] + b, [FUNCTION_END]);
    AtSplit(data, i, [FUNCTION_BEGIN], b);
    AtIndex(data, i, [FUNCTION_BEGIN], 0);
    AtIndex(data, i + 1 + |b|, [FUNCTION_END], 0);
    ValidOpcodesAreMarkerFree(t);
    ScanOps(t, body, data, i + 1, 0);
    assert BlockEnd(data, i + 1 + |b|, 0, false) == i + 1 + |b|;
    DecodeOpsIsRenumber(t, body, data, i + 1, i + 1 + |b|, ctr + 1);
  }

  lemma DecodeAtom(t: Opcodes, op: Op, data: seq<Byte>, i: nat, ctr: int)
    requires ValidOpcodes(t) && PlainOp(op) && !op.Lambda? && !op.PrintString?
    requires At(data, i, EncodeOp(t, op))
    ensures i < |data|
    ensures DecodeOpAt(t, data, i, ctr) == DecodedOp(RenumberOp(op, ctr).0, i + |EncodeOp(t, op)|, RenumberOp(op, ctr).1)
  {
    AtIndex(data, i, EncodeOp(t, op), 0);
    match op
    case VariableAddress(_, n) =>
      AtIndex(data, i, EncodeOp(t, op), 1);
      VariableNameRoundTrip(n);
      DecodeVariable(t, data, i, ctr);
    case CharacterValue(_, c) =>
      AtIndex(data, i, EncodeOp(t, op), 1);
      AtIndex(data, i, EncodeOp(t, op), 2);
      BigEndian16RoundTrip(c);
      DecodeCharacter(t, data, i, ctr);
    case IntegerValue(_, v) =>
      DecodeNumberAt(t, data, i, ctr, INTEGER_BYTE, v);
    case Assembly(_, v) =>
      DecodeNumberAt(t, data, i, ctr, ASSEMBLY_BYTE, v);
    case Instr(_, k) =>
      DecodeInstr(t, data, i, ctr, k);
  }

  lemma DecodeNumberAt(t: Opcodes, data: seq<Byte>, i: nat, ctr: int, b: Byte, v: Int32)
    requires ValidOpcodes(t) && (b == INTEGER_BYTE || b == ASSEMBLY_BYTE)
    requires At(data, i, [b] + BigEndian32(v))
    ensures DecodeOpAt(t, data, i, ctr)
      == DecodedOp(if b == INTEGER_BYTE then IntegerValue(ctr + 1, v) else Assembly(ctr + 1, v), i + 5, ctr + 1)
  {
    var r := BigEndian32(v);
    BigEndian32RoundTrip(v);
    AtIndex(data, i, [b] + r, 0);
    AtIndex(data, i, [b] + r, 1);
    AtIndex(data, i, [b] + r, 2);
    AtIndex(data, i, [b] + r, 3);
    AtIndex(data, i, [b] + r, 4);
    assert data[i + 1] == r[0] && data[i + 2] == r[1] && data[i + 3] == r[2] && data[i + 4] == r[3];
    DecodeNumber(t, data, i, ctr);
  }

  lemma DecodeVariable(t: Opcodes, data: seq<Byte>, i: nat, ctr: int)
    requires ValidOpcodes(t) && i + 1 < |data| && data[i] == t.variable
    ensures DecodeOpAt(t, data, i, ctr) == DecodedOp(VariableAddress(ctr + 1, SignExtend(data[i + 1])), i + 2, ctr + 1)
  {
  }

  lemma DecodeCharacter(t: Opcodes, data: seq<Byte>, i: nat, ctr: int)
    requires ValidOpcodes(t) && i + 2 < |data| && data[i] == t.character
    ensures DecodeOpAt(t, data, i, ctr) == DecodedOp(CharacterValue(ctr + 1, FromBigEndian16(data[i + 1], data[i + 2])), i + 3, ctr + 1)
  {
  }

  lemma DecodeNumber(t: Opcodes, data: seq<Byte>, i: nat, ctr: int)
    requires ValidOpcodes(t) && i + 4 < |data| && (data[i] == INTEGER_BYTE || data[i] == ASSEMBLY_BYTE)
    ensures var v := FromBigEndian32(data[i + 1], data[i + 2], data[i + 3], data[i + 4]);
      DecodeOpAt(t, data, i, ctr)
      == DecodedOp(if data[i] == INTEGER_BYTE then IntegerValue(ctr + 1, v) else Assembly(ctr + 1, v), i + 5, ctr + 1)
  {
  }

  lemma DecodeInstr(t: Opcodes, data: seq<Byte>, i: nat, ctr: int, k: Instruction)
    requires ValidOpcodes(t) && i < |data| && data[i] == InstructionByte(t, k)
    ensures DecodeOpAt(t, data, i, ctr) == DecodedOp(Instr(ctr + 1, k), i + 1, ctr + 1)
  {
    assert DecodeInstruction(t, InstructionByte(t, k)) == Some(k);
  }

  lemma EncodeOpIsNonEmpty(t: Opcodes, op: Op)
    ensures |EncodeOp(t, op)| > 0
  {
  }

  lemma DecodeFromEmpty(t: Opcodes, data: seq<Byte>, i: nat, ctr: int)
    ensures DecodeFrom(t, data, i, i, ctr) == Decoded([], ctr)
  {
  }

  /** One node decoded at the front of a range. */
  lemma DecodeFromStep(t: Opcodes, data: seq<Byte>, i: nat, end: int, ctr: int, op: Op, next: nat, c1: int,
                       tail: seq<Op>, c2: int)
    requires i < end && i < |data| && DecodeOpAt(t, data, i, ctr) == DecodedOp(op, next, c1)
    requires DecodeFrom(t, data, next, end, c1) == Decoded(tail, c2)
    ensures DecodeFrom(t, data, i, end, ctr) == Decoded([op] + tail, c2)
  {
  }

  /** The encoding of a non-empty sequence of plain operations, split after its first operation. */
  lemma SplitEncodedOps(t: Opcodes, ops: seq<Op>, data: seq<Byte>, i: nat, end: int)
    requires |ops| > 0 && PlainOps(ops)
    requires At(data, i, EncodeOps(t, ops)) && end == i + |EncodeOps(t, ops)|
    ensures PlainOp(ops[0]) && PlainOps(ops[1..])
    ensures At(data, i, EncodeOp(t, ops[0])) && At(data, i + |EncodeOp(t, ops[0])|, EncodeOps(t, ops[1..]))
    ensures end == i + |EncodeOp(t, ops[0])| + |EncodeOps(t, ops[1..])|
  {
    AtSplit(data, i, EncodeOp(t, ops[0]), EncodeOps(t, ops[1..]));
  }

  /** Numbering a non-empty sequence numbers its first operation, then the rest from there. */
  lemma RenumberCons(ops: seq<Op>, ctr: int)
    requires |ops| > 0
    ensures Renumber(ops, ctr)
      == ([RenumberOp(ops[0], ctr).0] + Renumber(ops[1..], RenumberOp(ops[0], ctr).1).0,
          Renumber(ops[1..], RenumberOp(ops[0], ctr).1).1)
  {
  }

  /** The loader reads the operations from `i` to before `end` as `r.0`, the counter ending at `r.1`. */
  predicate DecodesTo(t: Opcodes, data: seq<Byte>, i: nat, end: int, ctr: int, r: (seq<Op>, int))
  {
    DecodeFrom(t, data, i, end, ctr) == Decoded(r.0, r.1)
  }

  /** The loader reads the encodings of plain operations, exactly filling its range, back as the renumbered operations. */
  lemma {:induction false} DecodeOpsIsRenumber(t: Opcodes, ops: seq<Op>, data: seq<Byte>, i: nat, end: int, ctr: int)
    requires Loadable(t) && PlainOps(ops)
    requires At(data, i, EncodeOps(t, ops)) && end == i + |EncodeOps(t, ops)|
    ensures DecodesTo(t, data, i, end, ctr, Renumber(ops, ctr))
    decreases ops, 1
  {
    if |ops| == 0 {
      assert end == i;
      DecodeFromEmpty(t, data, i, ctr);
    } else {
      SplitEncodedOps(t, ops, data, i, end);
      RenumberCons(ops, ctr);
      var c1 := RenumberOp(ops[0], ctr).1;
      DecodeOpsIsRenumber(t, ops[1..], data, i + |EncodeOp(t, ops[0])|, end, c1);
      DecodeOpThen(t, ops[0], data, i, i + |EncodeOp(t, ops[0])|, end, ctr, Renumber(ops[1..], c1));
    }
  }

  /** A plain operation decoded in front of whatever its successors decode to. */
  lemma {:induction false} DecodeOpThen(t: Opcodes, op: Op, data: seq<Byte>, i: nat, next: nat, end: int, ctr: int,
                                        rest: (seq<Op>, int))
    requires Loadable(t) && PlainOp(op)
    requires At(data, i, EncodeOp(t, op)) && next == i + |EncodeOp(t, op)| && next <= end
    requires DecodesTo(t, data, next, end, RenumberOp(op, ctr).1, rest)
    ensures DecodesTo(t, data, i, end, ctr, ([RenumberOp(op, ctr).0] + rest.0, rest.1))
    decreases op, 1
  {
    EncodeOpIsNonEmpty(t, op);
    DecodeOpIsRenumber(t, op, data, i, ctr);
    DecodeFromStep(t, data, i, end, ctr, RenumberOp(op, ctr).0, next, RenumberOp(op, ctr).1, rest.0, rest.1);
  }

  /**
   * Restricted round trip: loading the byte code of a plain program gives
   * back the same operations, payloads and nesting, numbered afresh from
   * a new counter.
   */
  lemma LoadEncodedProgram(t: Opcodes, ops: seq<Op>)
    requires ValidOpcodes(t) && PlainOps(ops)
    ensures LoadByteCode(t, EncodeProgram(t, ops)) == Decoded(Renumber(ops, 0).0, Renumber(ops, 0).1)
  {
    var data := EncodeProgram(t, ops);
    var b := EncodeOps(t, ops);
    assert data == [PROGRAM_BEGIN] + b + [PROGRAM_END];
    assert At(data, 1, b) by {
      forall k | 0 <= k < |b| ensures data[1 + k] == b[k] {
        assert data[1 + k] == ([PROGRAM_BEGIN] + b)[1 + k];
      }
    }
    DecodeOpsIsRenumber(t, ops, data, 1, |data| - 1, 0);
  }

  /**
   * Every `int`, at the top level of a program, survives the encoding: the
   * top-level loop reads the four bytes after `11` or `12` whatever they
   * are.
   */
  lemma TopLevelNumberRoundTrip(t: Opcodes, index: int, v: Int32)
    requires ValidOpcodes(t)
    ensures LoadByteCode(t, EncodeProgram(t, [IntegerValue(index, v)])) == Decoded([IntegerValue(1, v)], 1)
    ensures LoadByteCode(t, EncodeProgram(t, [Assembly(index, v)])) == Decoded([Assembly(1, v)], 1)
  {
    TopLevelNumber(t, IntegerValue(index, v), INTEGER_BYTE, v);
    TopLevelNumber(t, Assembly(index, v), ASSEMBLY_BYTE, v);
  }

  lemma TopLevelNumber(t: Opcodes, op: Op, b: Byte, v: Int32)
    requires ValidOpcodes(t)
    requires (op.IntegerValue? && b == INTEGER_BYTE) || (op.Assembly? && b == ASSEMBLY_BYTE)
    requires op.value == v
    ensures LoadByteCode(t, EncodeProgram(t, [op])) == Decoded([RenumberOp(op, 0).0], 1)
  {
    var r := BigEndian32(v);
    var data := EncodeProgram(t, [op]);
    assert EncodeOps(t, [op]) == [b] + r;
    assert data == [PROGRAM_BEGIN] + ([b] + r) + [PROGRAM_END];
    assert At(data, 1, [b] + r) by {
      forall k | 0 <= k < 5 ensures data[1 + k] == ([b] + r)[k] {
        assert data[1 + k] == ([PROGRAM_BEGIN] + ([b] + r))[1 + k];
      }
    }
    DecodeNumberAt(t, data, 1, 0, b, v);
    assert DecodeFrom(t, data, 6, 6, 1) == Decoded([], 1);
  }

  /**
   * Why the round trip needs plain payloads: an integer `126` inside a
   * function ends the function's block early, and the function's real
   * `126` is then read as an opcode the switch does not know.
   */
  lemma MarkerInPayloadBreaksFunction(t: Opcodes)
    requires ValidOpcodes(t)
    ensures !PlainOps([Lambda(0, [IntegerValue(0, 126)])])
    ensures LoadByteCode(t, EncodeProgram(t, [Lambda(0, [IntegerValue(0, 126)])])) == DecodeFailure(IllegallyChanged)
  {
    var ops := [Lambda(0, [IntegerValue(0, 126)])];
    assert BigEndian32(126) == [0, 0, 0, 126];
    assert Marker(BigEndian32(126)[3]);
    assert !PlainOp(IntegerValue(0, 126));
    assert EncodeOps(t, [IntegerValue(0, 126)]) == [INTEGER_BYTE, 0, 0, 0, 126];
    assert EncodeOps(t, ops) == [FUNCTION_BEGIN, INTEGER_BYTE, 0, 0, 0, 126, FUNCTION_END];
    var data := EncodeProgram(t, ops);
    assert data == [PROGRAM_BEGIN, FUNCTION_BEGIN, INTEGER_BYTE, 0, 0, 0, 126, FUNCTION_END, PROGRAM_END];
    assert BlockEnd(data, 6, 0, false) == 6;
    assert BlockEnd(data, 5, 0, false) == 6;
    assert BlockEnd(data, 4, 0, false) == 6;
    assert BlockEnd(data, 3, 0, false) == 6;
    assert BlockEnd(data, 2, 0, false) == 6;
    assert FromBigEndian32(0, 0, 0, 126) == 126;
    DecodeNumber(t, data, 2, 1);
    assert DecodeFrom(t, data, 7, 6, 2) == Decoded([], 2);
    assert DecodeFrom(t, data, 2, 6, 1) == Decoded([IntegerValue(2, 126)], 2);
    assert DecodeOpAt(t, data, 1, 0) == DecodedOp(Lambda(1, [IntegerValue(2, 126)]), 7, 2);
    assert data[7] == FUNCTION_END;
    assert !IsOpcode(t, data[7]);
    UnknownOpcodeIsRejected(t, data, 7, 2);
    assert DecodeFrom(t, data, 7, 8, 2) == DecodeFailure(IllegallyChanged);
    assert DecodeFrom(t, data, 1, 8, 0) == DecodeFailure(IllegallyChanged);
  }

  /** The bytes the loader's switch has a case for. */
  predicate IsOpcode(t: Opcodes, b: Byte)
  {
    || b == FUNCTION_BEGIN || b == STRING_BEGIN || b == t.variable || b == t.character
    || b == INTEGER_BYTE || b == ASSEMBLY_BYTE
    || exists k :: InstructionByte(t, k) == b
  }

  /**
   * An operation other than a function fails as illegally changed exactly
   * when its byte is none of the switch's cases, and then the whole range
   * fails: there is no partial result.
   */
  lemma UnknownOpcodeIsRejected(t: Opcodes, data: seq<Byte>, i: nat, ctr: int)
    requires i < |data| && data[i] != FUNCTION_BEGIN
    ensures DecodeOpAt(t, data, i, ctr) == OpFailure(IllegallyChanged) <==> !IsOpcode(t, data[i])
    ensures !IsOpcode(t, data[i]) ==> forall end :: i < end ==> DecodeFrom(t, data, i, end, ctr) == DecodeFailure(IllegallyChanged)
  {
    if exists k :: InstructionByte(t, k) == data[i] {
      var k :| InstructionByte(t, k) == data[i];
      DecodeInstructionIsComplete(t, k);
    }
  }

  /** The number of bytes an operation's encoding takes, as each class allocates them. */
  function EncodedSize(op: Op): nat
    decreases op
  {
    match op
    case Lambda(_, body) => 2 + EncodedSizes(body)
    case PrintString(_, s) => 2 * |s| + 2
    case VariableAddress(_, _) => 2
    case CharacterValue(_, _) => 3
    case IntegerValue(_, _) => 5
    case Assembly(_, _) => 5
    case Instr(_, _) => 1
  }

  function EncodedSizes(ops: seq<Op>): nat
    decreases ops
  {
    if |ops| == 0 then 0 else EncodedSize(ops[0]) + EncodedSizes(ops[1..])
  }

  /**
   * A function takes two bytes more than its children together, a string
   * two bytes per character and two markers, a number five bytes, an
   * instruction one.
   */
  lemma {:induction false} EncodingSize(t: Opcodes, op: Op)
    ensures |EncodeOp(t, op)| == EncodedSize(op)
    decreases op, 0
  {
    if op.Lambda? {
      EncodingSizes(t, op.body);
    }
  }

  lemma {:induction false} EncodingSizes(t: Opcodes, ops: seq<Op>)
    ensures |EncodeOps(t, ops)| == EncodedSizes(ops)
    decreases ops, 1
  {
    if |ops| > 0 {
      EncodingSize(t, ops[0]);
      EncodingSizes(t, ops[1..]);
    }
  }

  /** A string's encoding starts with `-1` and ends with `-2`, and character `k` sits high byte first at bytes `1 + 2k` and `2 + 2k`. */
  lemma PrintStringLayout(t: Opcodes, index: int, s: JString)
    ensures var r := EncodeOp(t, PrintString(index, s));
      && |r| == 2 * |s| + 2 && r[0] == STRING_BEGIN && r[|r| - 1] == STRING_END
      && forall k :: 0 <= k < |s| ==> r[1 + 2 * k] == BigEndian16(s[k])[0] && r[2 + 2 * k] == BigEndian16(s[k])[1]
  {
    var r := EncodeOp(t, PrintString(index, s));
    var b := StringBytes(s);
    forall k | 0 <= k < |s| ensures r[1 + 2 * k] == BigEndian16(s[k])[0] && r[2 + 2 * k] == BigEndian16(s[k])[1] {
      StringBytesAt(s, k);
      assert r[1 + 2 * k] == b[2 * k] && r[2 + 2 * k] == b[2 * k + 1];
      assert b[2 * k..2 * k + 2][0] == b[2 * k] && b[2 * k..2 * k + 2][1] == b[2 * k + 1];
    }
  }

  /**
   * A compiled program with plain payloads survives saving and loading
   * unchanged, indices included: the compiler numbers operations the way
   * the loader does.
   */
  lemma CompiledProgramRoundTrip(t: Opcodes, code: JString)
    requires ValidOpcodes(t) && CompileSpec(code).Compiled?
    requires PlainOps(CompileSpec(code).program)
    ensures LoadByteCode(t, EncodeProgram(t, CompileSpec(code).program)) == Decoded(CompileSpec(code).program, ParseSpec(StripSpec(code).code).counter)
  {
    var stripped := StripSpec(code).code;
    ParseIsNumbered(stripped, 0, 0);
    LoadEncodedProgram(t, CompileSpec(code).program);
  }
}
