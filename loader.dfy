/**
 * `FalseProgram.loadByteCode` and `parseByteCode` on the bytes read: one
 * loop over an index, a switch on the byte there, the scans for the end of
 * a function's block and of a string, and a shared occurrence counter.
 */
module ByteCodeLoader {
  import opened JavaTypes
  import opened Operations
  import opened ByteCode
  import opened OccurrenceCounting

  /** `ops` in front of what the rest of the data decodes to. */
  function PrependAllDecoded(ops: seq<Op>, rest: DecodeOutcome): DecodeOutcome
  {
    if rest.Decoded? then Decoded(ops + rest.ops, rest.counter) else rest
  }

  lemma PrependAllDecodedStep(ops: seq<Op>, op: Op, rest: DecodeOutcome)
    ensures PrependAllDecoded(ops, PrependDecoded(op, rest)) == PrependAllDecoded(ops + [op], rest)
  {
    if rest.Decoded? {
      assert ops + ([op] + rest.ops) == ops + [op] + rest.ops;
    }
  }

  /** `s` in front of the characters a string scan yields; the scan's failure stays a failure. */
  function PrefixString(s: JString, rest: Option<(nat, JString)>): Option<(nat, JString)>
  {
    if rest.Some? then Some((rest.value.0, s + rest.value.1)) else None
  }

  /** The search for the end of a function's block, from `beg` at level zero outside a string. */
  method FindBlockEnd(data: array<Byte>, beg: nat) returns (e: nat)
    requires beg <= data.Length
    ensures e == BlockEnd(data[..], beg, 0, false)
  {
    e := beg;
    var level := 0;
    var inString := false;
    while e < data.Length && (data[e] != FUNCTION_END || inString || level > 0)
      invariant beg <= e <= data.Length
      invariant BlockEnd(data[..], beg, 0, false) == BlockEnd(data[..], e, level, inString)
      decreases data.Length - e
    {
      if data[e] == FUNCTION_BEGIN {
        level := level + 1;
      } else if data[e] == FUNCTION_END {
        level := level - 1;
      } else if !inString && data[e] == STRING_BEGIN {
        inString := true;
      } else if inString && data[e] == STRING_END {
        inString := false;
      }
      e := e + 1;
    }
  }

  /**
   * The characters of a string block from `beg`, two bytes each, up to a
   * `-2` or the end of the data, with where the scan stopped; `None` when
   * the second byte of a pair lies past the end.
   */
  method ReadString(data: array<Byte>, beg: nat) returns (r: Option<(nat, JString)>)
    requires beg <= data.Length
    ensures r == StringFrom(data[..], beg)
  {
    var content: JString := [];
    var e := beg;
    ghost var whole := StringFrom(data[..], beg);
    assert whole.Some? ==> [] + whole.value.1 == whole.value.1;
    while e < data.Length && data[e] != STRING_END
      invariant beg <= e <= data.Length
      invariant StringFrom(data[..], beg) == PrefixString(content, StringFrom(data[..], e))
      decreases data.Length - e
    {
      if e + 1 >= data.Length {
        return None;
      }
      var c := FromBigEndian16(data[e], data[e + 1]);
      assert StringFrom(data[..], e) == PrefixString([c], StringFrom(data[..], e + 2));
      assert content + ([c] + (if StringFrom(data[..], e + 2).Some? then StringFrom(data[..], e + 2).value.1 else []))
          == (content + [c]) + (if StringFrom(data[..], e + 2).Some? then StringFrom(data[..], e + 2).value.1 else []);
      content := content + [c];
      e := e + 2;
    }
    assert StringFrom(data[..], e) == Some((e as nat, []));
    assert content + [] == content;
    r := Some((e, content));
  }

  /** One turn of the loader's switch at `i`. */
  method ParseOpAt(t: Opcodes, data: array<Byte>, i: nat, ctr: OccurrenceCounter) returns (r: DecodedOp)
    requires i < data.Length
    modifies ctr
    decreases data.Length - i, 0
    ensures r == DecodeOpAt(t, data[..], i, old(ctr.ctr))
    ensures r.DecodedOp? ==> ctr.ctr == r.counter
  {
    var b := data[i];
    if b == FUNCTION_BEGIN {
      var e := FindBlockEnd(data, i + 1);
      var index := ctr.Count();
      var body := ParseByteCode(t, i + 1, e, data, ctr);
      if body.DecodeFailure? {
        return OpFailure(body.error);
      }
      r := DecodedOp(Lambda(index, body.ops), e + 1, ctr.ctr);
    } else if b == STRING_BEGIN {
      var s := ReadString(data, i + 1);
      if s.None? {
        return OpFailure(OutOfBounds);
      }
      var index := ctr.Count();
      r := DecodedOp(PrintString(index, s.value.1), s.value.0 + 1, ctr.ctr);
    } else if b == t.variable {
      if i + 1 >= data.Length {
        return OpFailure(OutOfBounds);
      }
      var index := ctr.Count();
      r := DecodedOp(VariableAddress(index, SignExtend(data[i + 1])), i + 2, ctr.ctr);
    } else if b == t.character {
      if i + 2 >= data.Length {
        return OpFailure(OutOfBounds);
      }
      var index := ctr.Count();
      r := DecodedOp(CharacterValue(index, FromBigEndian16(data[i + 1], data[i + 2])), i + 3, ctr.ctr);
    } else if b == INTEGER_BYTE || b == ASSEMBLY_BYTE {
      var integer := b == INTEGER_BYTE;
      if i + 4 >= data.Length {
        return OpFailure(OutOfBounds);
      }
      var v := FromBigEndian32(data[i + 1], data[i + 2], data[i + 3], data[i + 4]);
      var index := ctr.Count();
      if integer {
        r := DecodedOp(IntegerValue(index, v), i + 5, ctr.ctr);
      } else {
        r := DecodedOp(Assembly(index, v), i + 5, ctr.ctr);
      }
    } else {
      var k := DecodeInstruction(t, b);
      if k.None? {
        return OpFailure(IllegallyChanged);
      }
      var index := ctr.Count();
      r := DecodedOp(Instr(index, k.value), i + 1, ctr.ctr);
    }
  }

  /** `parseByteCode(beg, end, data, ctr)`: the operations whose opcodes lie from `beg` to before `end`. */
  method ParseByteCode(t: Opcodes, beg: nat, end: int, data: array<Byte>, ctr: OccurrenceCounter) returns (r: DecodeOutcome)
    modifies ctr
    decreases data.Length - beg, 1
    ensures r == DecodeFrom(t, data[..], beg, end, old(ctr.ctr))
    ensures r.Decoded? ==> ctr.ctr == r.counter
  {
    var operations: seq<Op> := [];
    ghost var c0 := ctr.ctr;
    var i := beg;
    while i < end && i < data.Length
      invariant beg <= i
      invariant DecodeFrom(t, data[..], beg, end, c0) == PrependAllDecoded(operations, DecodeFrom(t, data[..], i, end, ctr.ctr))
      decreases data.Length - i
    {
      ghost var c := ctr.ctr;
      var d := ParseOpAt(t, data, i, ctr);
      if d.OpFailure? {
        return DecodeFailure(d.error);
      }
      PrependAllDecodedStep(operations, d.op, DecodeFrom(t, data[..], d.next, end, ctr.ctr));
      operations := operations + [d.op];
      i := d.next;
    }
    assert operations + [] == operations;
    r := Decoded(operations, ctr.ctr);
  }

  /** `loadByteCode` on the bytes read from the file: the header and trailer checks, then `parseByteCode(data)` with a new counter. */
  method LoadByteCodeFrom(t: Opcodes, data: array<Byte>) returns (r: DecodeOutcome)
    ensures r == LoadByteCode(t, data[..])
  {
    if data.Length == 0 {
      return DecodeFailure(OutOfBounds);
    }
    if data[0] != PROGRAM_BEGIN || data[data.Length - 1] != PROGRAM_END {
      return DecodeFailure(IllegallyChanged);
    }
    var ctr := new OccurrenceCounter();
    r := ParseByteCode(t, 1, data.Length - 1, data, ctr);
  }
}
