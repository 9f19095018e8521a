/**
 * The compiled form of a FALSE program: a tree of operations. Every
 * operation carries the occurrence index the compiler (or the byte-code
 * loader) gave it; a lambda holds the operations of its body.
 */
module Operations {
  import opened JavaTypes

  /** The instructions that consist of one character and carry no payload. */
  datatype Instruction =
    | Assign | Read | Execute
    | Add | Subtract | Multiply | Divide | UnaryMinus
    | Equals | GreaterThan | And | Or | Not
    | Duplicate | Delete | Swap | Rotate | Pick
    | If | While
    | PrintNumber | PrintCharacter | ReadCharacter | Flush

  datatype Op =
    | Lambda(index: int, body: seq<Op>)
    | PrintString(index: int, content: JString)
    | VariableAddress(index: int, name: JChar)
    | CharacterValue(index: int, character: JChar)
    | IntegerValue(index: int, value: Int32)
    /** Inline assembly: kept with its number, executed as a no-op. */
    | Assembly(index: int, value: Int32)
    | Instr(index: int, kind: Instruction)

  /** The occurrence indices of a forest in pre-order: each lambda before its body. */
  function Indices(ops: seq<Op>): seq<int>
    decreases ops
  {
    if |ops| == 0 then [] else IndicesOf(ops[0]) + Indices(ops[1..])
  }

  function IndicesOf(op: Op): seq<int>
    decreases op
  {
    match op
    case Lambda(i, body) => [i] + Indices(body)
    case _ => [op.index]
  }

  /** The integers `lo + 1, ..., hi` in increasing order. */
  function Upto(lo: int, hi: int): (r: seq<int>)
    requires lo <= hi
    ensures |r| == hi - lo
    ensures forall k :: 0 <= k < |r| ==> r[k] == lo + 1 + k
  {
    seq(hi - lo, k requires 0 <= k < hi - lo => lo + 1 + k)
  }

  /**
   * The tree `ops` numbered afresh the way an occurrence counter standing
   * at `c` numbers it while the tree is built: one increment per operation,
   * a lambda before its body. Also returns where the counter stops.
   */
  function Renumber(ops: seq<Op>, c: int): (seq<Op>, int)
    decreases ops
  {
    if |ops| == 0 then ([], c)
    else
      var (h, c1) := RenumberOp(ops[0], c);
      var (t, c2) := Renumber(ops[1..], c1);
      ([h] + t, c2)
  }

  function RenumberOp(op: Op, c: int): (Op, int)
    decreases op
  {
    match op
    case Lambda(_, body) =>
      var (b, c1) := Renumber(body, c + 1);
      (Lambda(c + 1, b), c1)
    case PrintString(_, s) => (PrintString(c + 1, s), c + 1)
    case VariableAddress(_, n) => (VariableAddress(c + 1, n), c + 1)
    case CharacterValue(_, v) => (CharacterValue(c + 1, v), c + 1)
    case IntegerValue(_, v) => (IntegerValue(c + 1, v), c + 1)
    case Assembly(_, v) => (Assembly(c + 1, v), c + 1)
    case Instr(_, k) => (Instr(c + 1, k), c + 1)
  }

  /**
   * Renumbering hands out consecutive indices: the pre-order indices of the
   * result are exactly `c + 1, ..., c'` where `c'` is where the counter stops,
   * so they are distinct and increase in source order.
   */
  lemma {:induction false} RenumberIsConsecutive(ops: seq<Op>, c: int)
    ensures c <= Renumber(ops, c).1
    ensures Indices(Renumber(ops, c).0) == Upto(c, Renumber(ops, c).1)
    decreases ops
  {
    if |ops| > 0 {
      var (h, c1) := RenumberOp(ops[0], c);
      var (t, c2) := Renumber(ops[1..], c1);
      RenumberOpIsConsecutive(ops[0], c);
      RenumberIsConsecutive(ops[1..], c1);
      assert ([h] + t)[0] == h && ([h] + t)[1..] == t;
      assert Indices([h] + t) == IndicesOf(h) + Indices(t);
    }
  }

  lemma {:induction false} RenumberOpIsConsecutive(op: Op, c: int)
    ensures c < RenumberOp(op, c).1
    ensures IndicesOf(RenumberOp(op, c).0) == Upto(c, RenumberOp(op, c).1)
    decreases op
  {
    if op.Lambda? {
      RenumberIsConsecutive(op.body, c + 1);
    }
  }
}
