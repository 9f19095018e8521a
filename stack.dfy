/**
 * `StackMemory`: a list used as a stack whose top is the last element.
 */
module Memory {
  import opened JavaTypes
  import opened Machine

  /**
   * `pick(i)` on the items `s`: a copy of the item `i` places below the top
   * is pushed; an index outside the stack is an error and changes nothing.
   */
  function PickSpec(s: seq<Value>, i: int): (r: Option<seq<Value>>)
    ensures r.Some? <==> 0 <= i < |s|
    ensures r.Some? ==> |r.value| == |s| + 1 && r.value[..|s|] == s && Top(r.value) == s[|s| - 1 - i]
  {
    if i < 0 || i >= |s| then None else Some(s + [s[|s| - 1 - i]])
  }

  /** The documented example: 1 2 3 4 with pick 2 gives 1 2 3 4 2; pick 0 duplicates the top. */
  lemma PickExamples(s: seq<Value>)
    requires |s| > 0
    ensures PickSpec([Int(1), Int(2), Int(3), Int(4)], 2) == Some([Int(1), Int(2), Int(3), Int(4), Int(2)])
    ensures PickSpec(s, 0) == Some(s + [Top(s)])
  {
    var example := [Int(1), Int(2), Int(3), Int(4)];
    assert example[4 - 1 - 2] == Int(2);
    assert example + [Int(2)] == [Int(1), Int(2), Int(3), Int(4), Int(2)];
  }

  class StackMemory {
    /** The items, the bottom first. */
    var items: seq<Value>

    constructor()
      ensures items == []
    {
      items := [];
    }

    function Size(): nat
      reads this
    {
      |items|
    }

    /** `push`: the value goes on top; nothing below changes. */
    method Push(v: Value)
      modifies this
      ensures items == old(items) + [v]
    {
      items := items + [v];
    }

    /** `pop`: the top item, removed; on an empty stack the list's index check fails. */
    method Pop() returns (v: Option<Value>)
      modifies this
      ensures old(items) == [] ==> v == None && items == old(items)
      ensures old(items) != [] ==> v == Some(Top(old(items))) && items == Below(old(items))
    {
      if |items| == 0 {
        return None;
      }
      v := Some(items[|items| - 1]);
      items := items[..|items| - 1];
    }

    /** `pick(i)`: false for the bounds error, which leaves the stack as it was. */
    method Pick(i: int) returns (ok: bool)
      modifies this
      ensures PickSpec(old(items), i) == if ok then Some(items) else None
      ensures !ok ==> items == old(items)
    {
      if i < 0 || i >= |items| {
        return false;
      }
      Push(items[|items| - 1 - i]);
      ok := true;
    }
  }
}
