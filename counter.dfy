/**
 * The counter that numbers operations while a program is being built.
 */
module OccurrenceCounting {

  class OccurrenceCounter {
    var ctr: int

    constructor ()
      ensures ctr == 0
    {
      ctr := 0;
    }

    /** `count()`: the j-th call on a counter that started at n returns n + j. */
    method Count() returns (r: int)
      modifies this
      ensures ctr == old(ctr) + 1
      ensures r == ctr
    {
      ctr := ctr + 1;
      r := ctr;
    }
  }
}
