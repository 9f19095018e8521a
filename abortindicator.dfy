/**
 * `ExecutionAbortIndicator`: the flag another thread sets to stop a running
 * program. Nothing clears it.
 */
module AbortIndicator {
  class ExecutionAbortIndicator {
    var toBeAborted: bool

    /** A new indicator is not aborted. */
    constructor()
      ensures !toBeAborted
    {
      toBeAborted := false;
    }

    /** `abortExecution`: afterwards the flag is set, however often it is called. */
    method AbortExecution()
      modifies this
      ensures toBeAborted
    {
      toBeAborted := true;
    }

    /** `isToBeAborted`: reads the flag and changes nothing. */
    predicate IsToBeAborted()
      reads this
    {
      toBeAborted
    }
  }
}
