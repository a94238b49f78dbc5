/**
 * The user's cancel button as the loops see it: `cancelled(p)` is the
 * answer of the `p`-th `isCancelled()` poll of a run, and a loop over
 * `count` items that polls before item `i` with poll number `offset + i`
 * stops at the first item whose poll says yes.
 */
module Polling {

  /** The first `i < count` (from `from` on) whose poll `offset + i` reports a cancel, else `count`. */
  function FirstCancel(cancelled: nat -> bool, offset: nat, count: nat, from: nat): (r: nat)
    requires from <= count
    decreases count - from
    ensures from <= r <= count
    ensures forall p :: offset + from <= p < offset + r ==> !cancelled(p)
    ensures r < count ==> cancelled(offset + r)
  {
    if from == count then count
    else if cancelled(offset + from) then from
    else FirstCancel(cancelled, offset, count, from + 1)
  }
}
