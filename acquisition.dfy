// The acquisition thread: every solution the workers send is compared with the shared best
// length, which only ever goes down; the workers prune against it.

module Acquisition {
  import opened Search

  /** The best length before any solution is found: the largest `u32`. */
  const INITIAL_BEST: nat := 0xFFFF_FFFF

  /** The best length after the solutions `found` arrive in order, starting from `start`. */
  function RunningMin(start: nat, found: seq<Path>): (best: nat)
    ensures best <= start
    ensures forall i | 0 <= i < |found| :: best <= found[i].length
    ensures best == start || exists i | 0 <= i < |found| :: best == found[i].length
  {
    if found == [] then start
    else
      var before := RunningMin(start, found[..|found| - 1]);
      var last := found[|found| - 1].length;
      if last < before then last else before
  }

  /** Receiving more solutions never raises the best length. */
  lemma {:induction false} BestNeverIncreases(start: nat, found: seq<Path>, m: nat)
    requires m <= |found|
    ensures RunningMin(start, found) <= RunningMin(start, found[..m])
  {
    if m < |found| {
      var prefix := found[..|found| - 1];
      assert prefix[..m] == found[..m];
      BestNeverIncreases(start, prefix, m);
    } else {
      assert found[..m] == found;
    }
  }

  /** The shared best length (`Mutex<u32>`), starting at the largest `u32`. */
  class SharedBest {
    var value: nat

    constructor ()
      ensures value == INITIAL_BEST
    {
      value := INITIAL_BEST;
    }

    /** Takes a solution's length if it is strictly shorter than the best so far. */
    method Offer(length: nat)
      modifies this
      ensures value == if length < old(value) then length else old(value)
      ensures value <= old(value)
    {
      if length < value {
        value := length;
      }
    }
  }

  /** The acquisition loop over the solutions received from the workers. */
  method Acquire(best: SharedBest, found: seq<Path>)
    modifies best
    ensures best.value == RunningMin(old(best.value), found)
  {
    ghost var start := best.value;
    for i := 0 to |found|
      invariant best.value == RunningMin(start, found[..i])
    {
      best.Offer(found[i].length);
      assert found[..i + 1][..i] == found[..i];
    }
    assert found[..|found|] == found;
  }
}
