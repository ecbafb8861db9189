/**
 * The `counter()` generator (lines 6-12): its local `i` starts at 0 and each
 * `next` adds one and yields it, so the values are 1, 2, 3, ...
 */
module Generator {

  class Counter {
    /** The generator's local `i`: the last value yielded, 0 before the first `next`. */
    var i: nat

    /** `c = counter()`: no value has been yielded yet. */
    constructor ()
      ensures i == 0
    {
      i := 0;
    }

    /** `next(c)`: one turn of the `while True` loop. */
    method Next() returns (v: nat)
      modifies this
      ensures i == old(i) + 1
      ensures v == i
    {
      i := i + 1;
      v := i;
    }
  }

  /** The first k values a fresh generator yields are 1, 2, ..., k. */
  method FirstValues(k: nat) returns (vs: seq<nat>)
    ensures |vs| == k
    ensures forall j :: 0 <= j < k ==> vs[j] == j + 1
  {
    var c := new Counter();
    vs := [];
    while |vs| < k
      invariant |vs| <= k
      invariant c.i == |vs|
      invariant forall j :: 0 <= j < |vs| ==> vs[j] == j + 1
    {
      var v := c.Next();
      vs := vs + [v];
    }
  }
}
