/** The tap switch: a boolean seeded from the switch pin and flipped on every
    rising edge, which other tasks read through `is_on`. */
module Tap {

  /** The tap state after `edges` rising edges from `initial`. */
  function StateAfter(initial: bool, edges: nat): (on: bool)
    decreases edges
  {
    if edges == 0 then initial else !StateAfter(initial, edges - 1)
  }

  /** An even number of edges leaves the state as it started, an odd number
      inverts it. */
  lemma {:induction false} Parity(initial: bool, edges: nat)
    ensures StateAfter(initial, edges) == (if edges % 2 == 0 then initial else !initial)
    decreases edges
  {
    if edges > 0 {
      Parity(initial, edges - 1);
    }
  }

  /** Two more rising edges restore the state. */
  lemma TwoEdgesRestore(initial: bool, edges: nat)
    ensures StateAfter(initial, edges + 2) == StateAfter(initial, edges)
  {
  }

  /** The `TAP` static. `initial` and `edges` are the ghost record of the
      seed and of the edges seen since. */
  class TapToggle {
    var on: bool
    ghost var initial: bool
    ghost var edges: nat

    ghost predicate Valid()
      reads this
    {
      on == StateAfter(initial, edges)
    }

    /** `AtomicBool::new(false)`, before the toggle task has started. */
    constructor ()
      ensures Valid() && !on && edges == 0
    {
      on, initial, edges := false, false, 0;
    }

    /** The toggle task's start: store the pin's current level. */
    method Seed(pinHigh: bool)
      modifies this
      ensures Valid() && on == pinHigh && initial == pinHigh && edges == 0
    {
      on := pinHigh;
      initial, edges := pinHigh, 0;
    }

    /** One rising edge: `fetch_xor(true)`, returning the state before the
        flip. */
    method OnRisingEdge() returns (previous: bool)
      requires Valid()
      modifies this
      ensures Valid() && initial == old(initial) && edges == old(edges) + 1
      ensures previous == old(on) && on == !previous
    {
      previous := on;
      on := !on;
      edges := edges + 1;
    }

    /** `is_on`: whether the tap is on, which depends only on the seed and
        the parity of the edges since. */
    function IsOn(): (r: bool)
      reads this
      requires Valid()
      ensures r == (if edges % 2 == 0 then initial else !initial)
    {
      Parity(initial, edges);
      on
    }
  }
}
