/** Building blocks shared by the device's tasks: the outcome of a fallible
    hardware or network call, fixed-width wrapping increments, and the atomic
    boolean cell through which the reporting loop and the bypass watcher
    communicate. Atomics are modelled as plain fields: every task step runs to
    completion before the next one starts. */
module Shared {

  /** `Result<(), EspError>` with the error payload left out. */
  datatype Status = Ok | Err

  /** Number of values of a `u8` and of a `u16`. */
  const U8: int := 0x100
  const U16: int := 0x1_0000

  /** `fetch_add(1)` on an unsigned atomic of `m` values: one more, except
      that the largest value wraps round to zero instead of overflowing. */
  function WrappingInc(x: int, m: int): (r: int)
    requires 0 <= x < m
    ensures 0 <= r < m
    ensures x + 1 < m ==> r == x + 1
    ensures x + 1 == m ==> r == 0
  {
    if x + 1 == m then 0 else x + 1
  }

  /** An `AtomicBool` shared between tasks (`Arc<AtomicBool>`). */
  class AtomicFlag {
    var value: bool

    constructor (initial: bool)
      ensures value == initial
    {
      value := initial;
    }

    /** `load(Ordering::Relaxed)`: the flag as the last store left it. */
    function Load(): (v: bool)
      reads this
      ensures v == value
    {
      value
    }

    method Store(v: bool)
      modifies this
      ensures value == v
    {
      value := v;
    }

    /** Stores `v` and hands back what was there before. */
    method Swap(v: bool) returns (previous: bool)
      modifies this
      ensures previous == old(value) && value == v
    {
      previous := value;
      value := v;
    }
  }
}
