/** The flow-sensor pulse counter: a `u16` that the sensor task increments on
    every rising edge (wrapping on overflow) and that the reporting loop drains
    to zero once per period. */
module Flow {
  import opened Shared

  /** What can happen to the counter: a pulse recorded by the sensor task, or
      a drain by the reporting loop. */
  datatype Event = Pulse | Take

  /** The counter's value together with every value a drain has returned so
      far, oldest first. */
  datatype Counter = Counter(ticks: int, taken: seq<int>)

  /** The effect of one event on the counter. */
  function Apply(c: Counter, e: Event): (after: Counter)
    requires 0 <= c.ticks < U16
  {
    match e
    case Pulse => Counter(WrappingInc(c.ticks, U16), c.taken)
    case Take => Counter(0, c.taken + [c.ticks])
  }

  /** The counter after a history of events, starting from the static
      initial value 0. */
  function Replay(h: seq<Event>): (c: Counter)
    ensures 0 <= c.ticks < U16
    decreases |h|
  {
    if h == [] then Counter(0, []) else Apply(Replay(h[..|h| - 1]), h[|h| - 1])
  }

  lemma ReplaySnoc(h: seq<Event>, e: Event)
    ensures Replay(h + [e]) == Apply(Replay(h), e)
  {
    assert (h + [e])[..|h|] == h;
  }

  /** Number of pulses in a history. */
  function Pulses(h: seq<Event>): (n: nat)
    decreases |h|
  {
    if h == [] then 0 else Pulses(h[..|h| - 1]) + (if h[|h| - 1] == Pulse then 1 else 0)
  }

  function Sum(s: seq<int>): (total: int)
    decreases |s|
  {
    if s == [] then 0 else Sum(s[..|s| - 1]) + s[|s| - 1]
  }

  /** `n` pulses in a row. */
  function Burst(n: nat): (h: seq<Event>)
    ensures |h| == n
  {
    if n == 0 then [] else Burst(n - 1) + [Pulse]
  }

  /** No pulse is lost or counted twice: everything the drains returned plus
      what is still in the counter is the number of pulses, modulo 2^16. */
  lemma {:induction false} NoPulseLost(h: seq<Event>)
    ensures (Sum(Replay(h).taken) + Replay(h).ticks) % U16 == Pulses(h) % U16
    decreases |h|
  {
    if h != [] {
      var init := h[..|h| - 1];
      NoPulseLost(init);
      var c := Replay(init);
      var total := Sum(c.taken);
      match h[|h| - 1]
      case Pulse =>
        assert Replay(h) == Counter(WrappingInc(c.ticks, U16), c.taken);
        assert Pulses(h) == Pulses(init) + 1;
        IncMod(c.ticks);
        ModShift(total + c.ticks, Pulses(init), 1);
        ModShift(WrappingInc(c.ticks, U16), c.ticks + 1, total);
      case Take =>
        assert Replay(h) == Counter(0, c.taken + [c.ticks]);
        assert (c.taken + [c.ticks])[..|c.taken|] == c.taken;
        assert Sum(Replay(h).taken) == total + c.ticks;
        assert Pulses(h) == Pulses(init);
    }
  }

  /** The counter value after `n` more pulses, one wrapping increment at a
      time. */
  function AddTicks(t: int, n: nat): (r: int)
    requires 0 <= t < U16
    ensures 0 <= r < U16
    decreases n
  {
    if n == 0 then t else WrappingInc(AddTicks(t, n - 1), U16)
  }

  /** `n` increments of a `u16` add `n` modulo 2^16. */
  lemma {:induction false} AddTicksWraps(t: int, n: nat)
    requires 0 <= t < U16
    ensures AddTicks(t, n) == (t + n) % U16
    decreases n
  {
    if n == 0 {
      SmallMod(t);
    } else {
      AddTicksWraps(t, n - 1);
      var a := AddTicks(t, n - 1);
      IncMod(a);
      SmallMod(a);
      ModShift(a, t + (n - 1), 1);
    }
  }

  lemma {:induction false} ReplayBurst(h: seq<Event>, n: nat)
    ensures Replay(h + Burst(n)) == Counter(AddTicks(Replay(h).ticks, n), Replay(h).taken)
    decreases n
  {
    if n == 0 {
      assert h + Burst(0) == h;
    } else {
      var before := h + Burst(n - 1);
      ReplayBurst(h, n - 1);
      assert h + Burst(n) == before + [Pulse] by {
        assert Burst(n) == Burst(n - 1) + [Pulse];
      }
      ReplaySnoc(before, Pulse);
    }
  }

  /** `n` pulses added to the counter wrap it round modulo 2^16, and leave
      what past drains returned alone. */
  lemma PulsesAccumulate(h: seq<Event>, n: nat)
    ensures Replay(h + Burst(n)).ticks == (Replay(h).ticks + n) % U16
    ensures Replay(h + Burst(n)).taken == Replay(h).taken
  {
    ReplayBurst(h, n);
    AddTicksWraps(Replay(h).ticks, n);
  }

  lemma SmallMod(x: int)
    requires 0 <= x < U16
    ensures x % U16 == x
  {
  }

  lemma IncMod(t: int)
    requires 0 <= t < U16
    ensures WrappingInc(t, U16) == (t + 1) % U16
  {
    if t + 1 < U16 {
      SmallMod(t + 1);
    }
  }

  lemma ModMultiple(k: int, y: int)
    ensures (k * U16 + y) % U16 == y % U16
  {
    var q, r := y / U16, y % U16;
    assert y == q * U16 + r;
    assert k * U16 + y == (k + q) * U16 + r;
  }

  /** Adding the same amount to two numbers congruent modulo 2^16 keeps them
      congruent. */
  lemma ModShift(a: int, b: int, c: int)
    requires a % U16 == b % U16
    ensures (a + c) % U16 == (b + c) % U16
  {
    var r := a % U16;
    assert a == (a / U16) * U16 + r;
    assert b == (b / U16) * U16 + r;
    ModMultiple(a / U16, r + c);
    ModMultiple(b / U16, r + c);
    assert a + c == (a / U16) * U16 + (r + c);
    assert b + c == (b / U16) * U16 + (r + c);
  }

  /** A drain returns exactly the pulses recorded since the previous drain
      (modulo 2^16), and leaves nothing behind. */
  lemma DrainReturnsPulsesSinceLastDrain(h: seq<Event>, n: nat)
    ensures var after := Replay(h + [Take] + Burst(n) + [Take]);
      after.ticks == 0 && after.taken[|after.taken| - 1] == n % U16
  {
    var g := h + [Take];
    assert Replay(g).ticks == 0 by {
      assert g[..|g| - 1] == h;
    }
    PulsesAccumulate(g, n);
    var k := g + Burst(n) + [Take];
    assert k[..|k| - 1] == g + Burst(n);
  }

  /** Two drains with no pulse between them: the second returns 0. */
  lemma SecondDrainIsZero(h: seq<Event>)
    ensures Replay(h + [Take, Take]).taken == Replay(h).taken + [Replay(h).ticks, 0]
    ensures Replay(h + [Take, Take]).ticks == 0
  {
    var once := h + [Take];
    var twice := h + [Take, Take];
    assert once[..|once| - 1] == h;
    assert twice[..|twice| - 1] == once;
  }

  /** The `TICKS` static. `history` and `taken` are the ghost record of what
      has happened to it; `Valid` ties the real counter to their replay. */
  class FlowCounter {
    var ticks: int
    ghost var history: seq<Event>
    ghost var taken: seq<int>

    ghost predicate Valid()
      reads this
    {
      Replay(history) == Counter(ticks, taken)
    }

    /** `AtomicU16::new(0)`. */
    constructor ()
      ensures Valid() && ticks == 0 && history == [] && taken == []
    {
      ticks, history, taken := 0, [], [];
    }

    /** One step of the `detect` loop: a rising edge adds one tick. */
    method RecordPulse()
      requires Valid()
      modifies this
      ensures Valid() && history == old(history) + [Pulse] && taken == old(taken)
      ensures ticks == WrappingInc(old(ticks), U16)
    {
      ticks := WrappingInc(ticks, U16);
      history := history + [Pulse];
      assert history[..|history| - 1] == old(history);
    }

    /** `take_ticks`: `swap(0)`, returning the value before the call. */
    method TakeTicks() returns (t: int)
      requires Valid()
      modifies this
      ensures Valid() && history == old(history) + [Take]
      ensures t == old(ticks) && 0 <= t < U16 && ticks == 0
      ensures taken == old(taken) + [t]
    {
      t := ticks;
      ticks := 0;
      taken := taken + [t];
      history := history + [Take];
      assert history[..|history| - 1] == old(history);
    }
  }
}
