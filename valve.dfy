/** The shut-off valve: a control output (high lets water flow) and an LED
    (lit while the valve is shut) that are always driven together, control
    first. */
module Valve {
  import opened Shared

  /** The two output levels, `true` meaning high. */
  datatype Outputs = Outputs(control: bool, led: bool)

  const Flowing := Outputs(true, false)
  const Shut := Outputs(false, true)

  /** The LED shows the inverse of the control output. */
  predicate Mirrored(o: Outputs) {
    o.led == !o.control
  }

  /** Which of the two pin writes of one actuation the hardware rejects. A
      rejected write leaves that pin's level as it was. */
  datatype Faults = Faults(controlFails: bool, ledFails: bool)

  const NoFaults := Faults(false, false)

  datatype Driven = Driven(outputs: Outputs, status: Status)

  /** One `start_flow` (`open`) or `stop_flow` (`!open`): write control, and
      only if that succeeded, write the LED. */
  function Drive(o: Outputs, open: bool, f: Faults): (r: Driven)
    ensures r.status == Ok <==> !f.controlFails && !f.ledFails
    ensures r.status == Ok ==> r.outputs == (if open then Flowing else Shut) && Mirrored(r.outputs)
    ensures f.controlFails ==> r.outputs == o
    ensures !f.controlFails ==> r.outputs.control == open
    ensures !f.controlFails && f.ledFails ==> r.outputs.led == o.led
  {
    if f.controlFails then Driven(o, Err)
    else
      var o' := o.(control := open);
      if f.ledFails then Driven(o', Err)
      else Driven(o'.(led := !open), Ok)
  }

  /** Driving the valve the same way twice leaves it as driving it once. */
  lemma DriveIdempotent(o: Outputs, open: bool)
    ensures Drive(Drive(o, open, NoFaults).outputs, open, NoFaults) == Drive(o, open, NoFaults)
  {
  }

  /** After any successful actuation, whatever the levels were before, the
      LED is the inverse of the control output. */
  lemma SuccessMirrors(o: Outputs, open: bool, f: Faults)
    requires Drive(o, open, f).status == Ok
    ensures Mirrored(Drive(o, open, f).outputs)
    ensures Drive(o, open, f).outputs.control == open
  {
  }

  /** `ValveSystem`: the two output pin drivers. */
  class ValveSystem {
    var control: bool
    var led: bool

    function Levels(): Outputs
      reads this
    {
      Outputs(control, led)
    }

    constructor (control: bool, led: bool)
      ensures Levels() == Outputs(control, led)
    {
      this.control := control;
      this.led := led;
    }

    method StartFlow(f: Faults) returns (status: Status)
      modifies this
      ensures Driven(Levels(), status) == Drive(old(Levels()), true, f)
    {
      if f.controlFails {
        return Err;
      }
      control := true;
      if f.ledFails {
        return Err;
      }
      led := false;
      status := Ok;
    }

    method StopFlow(f: Faults) returns (status: Status)
      modifies this
      ensures Driven(Levels(), status) == Drive(old(Levels()), false, f)
    {
      if f.controlFails {
        return Err;
      }
      control := false;
      if f.ledFails {
        return Err;
      }
      led := true;
      status := Ok;
    }
  }
}
