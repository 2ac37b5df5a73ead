/** The one-slot mailbox between two video threads, which keeps the newest frame only. */
module Mailbox {
  import opened Bytes

  /** The slot and the stop flag; the counters say what became of everything submitted. */
  datatype Box<F> = Box(slot: Option<F>, stopped: bool, submitted: nat, replaced: nat, taken: nat) {
    /** Whether a waiting `take` returns, which it does with the slot as it is. */
    predicate Ready() { slot.Some? || stopped }

    predicate Balanced() { submitted == replaced + taken + if slot.Some? then 1 else 0 }

    function Submitted(frame: F): Box<F> {
      this.(slot := Some(frame), submitted := submitted + 1, replaced := replaced + if slot.Some? then 1 else 0)
    }

    function Taken(): (Box<F>, Option<F>) {
      (this.(slot := None, taken := taken + if slot.Some? then 1 else 0), slot)
    }

    function Stopped(): Box<F> { this.(stopped := true) }
  }

  class LatestFrame<F> {
    var frame: Option<F>
    var stopped: bool
    var submitted: nat
    /** What `dropped_frame` counts. */
    var dropped: nat
    var taken: nat

    function State(): Box<F>
      reads this
    {
      Box(frame, stopped, submitted, dropped, taken)
    }

    constructor ()
      ensures State() == Box(None, false, 0, 0, 0)
    {
      frame, stopped, submitted, dropped, taken := None, false, 0, 0, 0;
    }

    method Submit(f: F)
      requires State().Balanced()
      modifies this
      ensures State() == old(State()).Submitted(f) && State().Balanced()
    {
      if frame.Some? { dropped := dropped + 1; }
      frame := Some(f);
      submitted := submitted + 1;
    }

    /** `take`, from when it need not wait any more. */
    method Take() returns (f: Option<F>)
      requires State().Balanced() && State().Ready()
      modifies this
      ensures (State(), f) == old(State()).Taken() && State().Balanced()
      ensures f.None? ==> stopped
    {
      f := frame;
      if f.Some? { taken := taken + 1; }
      frame := None;
    }

    method Stop()
      modifies this`stopped
      ensures State() == old(State()).Stopped()
    {
      stopped := true;
    }
  }
}
