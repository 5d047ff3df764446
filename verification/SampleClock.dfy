/** The sample clock of the ring: a 32-bit phase accumulator whose top bit, when it rises, gives
    one pulse, three flip-flops later. How many pulses come in a span of clocks, exactly. */
module SampleClock {
  import opened Words

  const FULL := 0x1_0000_0000
  const HALF := 0x8000_0000

  /** The accumulator, its top bit as it was one and two clocks ago, and the pulse. */
  datatype Nco = Nco(acc: u32, msb: bool, msbLast: bool, pulse: bool)

  predicate High(acc: u32) {
    acc >= HALF
  }

  function Clocked(n: Nco, step: u32, reset: bool, resync: bool): Nco {
    if reset then Nco(0, false, false, false)
    else Nco(if resync then 0 else (n.acc + step) % FULL, High(n.acc), n.msb, n.msb && !n.msbLast)
  }

  /** Neither reset nor resynchronised. */
  function Runs(n: Nco, step: u32): Nco {
    Clocked(n, step, false, false)
  }

  /** An oscillator whose flip-flops follow its accumulator, which was at `d` two clocks ago. */
  function Flowing(d: u32, step: u32, pulse: bool): Nco {
    Nco((d + 2 * step) % FULL, High((d + step) % FULL), High(d), pulse)
  }

  /** So it is two clocks after any other state, and after a resync, which starts it from 0. */
  lemma Settles(n: Nco, step: u32)
    ensures Runs(Runs(n, step), step) == Flowing(n.acc, step, Runs(n, step).msb && !Runs(n, step).msbLast)
    ensures var n' := Clocked(n, step, false, true);
            Runs(Runs(n', step), step) == Flowing(0, step, Runs(n', step).msb && !Runs(n', step).msbLast)
  {
    TwoSteps(n.acc, step);
    TwoSteps(0, step);
  }

  /** A reset starts it from 0, with no pulse in the clocks that it takes to settle. */
  lemma ResetStarts(n: Nco, step: u32, resync: bool)
    ensures var n0 := Clocked(n, step, true, resync);
            && !n0.pulse && !Runs(n0, step).pulse
            && Runs(Runs(n0, step), step) == Flowing(0, step, false)
  {
    TwoSteps(0, step);
  }

  lemma TwoSteps(d: u32, step: u32)
    ensures ((d + step) % FULL + step) % FULL == (d + 2 * step) % FULL
  {
  }

  lemma Flows(d: u32, step: u32, pulse: bool)
    ensures Runs(Flowing(d, step, pulse), step)
            == Flowing((d + step) % FULL, step, High((d + step) % FULL) && !High(d))
  {
    TwoSteps(d, step);
    TwoSteps((d + step) % FULL, step);
    assert ((d + 2 * step) % FULL + step) % FULL == ((d + step) % FULL + 2 * step) % FULL;
  }

  /** The pulses of the next clocks. */
  function Pulses(n: Nco, step: u32, clocks: nat): nat
    decreases clocks
  {
    if clocks == 0 then 0
    else (if Runs(n, step).pulse then 1 else 0) + Pulses(Runs(n, step), step, clocks - 1)
  }

  /** How far the accumulator has come since its top bit rose. */
  function Phase(d: u32): u32 {
    (d + HALF) % FULL
  }

  lemma RiseIs(d: u32, step: u32)
    requires step <= HALF
    ensures (Phase(d) + step) / FULL == if High((d + step) % FULL) && !High(d) then 1 else 0
    ensures Phase((d + step) % FULL) == (Phase(d) + step) % FULL
  {
  }

  lemma Carried(q: u32, step: u32, clocks: nat)
    requires clocks > 0
    ensures (q + step) / FULL + ((q + step) % FULL + (clocks - 1) * step) / FULL == (q + clocks * step) / FULL
  {
    var more := (clocks - 1) * step;
    assert clocks * step == step + more;
  }

  /** The pulses of any number of clocks, for any step that the top bit can show. */
  lemma {:induction false} PulsesAre(d: u32, step: u32, pulse: bool, clocks: nat)
    requires step <= HALF
    ensures Pulses(Flowing(d, step, pulse), step, clocks) == (Phase(d) + clocks * step) / FULL
    decreases clocks
  {
    if clocks > 0 {
      var d' := (d + step) % FULL;
      Flows(d, step, pulse);
      RiseIs(d, step);
      PulsesAre(d', step, High(d') && !High(d), clocks - 1);
      Carried(Phase(d), step, clocks);
    }
  }

  /** Between two clocks come the pulses of the span in between, to within one. */
  lemma PulsesBetween(d: u32, step: u32, from: nat, to: nat)
    requires step <= HALF && from <= to
    ensures var n := Flowing(d, step, false);
            var between := Pulses(n, step, to) - Pulses(n, step, from);
            (to - from) * step / FULL <= between <= (to - from) * step / FULL + 1
  {
    PulsesAre(d, step, false, from);
    PulsesAre(d, step, false, to);
    assert to * step == from * step + (to - from) * step;
  }

  /** The clocked process. */
  class NcoLogic {
    var acc: u32
    var msb: bool
    var msbLast: bool
    var pulse: bool

    function Regs(): Nco
      reads this
    {
      Nco(acc, msb, msbLast, pulse)
    }

    constructor ()
      ensures Regs() == Nco(0, false, false, false)
    {
      acc, msb, msbLast, pulse := 0, false, false, false;
    }

    method Clock(step: u32, reset: bool, resync: bool)
      modifies this
      ensures Regs() == Clocked(old(Regs()), step, reset, resync)
    {
      if reset {
        acc, msb, msbLast, pulse := 0, false, false, false;
      } else {
        pulse := msb && !msbLast;
        msbLast := msb;
        msb := acc >= HALF;
        if resync {
          acc := 0;
        } else {
          acc := (acc + step) % FULL;
        }
      }
    }
  }
}
