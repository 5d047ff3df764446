/** The DAC correction: offset, gain and saturation of a setpoint, one stage a clock. Only a
    20-bit slice of the product is looked at, so saturation has to be told from its sign. */
module DacGainOffset {
  import opened Words

  const ONE := 0x10_0000 // the gain 1.0
  const MAX20 := 0x7_FFFF
  const MIN20 := -0x8_0000
  const MAX18 := 131071
  const MIN18 := -131072

  type s20 = x: int | MIN20 <= x <= MAX20
  type s24 = x: int | -0x80_0000 <= x <= 0x7F_FFFF

  /** The low 20 bits, as a signed number. */
  function Wrap20(x: int): s20 {
    (x + 0x8_0000) % 0x10_0000 - 0x8_0000
  }

  function Clamp(x: int, lo: int, hi: int): int {
    Max(lo, Min(x, hi))
  }

  datatype State = IDLE | APPLY_OFFSETS | APPLY_GAINS | SCALE | CHECKFORSAT | MULT_DLY

  datatype Inputs = Inputs(trig: bool, wide: bool, raw: s20, offset: s20, gain: s24)

  datatype Registers = Registers(state: State, multdlycnt: nat, oc: s20, fs: int, setpt: s20, sat: bool, done: bool)

  // ----- what it computes -----

  /** Bits 39 to 20 of a product. */
  function Slice(product: int): s20 {
    Wrap20(product / ONE)
  }

  /** The saturation check on a sliced product, from its sign and that of the offset setpoint
      in 20-bit mode, from its size in 18-bit mode. */
  function Checked(wide: bool, oc: s20, y: s20): s20 {
    if wide then
      if y < 0 && oc >= 0 then MAX20 else if y >= 0 && oc < 0 then MIN20 else y
    else
      if y > MAX18 then MAX18 else if y < MIN18 then MIN18 else y
  }

  /** What the logic makes of an offset setpoint. */
  function Corrected(wide: bool, x: s20, gain: s24): s20 {
    Checked(wide, x, Slice(x * gain))
  }

  /** What it should make of it. */
  function Ideal(wide: bool, x: int, gain: int): int {
    if wide then Clamp(x * gain / ONE, MIN20, MAX20) else Clamp(x * gain / ONE, MIN18, MAX18)
  }

  lemma WrapNear(v: int)
    requires -0x10_0000 <= v < 0x10_0000
    ensures Wrap20(v) == if v > MAX20 then v - 0x10_0000 else if v < MIN20 then v + 0x10_0000 else v
  {
  }

  /** The quotient, bounded by what bounds the product. */
  lemma Quotient(p: int, lo: int, hi: int)
    requires lo * ONE <= p < (hi + 1) * ONE
    ensures lo <= p / ONE <= hi
  {
  }

  lemma ProductOrder(a: int, b: int, c: int)
    requires a <= b && c >= 0
    ensures a * c <= b * c
  {
    assert (b - a) * c >= 0;
    assert (b - a) * c == b * c - a * c;
  }

  lemma ProductUpTo(x: int, bx: int, g: int, bg: int)
    requires -bx <= x < bx && 0 < g <= bg
    ensures -(bx * bg) <= x * g
    ensures x * g < bx * bg
    ensures x >= 0 ==> x * g >= 0
    ensures x < 0 ==> x * g < 0
  {
    ProductOrder(g, bg, bx);
    ProductOrder(-bx, x, g);
    ProductOrder(x, bx - 1, g);
    assert -bx * g == -(bx * g);
    assert (bx - 1) * g == bx * g - g;
    if x >= 0 {
      ProductOrder(0, x, g);
    } else {
      ProductOrder(x, -1, g);
    }
  }

  /** 20-bit mode saturates properly for every setpoint with a gain over 0 and up to 2.0. */
  lemma WideCorrect(x: s20, gain: s24)
    requires 0 < gain <= 2 * ONE
    ensures Corrected(true, x, gain) == Ideal(true, x, gain)
  {
    var p := x * gain;
    ProductUpTo(x, 0x8_0000, gain, 2 * ONE);
    Quotient(p, -ONE, ONE - 1);
    WrapNear(p / ONE);
  }

  /** With any other gain there is a setpoint that it gets wrong. */
  lemma WideWrong(gain: s24) returns (x: s20)
    requires !(0 < gain <= 2 * ONE)
    ensures Corrected(true, x, gain) != Ideal(true, x, gain)
  {
    if gain <= 0 {
      x := -1;
      var p := x * gain;
      Quotient(p, 0, 8);
      WrapNear(p / ONE);
    } else {
      var q := ONE * ONE / gain;
      assert q * gain <= ONE * ONE < (q + 1) * gain;
      assert q < 0x8_0000;
      x := -(q + 1);
      var p := x * gain;
      assert p == -(q * gain) - gain;
      assert -(ONE * ONE) - gain <= p < -(ONE * ONE);
      Quotient(p, -ONE - 8, -ONE - 1);
      var v := p / ONE;
      assert Wrap20(v) == v + ONE;
    }
  }

  /** Exactly the gains for which 20-bit mode is right for every setpoint. */
  lemma WideGains(gain: s24)
    ensures (forall x: s20 :: Corrected(true, x, gain) == Ideal(true, x, gain)) <==> 0 < gain <= 2 * ONE
  {
    if 0 < gain <= 2 * ONE {
      forall x: s20 ensures Corrected(true, x, gain) == Ideal(true, x, gain) {
        WideCorrect(x, gain);
      }
    } else {
      var x := WideWrong(gain);
    }
  }

  /** 18-bit mode saturates properly for every 18-bit setpoint with a gain over -4.0 and up to 4.0. */
  lemma NarrowCorrect(x: s20, gain: s24)
    requires MIN18 <= x <= MAX18 && -4 * ONE < gain <= 4 * ONE
    ensures Corrected(false, x, gain) == Ideal(false, x, gain)
  {
    var p := x * gain;
    if gain > 0 {
      ProductUpTo(x, 0x2_0000, gain, 4 * ONE);
    } else if gain < 0 {
      ProductUpTo(x, 0x2_0000, -gain, 4 * ONE - 1);
      assert x * -gain == -p;
    }
    Quotient(p, MIN20, MAX20);
    WrapNear(p / ONE);
  }

  /** With any other gain it gets the lowest 18-bit setpoint wrong. */
  lemma NarrowWrong(gain: s24)
    requires !(-4 * ONE < gain <= 4 * ONE)
    ensures Corrected(false, MIN18, gain) != Ideal(false, MIN18, gain)
  {
    var p := MIN18 * gain;
    if gain > 0 {
      Quotient(p, -ONE, MIN20 - 1);
    } else {
      Quotient(p, MAX20 + 1, ONE);
      if p / ONE == ONE {
        assert Wrap20(ONE) == 0;
      }
    }
    if p / ONE < ONE {
      WrapNear(p / ONE);
    }
  }

  /** Exactly the gains for which 18-bit mode is right for every 18-bit setpoint. */
  lemma NarrowGains(gain: s24)
    ensures (forall x: s20 :: MIN18 <= x <= MAX18 ==> Corrected(false, x, gain) == Ideal(false, x, gain))
            <==> -4 * ONE < gain <= 4 * ONE
  {
    if -4 * ONE < gain <= 4 * ONE {
      forall x: s20 | MIN18 <= x <= MAX18 ensures Corrected(false, x, gain) == Ideal(false, x, gain) {
        NarrowCorrect(x, gain);
      }
    } else {
      NarrowWrong(gain);
    }
  }

  // ----- the pipeline -----

  /** One clock out of reset. */
  function Step(r: Registers, i: Inputs): Registers {
    match r.state
    case IDLE => r.(done := false, sat := false, state := if i.trig then APPLY_OFFSETS else IDLE)
    case APPLY_OFFSETS => r.(oc := Wrap20(i.raw - i.offset), state := APPLY_GAINS)
    case APPLY_GAINS => r.(fs := r.oc * i.gain, multdlycnt := 0, state := SCALE)
    case SCALE => r.(setpt := Slice(r.fs), state := CHECKFORSAT)
    case CHECKFORSAT =>
      var y := Checked(i.wide, r.oc, r.setpt);
      r.(setpt := y, sat := r.sat || Saturates(i.wide, r.oc, r.setpt), state := MULT_DLY)
    case MULT_DLY =>
      if r.multdlycnt == 6 then r.(state := IDLE, done := true)
      else r.(multdlycnt := (r.multdlycnt + 1) % 16)
  }

  predicate Saturates(wide: bool, oc: s20, y: s20) {
    if wide then (y < 0) != (oc < 0) else y > MAX18 || y < MIN18
  }

  function After(r: Registers, ins: seq<Inputs>): Registers
    decreases |ins|
  {
    if ins == [] then r else After(Step(r, ins[0]), ins[1..])
  }

  /** The delay states keep the setpoint and signal at the seventh. */
  lemma {:induction false} Delay(r: Registers, ins: seq<Inputs>)
    requires r.state == MULT_DLY && r.multdlycnt <= 6 && |ins| == 7 - r.multdlycnt
    ensures var e := After(r, ins);
            e.state == IDLE && e.done && e.setpt == r.setpt && e.sat == r.sat
    decreases |ins|
  {
    if |ins| > 1 {
      Delay(Step(r, ins[0]), ins[1..]);
    } else {
      assert After(Step(r, ins[0]), ins[1..]) == Step(r, ins[0]);
    }
  }

  /** From a trigger in the idle state, twelve clocks later the setpoint is corrected, with the
      offset, the gain and the mode as they were at their stages, and `done` is up. */
  lemma Pipeline(r: Registers, ins: seq<Inputs>)
    requires r.state == IDLE && |ins| == 12 && ins[0].trig
    ensures var e, oc := After(r, ins), Wrap20(ins[1].raw - ins[1].offset);
            && e.state == IDLE && e.done
            && e.setpt == Corrected(ins[4].wide, oc, ins[2].gain)
            && e.sat == Saturates(ins[4].wide, oc, Slice(oc * ins[2].gain))
  {
    var r1 := Step(r, ins[0]);
    var r2 := Step(r1, ins[1]);
    var r3 := Step(r2, ins[2]);
    var r4 := Step(r3, ins[3]);
    var r5 := Step(r4, ins[4]);
    Unrolled(r, ins, r1, r2, r3, r4, r5);
    Delay(r5, ins[5..]);
  }

  lemma Unrolled(r: Registers, ins: seq<Inputs>, r1: Registers, r2: Registers, r3: Registers, r4: Registers,
                 r5: Registers)
    requires |ins| >= 5 && r1 == Step(r, ins[0]) && r2 == Step(r1, ins[1]) && r3 == Step(r2, ins[2])
    requires r4 == Step(r3, ins[3]) && r5 == Step(r4, ins[4])
    ensures After(r, ins) == After(r5, ins[5..])
  {
    var i1, i2, i3, i4 := ins[1..], ins[2..], ins[3..], ins[4..];
    assert i1[1..] == i2 && i2[1..] == i3 && i3[1..] == i4 && i4[1..] == ins[5..];
    assert After(r4, i4) == After(r5, ins[5..]);
    assert After(r3, i3) == After(r4, i4);
    assert After(r2, i2) == After(r3, i3);
    assert After(r1, i1) == After(r2, i2);
  }

  /** The whole correction: if the offset does not overflow and the gain is in range, the output
      is the offset and scaled setpoint, clamped to what the DAC takes, and `sat` tells whether
      it had to be. */
  lemma CorrectionDelivers(r: Registers, ins: seq<Inputs>)
    requires r.state == IDLE && |ins| == 12 && ins[0].trig
    requires var x := ins[1].raw - ins[1].offset;
             if ins[4].wide then MIN20 <= x <= MAX20 && 0 < ins[2].gain <= 2 * ONE
             else MIN18 <= x <= MAX18 && -4 * ONE < ins[2].gain <= 4 * ONE
    ensures var e, x := After(r, ins), ins[1].raw - ins[1].offset;
            && e.done && e.setpt == Ideal(ins[4].wide, x, ins[2].gain)
            && (e.sat <==> Ideal(ins[4].wide, x, ins[2].gain) != x * ins[2].gain / ONE)
  {
    var x, gain := ins[1].raw - ins[1].offset, ins[2].gain;
    Pipeline(r, ins);
    assert Wrap20(x) == x;
    if ins[4].wide {
      WideCorrect(x, gain);
      WideSaturates(x, gain);
    } else {
      NarrowCorrect(x, gain);
      NarrowSaturates(x, gain);
    }
  }

  lemma WideSaturates(x: s20, gain: s24)
    requires 0 < gain <= 2 * ONE
    ensures Saturates(true, x, Slice(x * gain)) <==> Ideal(true, x, gain) != x * gain / ONE
  {
    var p := x * gain;
    ProductUpTo(x, 0x8_0000, gain, 2 * ONE);
    Quotient(p, -ONE, ONE - 1);
    WrapNear(p / ONE);
  }

  lemma NarrowSaturates(x: s20, gain: s24)
    requires MIN18 <= x <= MAX18 && -4 * ONE < gain <= 4 * ONE
    ensures Saturates(false, x, Slice(x * gain)) <==> Ideal(false, x, gain) != x * gain / ONE
  {
    var p := x * gain;
    if gain > 0 {
      ProductUpTo(x, 0x2_0000, gain, 4 * ONE);
    } else if gain < 0 {
      ProductUpTo(x, 0x2_0000, -gain, 4 * ONE - 1);
      assert x * -gain == -p;
    }
    Quotient(p, MIN20, MAX20);
    WrapNear(p / ONE);
  }

  // ----- over any run -----

  /** The registers before clock `n`. */
  function At(r: Registers, ins: seq<Inputs>, n: nat): Registers
    requires n <= |ins|
  {
    if n == 0 then r else Step(At(r, ins, n - 1), ins[n - 1])
  }

  lemma {:induction false} AfterIsAt(r: Registers, ins: seq<Inputs>, n: nat)
    requires n <= |ins|
    ensures After(At(r, ins, n), ins[n..]) == After(r, ins)
  {
    if n == 0 {
      assert ins[0..] == ins;
    } else {
      AfterIsAt(r, ins, n - 1);
      assert ins[n - 1..][1..] == ins[n..];
    }
  }

  /** A trigger that is taken: it comes while the logic is idle. */
  predicate Taken(r: Registers, ins: seq<Inputs>, n: nat)
    requires n < |ins|
  {
    At(r, ins, n).state == IDLE && ins[n].trig
  }

  /** Clocks since the trigger that the logic works on; none when it is idle. */
  function Age(r: Registers): nat {
    match r.state
    case IDLE => 0
    case APPLY_OFFSETS => 1
    case APPLY_GAINS => 2
    case SCALE => 3
    case CHECKFORSAT => 4
    case MULT_DLY => 5 + r.multdlycnt
  }

  /** What holds of a logic that started idle: the delay has been set up, and is not overrun. */
  predicate Regular(r: Registers) {
    Age(r) <= 11 && (r.done ==> r.state == IDLE) && (r.state in {SCALE, CHECKFORSAT} ==> r.multdlycnt == 0)
  }

  lemma AgeNext(r: Registers, i: Inputs)
    requires Regular(r)
    ensures Regular(Step(r, i))
    ensures Age(Step(r, i)) == if Age(r) == 0 then (if i.trig then 1 else 0) else if Age(r) == 11 then 0 else Age(r) + 1
    ensures Step(r, i).done <==> Age(r) == 11
    ensures r.state == IDLE <==> Age(r) == 0
  {
  }

  /** A busy logic is at work on the last trigger that was taken, and idle after twelve clocks. */
  lemma {:induction false} AgeMeans(r: Registers, ins: seq<Inputs>, n: nat)
    requires r.state == IDLE && !r.done && n <= |ins|
    ensures var e := At(r, ins, n);
            && Regular(e)
            && (Age(e) > 0 ==> Age(e) <= n && Taken(r, ins, n - Age(e)))
    decreases n
  {
    if n > 0 {
      AgeMeans(r, ins, n - 1);
      AgeNext(At(r, ins, n - 1), ins[n - 1]);
    }
  }

  /** While it works it counts the clocks, whatever comes in. */
  lemma {:induction false} BusyFor(r: Registers, ins: seq<Inputs>, m: nat, k: nat)
    requires r.state == IDLE && !r.done && 1 <= k <= 11 && m + k <= |ins| && Taken(r, ins, m)
    ensures Age(At(r, ins, m + k)) == k
    decreases k
  {
    AgeMeans(r, ins, m + k - 1);
    AgeNext(At(r, ins, m + k - 1), ins[m + k - 1]);
    if k > 1 {
      BusyFor(r, ins, m, k - 1);
    }
  }

  /** `done` is up exactly twelve edges after each trigger that was taken, for that one clock, and
      for no other reason; and a trigger that comes in between is not taken. */
  lemma DoneMeans(r: Registers, ins: seq<Inputs>, n: nat)
    requires r.state == IDLE && !r.done && n <= |ins|
    ensures At(r, ins, n).done <==> n >= 12 && Taken(r, ins, n - 12)
    ensures n < |ins| && Taken(r, ins, n) ==>
              && (forall k :: n < k < n + 12 && k < |ins| ==> !Taken(r, ins, k))
              && (n + 12 <= |ins| ==> At(r, ins, n + 12).state == IDLE)
  {
    if n > 0 {
      AgeMeans(r, ins, n - 1);
      AgeNext(At(r, ins, n - 1), ins[n - 1]);
      if n >= 12 && Taken(r, ins, n - 12) {
        BusyFor(r, ins, n - 12, 11);
      }
    }
    if n < |ins| && Taken(r, ins, n) {
      forall k | n < k < n + 12 && k < |ins| ensures !Taken(r, ins, k) {
        BusyFor(r, ins, n, k - n);
      }
      if n + 12 <= |ins| {
        BusyFor(r, ins, n, 11);
        AgeMeans(r, ins, n + 11);
        AgeNext(At(r, ins, n + 11), ins[n + 11]);
      }
    }
  }

  /** Without a trigger an idle logic stays idle and holds its setpoint, with `done` and `sat` down. */
  lemma {:induction false} IdleHolds(r: Registers, ins: seq<Inputs>)
    requires r.state == IDLE && ins != [] && forall k :: 0 <= k < |ins| ==> !ins[k].trig
    ensures After(r, ins) == r.(done := false, sat := false)
    decreases |ins|
  {
    var r1 := Step(r, ins[0]);
    if |ins| > 1 {
      IdleHolds(r1, ins[1..]);
    } else {
      assert After(r1, ins[1..]) == r1;
    }
  }

  /** The output is written only at the third and fourth clock of a correction. */
  lemma OutputHeld(r: Registers, ins: seq<Inputs>, n: nat)
    requires r.state == IDLE && !r.done && n < |ins|
    ensures At(r, ins, n + 1).setpt != At(r, ins, n).setpt ==>
              (n >= 3 && Taken(r, ins, n - 3)) || (n >= 4 && Taken(r, ins, n - 4))
  {
    AgeMeans(r, ins, n);
  }

  /** An edge in reset clears `done` and nothing else; so resets delay the logic, and that is all. */
  function Edge(r: Registers, reset: bool, i: Inputs): Registers {
    if reset then r.(done := false) else Step(r, i)
  }

  function Edges(r: Registers, resets: seq<bool>, ins: seq<Inputs>): Registers
    requires |resets| == |ins|
  {
    if ins == [] then r
    else Edge(Edges(r, resets[..|ins| - 1], ins[..|ins| - 1]), resets[|ins| - 1], ins[|ins| - 1])
  }

  /** The inputs of the edges that are not in reset. */
  function Counted(resets: seq<bool>, ins: seq<Inputs>): seq<Inputs>
    requires |resets| == |ins|
  {
    if ins == [] then []
    else Counted(resets[..|ins| - 1], ins[..|ins| - 1]) + if resets[|ins| - 1] then [] else [ins[|ins| - 1]]
  }

  lemma {:induction false} AfterLast(r: Registers, ins: seq<Inputs>, i: Inputs)
    ensures After(r, ins + [i]) == Step(After(r, ins), i)
    decreases |ins|
  {
    if ins == [] {
      assert ([] + [i])[1..] == [];
      assert After(Step(r, i), []) == Step(r, i);
    } else {
      assert (ins + [i])[1..] == ins[1..] + [i];
      AfterLast(Step(r, ins[0]), ins[1..], i);
    }
  }

  lemma {:induction false} DoneIsIdle(r: Registers, ins: seq<Inputs>)
    requires r.done ==> r.state == IDLE
    ensures After(r, ins).done ==> After(r, ins).state == IDLE
    decreases |ins|
  {
    if ins != [] {
      DoneIsIdle(Step(r, ins[0]), ins[1..]);
    }
  }

  lemma {:induction false} ResetsDelay(r: Registers, resets: seq<bool>, ins: seq<Inputs>)
    requires |resets| == |ins| && (r.done ==> r.state == IDLE)
    ensures var e, f := Edges(r, resets, ins), After(r, Counted(resets, ins));
            && e.(done := false) == f.(done := false)
            && (e.done <==> f.done && (ins != [] ==> !resets[|ins| - 1]))
    decreases |ins|
  {
    if ins != [] {
      var n := |ins| - 1;
      ResetsDelay(r, resets[..n], ins[..n]);
      var before := Counted(resets[..n], ins[..n]);
      DoneIsIdle(r, before);
      if resets[n] {
        assert before + [] == before;
      } else {
        AfterLast(r, before, ins[n]);
      }
    }
  }

  class GainOffset {
    var state: State
    var multdlycnt: nat
    var oc: s20
    var fs: int
    var setpt: s20
    var sat: bool
    var done: bool

    function Regs(): Registers
      reads this
    {
      Registers(state, multdlycnt, oc, fs, setpt, sat, done)
    }

    constructor ()
      ensures Regs() == Registers(IDLE, 0, 0, 0, 0, false, false)
    {
      state, multdlycnt, oc, fs, setpt, sat, done := IDLE, 0, 0, 0, 0, false, false;
    }

    method CheckForSat(i: Inputs)
      requires state == CHECKFORSAT
      modifies this
      ensures Regs() == Step(old(Regs()), i)
    {
      if i.wide {
        if setpt < 0 && oc >= 0 {
          sat := true;
          setpt := MAX20;
        } else if setpt >= 0 && oc < 0 {
          sat := true;
          setpt := MIN20;
        }
      } else {
        if setpt > MAX18 {
          sat := true;
          setpt := MAX18;
        } else if setpt < MIN18 {
          sat := true;
          setpt := MIN18;
        }
      }
      state := MULT_DLY;
    }

    /** One rising edge of the clock. A reset clears `done` and nothing else. */
    method Clock(reset: bool, i: Inputs)
      modifies this
      ensures Regs() == Edge(old(Regs()), reset, i)
    {
      if reset {
        done := false;
        return;
      }
      match state
      case IDLE =>
        done, sat := false, false;
        if i.trig {
          state := APPLY_OFFSETS;
        }
      case APPLY_OFFSETS =>
        oc := Wrap20(i.raw - i.offset);
        state := APPLY_GAINS;
      case APPLY_GAINS =>
        fs := oc * i.gain;
        state := SCALE;
        multdlycnt := 0;
      case SCALE =>
        setpt := Slice(fs);
        state := CHECKFORSAT;
      case CHECKFORSAT => CheckForSat(i);
      case MULT_DLY =>
        if multdlycnt == 6 {
          state := IDLE;
          done := true;
        } else {
          multdlycnt := (multdlycnt + 1) % 16;
        }
    }
  }
}
