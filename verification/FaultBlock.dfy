/** One channel's fault block, clock edge by clock edge: eleven debounced fault conditions,
    the clear pulse, the latches and the masks; and the interlock that turns latched faults
    into "on" outputs. All registers take their new values together, from the old ones. */
module FaultBlock {
  import opened Words

  const DEBOUNCED := 11 // bits 0 to 10 are debounced,
  const LATCHED := 13   // bits 0 to 12 are latched; bit 12 is the event-receiver fault

  /** What is sampled at a clock edge. */
  datatype Inputs = Inputs(
    reset: bool, tenkhz: bool, clear: bool, enable: seq<bool>, limits: seq<u16>,
    dcct0: int, dcct1: int, voltage: int, psError: int, ignd: int,
    ovc1: int, ovc2: int, ovv: int, err1: int, err2: int, igndThresh: int,
    rsts: seq<bool>, dcctFault: bool, acOnOut: bool, on1: bool, polarity: bool, mainDipole: bool,
    park: bool, dacSetpoint: int, evrFlt: bool)

  predicate Wired(i: Inputs) {
    |i.enable| == LATCHED && |i.limits| == DEBOUNCED && |i.rsts| == 4
  }

  type Input = i: Inputs | Wired(i)
    witness Inputs(false, false, false, seq(LATCHED, _ => false), seq(DEBOUNCED, _ => 0), 0, 0, 0, 0, 0,
                   0, 0, 0, 0, 0, 0, seq(4, _ => false), false, false, false, false, false, false, 0, false)

  /** What the vectors hold for one fault bit: debounce counter, `fault_reg`, `fault_live`,
      `fault_reg_lat` and `fault_reg_lat_mask`. */
  datatype Bit = Bit(cnt: nat, reg: bool, live: bool, lat: bool, mask: bool)

  /** The delayed 10 kHz trigger; the clear bit, its last value and the clear pulse; the last
      two setpoints and whether they differ; and whether the supply is starting or running. */
  datatype TickRegs = TickRegs(dff0: bool, dff1: bool, pulse: bool)
  datatype ClearRegs = ClearRegs(re: bool, reReg: bool, pulse: bool)
  datatype DacRegs = DacRegs(sampled: int, held: int, moves: bool)
  datatype StartRegs = StartRegs(on1Last: bool, startup: bool, run: bool)

  datatype Registers = Registers(tick: TickRegs, clear: ClearRegs, dac: DacRegs, start: StartRegs,
                                 bits: seq<Bit>, errMask: bool)

  const CLEARED := Bit(0, false, false, false, false)

  const POWER_UP := Registers(TickRegs(false, false, false), ClearRegs(false, false, false), DacRegs(0, 0, false),
                             StartRegs(false, false, false), seq(LATCHED, _ => CLEARED), false)

  type State = r: Registers | |r.bits| == LATCHED witness POWER_UP

  // ----- one clock edge -----

  /** Fault condition `k`, before the clear pulse is taken into account. */
  predicate Raw(k: nat, i: Input, run: bool)
    requires k < DEBOUNCED
  {
    match k
    case 0 => Abs(i.dcct0) >= Abs(i.ovc1)
    case 1 => Abs(i.dcct1) >= Abs(i.ovc2)
    case 2 => Abs(i.voltage) >= Abs(i.ovv)
    case 3 => Abs(i.psError) >= Abs(i.err1)
    case 4 => Abs(i.psError) >= Abs(i.err2)
    case 5 => Abs(i.ignd) >= Abs(i.igndThresh)
    case 6 => !i.dcctFault
    case 7 => if !i.polarity || i.mainDipole then i.rsts[1] else !i.rsts[1] && i.on1 && run
    case 8 => i.rsts[2]
    case 9 => i.rsts[3]
    case _ => i.acOnOut && (if !i.polarity || i.mainDipole then !i.rsts[0] else !i.rsts[1])
  }

  predicate Seen(k: nat, i: Input, run: bool, clearPulse: bool)
    requires k < DEBOUNCED
  {
    Raw(k, i, run) && !clearPulse
  }

  /** The error checks are skipped while parked or while the setpoint moves. */
  predicate Skipped(k: nat, i: Input, dacChange: bool) {
    (k == 3 || k == 4) && (i.park || dacChange)
  }

  /** The condition that a 10 kHz tick counts. */
  predicate Condition(k: nat, i: Input, r: State)
    requires k < DEBOUNCED
  {
    Seen(k, i, r.start.run, r.clear.pulse) && !Skipped(k, i, r.dac.moves)
  }

  /** A counter's next value: 16 bits wide for bits 0 to 9, 32 for bit 10. */
  function Bump(k: nat, cnt: nat): nat {
    if k == 10 then (cnt + 1) % 0x1_0000_0000 else (cnt + 1) % 0x1_0000
  }

  /** One bit after a tick that sees its condition or does not. */
  function Counted(k: nat, b: Bit, seen: bool, limit: u16): Bit {
    if !seen then b.(cnt := 0, reg := false, live := false)
    else if b.cnt == limit then b.(reg := true, live := true)
    else b.(cnt := Bump(k, b.cnt), live := true)
  }

  /** One bit after a tick that may skip it. */
  function Checked(k: nat, b: Bit, skipped: bool, seen: bool, limit: u16): Bit {
    if skipped then b.(cnt := 0, reg := false) else Counted(k, b, seen, limit)
  }

  /** Fault bit `k` after a tick. */
  function Debounced(k: nat, i: Input, b: Bit, run: bool, clearPulse: bool, dacChange: bool): Bit
    requires k < DEBOUNCED
  {
    Checked(k, b, Skipped(k, i, dacChange), Seen(k, i, run, clearPulse), i.limits[k])
  }

  predicate Masked(k: nat, mainDipole: bool) {
    k == 4 || (mainDipole && (k == 8 || k == 9))
  }

  /** Bit `k` of a word. */
  predicate WordBit(word: nat, k: nat)
    requires k < LATCHED
  {
    match k
    case 0 => word % 2 == 1
    case 1 => word / 0x2 % 2 == 1
    case 2 => word / 0x4 % 2 == 1
    case 3 => word / 0x8 % 2 == 1
    case 4 => word / 0x10 % 2 == 1
    case 5 => word / 0x20 % 2 == 1
    case 6 => word / 0x40 % 2 == 1
    case 7 => word / 0x80 % 2 == 1
    case 8 => word / 0x100 % 2 == 1
    case 9 => word / 0x200 % 2 == 1
    case 10 => word / 0x400 % 2 == 1
    case 11 => word / 0x800 % 2 == 1
    case _ => word / 0x1000 % 2 == 1
  }

  /** The mask words hide exactly bit 4; for the main dipole bits 8 and 9 too. */
  lemma MaskWord(k: nat, mainDipole: bool)
    requires k < LATCHED
    ensures WordBit(if mainDipole then 0x1CEF else 0x1FEF, k) <==> !Masked(k, mainDipole)
  {
  }

  /** The bits after the eleven checks of a tick. */
  function CheckedBits(s: seq<Bit>, i: Input, run: bool, clearPulse: bool, dacChange: bool): (t: seq<Bit>)
    requires |s| == LATCHED
    ensures |t| == LATCHED
  {
    seq(LATCHED, k requires 0 <= k < LATCHED =>
      if k < DEBOUNCED then Debounced(k, i, s[k], run, clearPulse, dacChange) else s[k])
  }

  /** The bits after the latch loop. */
  function LatchedBits(s: seq<Bit>, clearPulse: bool): (t: seq<Bit>)
    requires |s| == LATCHED
    ensures |t| == LATCHED
    ensures forall k :: 0 <= k < LATCHED ==> t[k] == s[k].(lat := !clearPulse && (s[k].reg || s[k].lat))
  {
    seq(LATCHED, k requires 0 <= k < LATCHED => s[k].(lat := !clearPulse && (s[k].reg || s[k].lat)))
  }

  /** The bits after a reset: the counters of bits 6 to 10 are not in its list, and the masks
      have no reset. */
  function ResetBits(s: seq<Bit>): (t: seq<Bit>)
    requires |s| == LATCHED
    ensures |t| == LATCHED
    ensures forall k :: 0 <= k < LATCHED ==>
              t[k] == Bit(if k <= 5 then 0 else s[k].cnt, false, false, false, s[k].mask)
  {
    seq(LATCHED, k requires 0 <= k < LATCHED =>
      Bit(if k <= 5 then 0 else s[k].cnt, false, false, false, s[k].mask))
  }

  function NextMask(k: nat, i: Input, b: Bit): bool
    requires k < LATCHED
  {
    !Masked(k, i.mainDipole) && b.lat && i.enable[k]
  }

  /** The bits after the mask process. */
  function MaskedBits(s: seq<Bit>, i: Input): (t: seq<Bit>)
    requires |s| == LATCHED
    ensures |t| == LATCHED
    ensures forall k :: 0 <= k < LATCHED ==> t[k] == s[k].(mask := NextMask(k, i, s[k]))
  {
    seq(LATCHED, k requires 0 <= k < LATCHED => s[k].(mask := NextMask(k, i, s[k])))
  }

  /** The bits after the main process. */
  function FaultBits(s: seq<Bit>, i: Input, tick: bool, run: bool, clearPulse: bool, dacChange: bool): (t: seq<Bit>)
    requires |s| == LATCHED
    ensures |t| == LATCHED
  {
    if i.reset then ResetBits(s)
    else
      var l := LatchedBits(s, clearPulse);
      var c := if tick then CheckedBits(l, i, run, clearPulse, dacChange) else l;
      c[12 := c[12].(reg := i.evrFlt)]
  }

  function NextBits(r: State, i: Input): (t: seq<Bit>)
    ensures |t| == LATCHED
  {
    FaultBits(MaskedBits(r.bits, i), i, r.tick.pulse, r.start.run, r.clear.pulse, r.dac.moves)
  }

  /** One fault bit after an edge, taken by itself: a tick debounces it, the latch takes in its
      fault, and the mask takes in its latch. */
  function NextBit(k: nat, i: Input, r: State): Bit
    requires k < LATCHED
  {
    var b := r.bits[k];
    var mask := NextMask(k, i, b);
    if i.reset then
      Bit(if k <= 5 then 0 else b.cnt, false, false, false, mask)
    else
      var d := if r.tick.pulse && k < DEBOUNCED then Debounced(k, i, b, r.start.run, r.clear.pulse, r.dac.moves)
               else if k == 12 then b.(reg := i.evrFlt) else b;
      d.(lat := !r.clear.pulse && (b.reg || b.lat), mask := mask)
  }

  /** Neither the latch nor the mask of a bit enters its debouncing. */
  lemma LatchAside(k: nat, i: Input, b: Bit, run: bool, clearPulse: bool, dacChange: bool, lat: bool, mask: bool)
    requires k < DEBOUNCED
    ensures Debounced(k, i, b.(lat := lat, mask := mask), run, clearPulse, dacChange)
            == Debounced(k, i, b, run, clearPulse, dacChange).(lat := lat, mask := mask)
  {
  }

  lemma Assembled(t: seq<Bit>, b0: Bit, b1: Bit, b2: Bit, b3: Bit, b4: Bit, b5: Bit, b6: Bit, b7: Bit, b8: Bit,
                  b9: Bit, b10: Bit, b11: Bit, b12: Bit)
    requires |t| == LATCHED && t[0] == b0 && t[1] == b1 && t[2] == b2 && t[3] == b3 && t[4] == b4 && t[5] == b5
    requires t[6] == b6 && t[7] == b7 && t[8] == b8 && t[9] == b9 && t[10] == b10 && t[11] == b11 && t[12] == b12
    ensures t == [b0, b1, b2, b3, b4, b5, b6, b7, b8, b9, b10, b11, b12]
  {
  }

  /** The thirteen bits of an edge do not disturb each other: the processes, run in turn, do to
      each bit what `NextBit` says. */
  lemma BitsApart(k: nat, r: State, i: Input)
    requires k < LATCHED
    ensures NextBits(r, i)[k] == NextBit(k, i, r)
  {
    var m := MaskedBits(r.bits, i);
    var l := LatchedBits(m, r.clear.pulse);
    if !i.reset && r.tick.pulse {
      if k < DEBOUNCED {
        LatchAside(k, i, r.bits[k], r.start.run, r.clear.pulse, r.dac.moves, l[k].lat, l[k].mask);
      }
    }
  }

  /** The trigger passes three flip-flops. */
  function NextTick(t: TickRegs, i: Input): TickRegs {
    if i.reset then TickRegs(false, false, false) else TickRegs(i.tenkhz, t.dff0, t.dff1)
  }

  /** A rising edge of the clear bit starts the pulse; the next tick ends it. */
  function NextClear(c: ClearRegs, i: Input, tick: bool): ClearRegs {
    if !c.reReg && c.re then ClearRegs(i.clear, c.re, true)
    else if tick then ClearRegs(i.clear, c.re, false)
    else ClearRegs(i.clear, c.re, c.pulse)
  }

  function NextDac(d: DacRegs, i: Input): DacRegs {
    if i.reset then DacRegs(0, 0, false)
    else if i.tenkhz then DacRegs(i.dacSetpoint, d.sampled, d.sampled != d.held)
    else DacRegs(d.sampled, d.held, d.sampled != d.held)
  }

  function NextStart(s: StartRegs, i: Input, tick: bool): StartRegs {
    if i.reset then StartRegs(s.on1Last, false, false)
    else if !tick then s
    else
      var startup := if s.startup && i.rsts[1] then false else s.startup || (!s.on1Last && i.on1);
      var run := if s.run && !i.on1 then false else s.run || (s.startup && i.rsts[1]);
      StartRegs(i.on1, startup, run)
  }

  predicate ErrorMask(i: Input, b: Bit) {
    b.reg && i.enable[4]
  }

  function Edge(r: State, i: Input): State {
    Registers(NextTick(r.tick, i), NextClear(r.clear, i, r.tick.pulse), NextDac(r.dac, i),
              NextStart(r.start, i, r.tick.pulse), NextBits(r, i), ErrorMask(i, r.bits[4]))
  }

  /** The trip signal of the channel. */
  predicate FltTrig(r: State) {
    exists k :: 0 <= k < LATCHED && r.bits[k].mask
  }

  // ----- runs -----

  /** A channel's inputs at successive edges, and its registers before, between and after them. */
  datatype Run = Run(ins: seq<Input>, regs: seq<State>)

  predicate StepAt(run: Run, n: nat)
    requires n < |run.ins| && n + 1 < |run.regs|
  {
    run.regs[n + 1] == Edge(run.regs[n], run.ins[n])
  }

  ghost predicate IsRun(run: Run) {
    |run.regs| == |run.ins| + 1 && forall n :: 0 <= n < |run.ins| ==> StepAt(run, n)
  }

  /** Any inputs make a run, from any registers. */
  lemma {:induction false} RunExists(r: State, ins: seq<Input>) returns (run: Run)
    ensures IsRun(run) && run.ins == ins && run.regs[0] == r
  {
    if ins == [] {
      run := Run([], [r]);
    } else {
      var head := RunExists(r, ins[..|ins| - 1]);
      run := Run(ins, head.regs + [Edge(head.regs[|ins| - 1], ins[|ins| - 1])]);
      forall n | 0 <= n < |ins| ensures StepAt(run, n) {
        assert n < |ins| - 1 ==> StepAt(head, n);
      }
    }
  }

  lemma BitNext(k: nat, run: Run, n: nat)
    requires IsRun(run) && n < |run.ins| && k < LATCHED
    ensures run.regs[n + 1].bits[k] == NextBit(k, run.ins[n], run.regs[n])
  {
    assert StepAt(run, n);
    BitsApart(k, run.regs[n], run.ins[n]);
  }

  /** Edge `n` is a 10 kHz tick of the fault logic. */
  predicate TickAt(run: Run, n: nat)
    requires n < |run.ins| && n < |run.regs|
  {
    run.regs[n].tick.pulse && !run.ins[n].reset
  }

  /** One edge, for one bit: `past` is what the ticks so far have seen; a reset starts bits 0
      to 5 afresh. */
  function TicksNext(k: nat, r: State, i: Input, past: seq<bool>): seq<bool>
    requires k < DEBOUNCED
  {
    if i.reset then (if k <= 5 then [] else past)
    else if r.tick.pulse then past + [Condition(k, i, r)]
    else past
  }

  /** The condition of bit `k` at each tick before edge `n`. */
  function Ticks(k: nat, run: Run, n: nat): seq<bool>
    requires k < DEBOUNCED && n <= |run.ins| && n <= |run.regs|
  {
    if n == 0 then [] else TicksNext(k, run.regs[n - 1], run.ins[n - 1], Ticks(k, run, n - 1))
  }

  /** The last `m` of a sequence are all true. */
  predicate LastHold(s: seq<bool>, m: nat) {
    m <= |s| && forall i :: |s| - m <= i < |s| ==> s[i]
  }

  lemma LastHoldLess(s: seq<bool>, m: nat, m': nat)
    requires LastHold(s, m) && m' <= m
    ensures LastHold(s, m')
  {
  }

  lemma LastHoldNext(s: seq<bool>, c: bool, m: nat)
    ensures LastHold(s + [c], m + 1) <==> c && LastHold(s, m)
  {
    var s' := s + [c];
    assert forall i :: 0 <= i < |s| ==> s'[i] == s[i];
    if LastHold(s', m + 1) {
      assert s'[|s|];
      assert forall i :: |s| - m <= i < |s| ==> s'[i];
    }
  }

  predicate ConstantLimit(k: nat, run: Run, lim: u16)
    requires k < DEBOUNCED
  {
    forall e :: 0 <= e < |run.ins| ==> run.ins[e].limits[k] == lim
  }

  /** Bit `k` starts with an empty counter and no fault. */
  predicate StartsClear(k: nat, run: Run)
    requires k < LATCHED
  {
    |run.regs| > 0 && run.regs[0].bits[k].cnt == 0 && !run.regs[0].bits[k].reg && !run.regs[0].bits[k].lat
  }

  /** The counter holds the length of the streak, up to the limit. */
  predicate Counts(cnt: nat, s: seq<bool>, lim: u16) {
    cnt <= lim && LastHold(s, cnt) && (cnt < lim ==> !LastHold(s, cnt + 1))
  }

  lemma CheckedStep(k: nat, b: Bit, skipped: bool, seen: bool, past: seq<bool>, lim: u16)
    requires Counts(b.cnt, past, lim) && (b.reg ==> LastHold(past, lim + 1))
    ensures var b', now := Checked(k, b, skipped, seen, lim), past + [seen && !skipped];
            Counts(b'.cnt, now, lim) && (b'.reg <==> LastHold(now, lim + 1))
  {
    var c := seen && !skipped;
    LastHoldNext(past, c, lim);
    if !c {
      LastHoldNext(past, c, 0);
    } else if b.cnt < lim {
      LastHoldNext(past, c, b.cnt);
      LastHoldNext(past, c, b.cnt + 1);
      ShorterHold(past, b.cnt + 1, lim);
    } else {
      LastHoldLess(past + [c], lim + 1, lim);
    }
  }

  lemma ShorterHold(s: seq<bool>, m: nat, m': nat)
    requires !LastHold(s, m) && m <= m'
    ensures !LastHold(s, m')
  {
    if LastHold(s, m') {
      LastHoldLess(s, m', m);
    }
  }

  lemma DebounceStep(k: nat, r: State, i: Input, past: seq<bool>, lim: u16)
    requires k < DEBOUNCED && i.limits[k] == lim && Counts(r.bits[k].cnt, past, lim)
    requires r.bits[k].reg ==> LastHold(past, lim + 1)
    ensures var b, now := NextBit(k, i, r), TicksNext(k, r, i, past);
            && Counts(b.cnt, now, lim)
            && (b.reg ==> LastHold(now, lim + 1))
            && (r.tick.pulse && !i.reset ==> (b.reg <==> LastHold(now, lim + 1)))
  {
    CheckedStep(k, r.bits[k], Skipped(k, i, r.dac.moves), Seen(k, i, r.start.run, r.clear.pulse), past, lim);
  }

  /** The debounce theorem. With a constant limit, the counter is the length of the current
      streak of ticks that saw the condition, up to the limit; and after a tick the fault bit
      is set exactly when the last limit + 1 ticks all saw it (bits 0 to 5: after every edge). */
  lemma {:induction false} Debouncing(k: nat, run: Run, lim: u16, n: nat)
    requires IsRun(run) && n <= |run.ins|
    requires k < DEBOUNCED && ConstantLimit(k, run, lim) && StartsClear(k, run)
    ensures Counts(run.regs[n].bits[k].cnt, Ticks(k, run, n), lim)
    ensures run.regs[n].bits[k].reg ==> LastHold(Ticks(k, run, n), lim + 1)
    ensures (n > 0 && TickAt(run, n - 1)) || k <= 5 ==>
              (run.regs[n].bits[k].reg <==> LastHold(Ticks(k, run, n), lim + 1))
  {
    if n > 0 {
      Debouncing(k, run, lim, n - 1);
      BitNext(k, run, n - 1);
      DebounceStep(k, run.regs[n - 1], run.ins[n - 1], Ticks(k, run, n - 1), lim);
    }
  }

  // ----- a limit that is lowered -----

  /** A bit after `n` ticks that all see its condition. */
  function SeenFor(k: nat, b: Bit, limit: u16, n: nat): Bit {
    if n == 0 then b else Counted(k, SeenFor(k, b, limit, n - 1), true, limit)
  }

  /** The limit is compared for equality. A count that is over it, since the limit was lowered below
      it, has to wrap before the fault comes up: at 16 bits for bits 0 to 9, at 32 for bit 10. */
  lemma {:induction false} LoweredLimit(k: nat, b: Bit, limit: u16, width: nat, n: nat)
    requires k < DEBOUNCED && !b.reg && limit < b.cnt < width
    requires width == (if k == 10 then 0x1_0000_0000 else 0x1_0000) && n <= width - b.cnt + limit + 1
    ensures SeenFor(k, b, limit, n).reg <==> n == width - b.cnt + limit + 1
    ensures n <= width - b.cnt + limit ==> SeenFor(k, b, limit, n).cnt == (b.cnt + n) % width
  {
    if n > 0 {
      var m := n - 1;
      LoweredLimit(k, b, limit, width, m);
      CountReaches(b.cnt, limit, width, m);
    }
  }

  /** When a count that goes on from over the limit comes to it, and what it is next. */
  lemma CountReaches(cnt: nat, limit: nat, width: nat, m: nat)
    requires limit < cnt < width && m <= width - cnt + limit && (width == 0x1_0000 || width == 0x1_0000_0000)
    ensures (cnt + m) % width == limit <==> m == width - cnt + limit
    ensures ((cnt + m) % width + 1) % width == (cnt + (m + 1)) % width
  {
    if width == 0x1_0000 {
      assert (cnt + m) % 0x1_0000 == limit <==> m == 0x1_0000 - cnt + limit;
      assert ((cnt + m) % 0x1_0000 + 1) % 0x1_0000 == (cnt + (m + 1)) % 0x1_0000;
    } else {
      assert (cnt + m) % 0x1_0000_0000 == limit <==> m == 0x1_0000_0000 - cnt + limit;
      assert ((cnt + m) % 0x1_0000_0000 + 1) % 0x1_0000_0000 == (cnt + (m + 1)) % 0x1_0000_0000;
    }
  }

  // ----- what each bit means, by the inputs -----

  /** Every register as after power-up. */
  predicate FromPowerUp(run: Run) {
    && |run.regs| > 0
    && run.regs[0].tick == TickRegs(false, false, false) && run.regs[0].clear == ClearRegs(false, false, false)
    && run.regs[0].dac == DacRegs(0, 0, false) && run.regs[0].start == StartRegs(false, false, false)
    && forall k :: 0 <= k < LATCHED ==> run.regs[0].bits[k] == CLEARED
  }

  /** The registers but for the bits, an edge later. */
  lemma RegsNext(run: Run, n: nat)
    requires IsRun(run) && n < |run.ins|
    ensures var r, r', i := run.regs[n], run.regs[n + 1], run.ins[n];
            && r'.clear == NextClear(r.clear, i, r.tick.pulse) && r'.dac == NextDac(r.dac, i)
            && r'.start == NextStart(r.start, i, r.tick.pulse)
  {
    assert StepAt(run, n);
  }

  /** A trigger is a tick of the fault logic three edges later, unless a reset comes in between. */
  lemma TickIsTrigger(run: Run, n: nat)
    requires IsRun(run) && n + 3 <= |run.ins|
    ensures run.regs[n + 3].tick.pulse <==>
              run.ins[n].tenkhz && !run.ins[n].reset && !run.ins[n + 1].reset && !run.ins[n + 2].reset
  {
    assert StepAt(run, n) && StepAt(run, n + 1) && StepAt(run, n + 2);
  }

  /** The clear bit at the edge before `n`; before the first it counts as down. */
  predicate ClearBefore(run: Run, n: nat)
    requires n <= |run.ins|
  {
    n > 0 && run.ins[n - 1].clear
  }

  lemma {:induction false} ClearSampled(run: Run, n: nat)
    requires IsRun(run) && FromPowerUp(run) && n <= |run.ins|
    ensures run.regs[n].clear.re == ClearBefore(run, n)
    ensures run.regs[n].clear.reReg == (n > 0 && ClearBefore(run, n - 1))
  {
    if n > 0 {
      ClearSampled(run, n - 1);
      RegsNext(run, n - 1);
    }
  }

  /** The clear bit has risen: it was up at the edge before `e`, and down at the one before that. */
  predicate ClearRises(run: Run, e: nat)
    requires e <= |run.ins|
  {
    ClearBefore(run, e) && (e >= 2 ==> !run.ins[e - 2].clear)
  }

  /** No tick at edges `e` to `n - 1`. */
  ghost predicate NoPulse(run: Run, e: nat, n: nat)
    requires n <= |run.regs|
  {
    forall m :: e <= m < n ==> !run.regs[m].tick.pulse
  }

  /** The clear bit has risen, and no tick has come since. */
  ghost predicate Clearing(run: Run, n: nat)
    requires n <= |run.ins| && n <= |run.regs|
  {
    exists e :: 0 <= e < n && ClearRises(run, e) && NoPulse(run, e + 1, n)
  }

  lemma ClearingNext(run: Run, n: nat)
    requires n < |run.ins| && n < |run.regs|
    ensures Clearing(run, n + 1) <==> ClearRises(run, n) || (Clearing(run, n) && !run.regs[n].tick.pulse)
  {
    if ClearRises(run, n) {
      assert NoPulse(run, n + 1, n + 1);
    }
    if Clearing(run, n) && !run.regs[n].tick.pulse {
      var e :| 0 <= e < n && ClearRises(run, e) && NoPulse(run, e + 1, n);
      assert NoPulse(run, e + 1, n + 1);
    }
    if Clearing(run, n + 1) {
      var e :| 0 <= e < n + 1 && ClearRises(run, e) && NoPulse(run, e + 1, n + 1);
      assert e < n ==> NoPulse(run, e + 1, n);
    }
  }

  /** The clear pulse is up exactly when the clear bit has risen, and no tick has come since. */
  lemma {:induction false} ClearPulseMeans(run: Run, n: nat)
    requires IsRun(run) && FromPowerUp(run) && n <= |run.ins|
    ensures run.regs[n].clear.pulse <==> Clearing(run, n)
  {
    if n > 0 {
      ClearPulseMeans(run, n - 1);
      ClearSampled(run, n - 1);
      RegsNext(run, n - 1);
      ClearingNext(run, n - 1);
    }
  }

  /** The setpoints at the triggers so far, since the last reset. */
  function Setpoints(run: Run, n: nat): seq<int>
    requires n <= |run.ins|
  {
    if n == 0 || run.ins[n - 1].reset then []
    else Setpoints(run, n - 1) + if run.ins[n - 1].tenkhz then [run.ins[n - 1].dacSetpoint] else []
  }

  /** The last but `k` of some setpoints, or 0 if there are not so many. */
  function LastBut(s: seq<int>, k: nat): int {
    if k < |s| then s[|s| - 1 - k] else 0
  }

  /** The setpoint counts as moving when those of the last two triggers differ. */
  predicate Moving(run: Run, n: nat)
    requires n <= |run.ins|
  {
    n > 0 && !run.ins[n - 1].reset && LastBut(Setpoints(run, n - 1), 0) != LastBut(Setpoints(run, n - 1), 1)
  }

  lemma SetpointsNext(run: Run, n: nat)
    requires n < |run.ins|
    ensures var i, s, s' := run.ins[n], Setpoints(run, n), Setpoints(run, n + 1);
            if i.reset then LastBut(s', 0) == LastBut(s', 1) == 0
            else if i.tenkhz then LastBut(s', 0) == i.dacSetpoint && LastBut(s', 1) == LastBut(s, 0)
            else s' == s
  {
  }

  lemma {:induction false} MovesMeans(run: Run, n: nat)
    requires IsRun(run) && FromPowerUp(run) && n <= |run.ins|
    ensures run.regs[n].dac.sampled == LastBut(Setpoints(run, n), 0)
    ensures run.regs[n].dac.held == LastBut(Setpoints(run, n), 1)
    ensures run.regs[n].dac.moves <==> Moving(run, n)
  {
    if n > 0 {
      MovesMeans(run, n - 1);
      RegsNext(run, n - 1);
      SetpointsNext(run, n - 1);
    }
  }

  /** The "on" bit at the last tick before edge `n`. */
  predicate OnBefore(run: Run, n: nat)
    requires n <= |run.ins| && n <= |run.regs|
  {
    n > 0 && if TickAt(run, n - 1) then run.ins[n - 1].on1 else OnBefore(run, n - 1)
  }

  lemma {:induction false} OnSampled(run: Run, n: nat)
    requires IsRun(run) && FromPowerUp(run) && n <= |run.ins|
    ensures run.regs[n].start.on1Last == OnBefore(run, n)
  {
    if n > 0 {
      OnSampled(run, n - 1);
      RegsNext(run, n - 1);
    }
  }

  /** Edges `e` to `n - 1`: no reset, and at every tick the answer line is down. */
  ghost predicate Unanswered(run: Run, e: nat, n: nat)
    requires n <= |run.ins| && n <= |run.regs|
  {
    forall m :: e <= m < n ==> !run.ins[m].reset && (TickAt(run, m) ==> !run.ins[m].rsts[1])
  }

  /** Edges `e` to `n - 1`: no reset, and at every tick the supply is told to be on. */
  ghost predicate KeptOn(run: Run, e: nat, n: nat)
    requires n <= |run.ins| && n <= |run.regs|
  {
    forall m :: e <= m < n ==> !run.ins[m].reset && (TickAt(run, m) ==> run.ins[m].on1)
  }

  /** At tick `a` the supply, not starting, is told to be on after being off. */
  predicate TurnedOn(run: Run, a: nat)
    requires a < |run.ins| && a < |run.regs|
  {
    TickAt(run, a) && !run.regs[a].start.startup && run.ins[a].on1 && !OnBefore(run, a)
  }

  /** It was turned on, and has not answered since. */
  ghost predicate Starting(run: Run, n: nat)
    requires n <= |run.ins| && n <= |run.regs|
  {
    exists a :: 0 <= a < n && TurnedOn(run, a) && Unanswered(run, a + 1, n)
  }

  lemma UnansweredNext(run: Run, e: nat, n: nat)
    requires e <= n < |run.ins| && n < |run.regs|
    ensures Unanswered(run, e, n + 1) <==>
              Unanswered(run, e, n) && !run.ins[n].reset && (TickAt(run, n) ==> !run.ins[n].rsts[1])
  {
  }

  lemma StartingNext(run: Run, n: nat)
    requires n < |run.ins| && n < |run.regs|
    ensures Starting(run, n + 1) <==>
              || TurnedOn(run, n)
              || (Starting(run, n) && !run.ins[n].reset && (TickAt(run, n) ==> !run.ins[n].rsts[1]))
  {
    if TurnedOn(run, n) {
      assert Unanswered(run, n + 1, n + 1);
    }
    if Starting(run, n + 1) {
      var a :| 0 <= a < n + 1 && TurnedOn(run, a) && Unanswered(run, a + 1, n + 1);
      if a < n {
        UnansweredNext(run, a + 1, n);
      }
    }
    if Starting(run, n) {
      var a :| 0 <= a < n && TurnedOn(run, a) && Unanswered(run, a + 1, n);
      UnansweredNext(run, a + 1, n);
    }
  }

  /** It is starting exactly when it was turned on, and has not answered since. */
  lemma {:induction false} StartMeans(run: Run, n: nat)
    requires IsRun(run) && FromPowerUp(run) && n <= |run.ins|
    ensures run.regs[n].start.startup <==> Starting(run, n)
  {
    if n > 0 {
      StartMeans(run, n - 1);
      OnSampled(run, n - 1);
      RegsNext(run, n - 1);
      StartingNext(run, n - 1);
    }
  }

  /** At tick `b` the supply, starting and not running, answers. */
  predicate Answered(run: Run, b: nat)
    requires b < |run.ins| && b < |run.regs|
  {
    TickAt(run, b) && run.regs[b].start.startup && !run.regs[b].start.run && run.ins[b].rsts[1]
  }

  /** It answered while it was starting, and was told to be on at every tick since. */
  ghost predicate Running(run: Run, n: nat)
    requires n <= |run.ins| && n <= |run.regs|
  {
    exists b :: 0 <= b < n && Answered(run, b) && KeptOn(run, b + 1, n)
  }

  lemma KeptOnNext(run: Run, e: nat, n: nat)
    requires e <= n < |run.ins| && n < |run.regs|
    ensures KeptOn(run, e, n + 1) <==>
              KeptOn(run, e, n) && !run.ins[n].reset && (TickAt(run, n) ==> run.ins[n].on1)
  {
  }

  lemma RunningNext(run: Run, n: nat)
    requires n < |run.ins| && n < |run.regs|
    ensures Running(run, n + 1) <==>
              || Answered(run, n)
              || (Running(run, n) && !run.ins[n].reset && (TickAt(run, n) ==> run.ins[n].on1))
  {
    if Answered(run, n) {
      assert KeptOn(run, n + 1, n + 1);
    }
    if Running(run, n + 1) {
      var b :| 0 <= b < n + 1 && Answered(run, b) && KeptOn(run, b + 1, n + 1);
      if b < n {
        KeptOnNext(run, b + 1, n);
      }
    }
    if Running(run, n) {
      var b :| 0 <= b < n && Answered(run, b) && KeptOn(run, b + 1, n);
      KeptOnNext(run, b + 1, n);
    }
  }

  /** It is running exactly when it answered while it was starting, and was told to be on at
      every tick since. */
  lemma {:induction false} RunMeans(run: Run, n: nat)
    requires IsRun(run) && FromPowerUp(run) && n <= |run.ins|
    ensures run.regs[n].start.run <==> Running(run, n)
  {
    if n > 0 {
      RunMeans(run, n - 1);
      RegsNext(run, n - 1);
      RunningNext(run, n - 1);
    }
  }

  /** A reading is at its threshold or over it, either way. */
  predicate Reaches(x: int, threshold: int) {
    (x >= threshold && x >= -threshold) || (-x >= threshold && -x >= -threshold)
  }

  /** The line on which the supply answers that it is on: the second for a unipolar one that is no
      main dipole, the first for all others. */
  predicate AnswerLine(i: Input) {
    if i.polarity && !i.mainDipole then i.rsts[1] else i.rsts[0]
  }

  /** Fault `k` shows at tick `e`: over current in either DCCT, over voltage, the two regulation
      errors, ground current; the DCCT's own fault line; the supply's three fault lines; and
      contactors that are closed with no answer. The errors do not count while the supply is parked
      or the setpoint moves. For a unipolar supply that is no main dipole, fault 7 is the answer
      missing while the supply is told to be on and is running. */
  ghost predicate Shows(k: nat, run: Run, e: nat)
    requires k < DEBOUNCED && e < |run.ins| && e < |run.regs|
  {
    var i := run.ins[e];
    var lines := !i.polarity || i.mainDipole;
    || (k == 0 && Reaches(i.dcct0, i.ovc1))
    || (k == 1 && Reaches(i.dcct1, i.ovc2))
    || (k == 2 && Reaches(i.voltage, i.ovv))
    || (k == 3 && Reaches(i.psError, i.err1) && !i.park && !Moving(run, e))
    || (k == 4 && Reaches(i.psError, i.err2) && !i.park && !Moving(run, e))
    || (k == 5 && Reaches(i.ignd, i.igndThresh))
    || (k == 6 && !i.dcctFault)
    || (k == 7 && lines && i.rsts[1])
    || (k == 7 && !lines && i.on1 && Running(run, e) && !i.rsts[1])
    || (k == 8 && i.rsts[2])
    || (k == 9 && i.rsts[3])
    || (k == 10 && i.acOnOut && !AnswerLine(i))
  }

  lemma ConditionIs(k: nat, run: Run, e: nat)
    requires IsRun(run) && FromPowerUp(run) && k < DEBOUNCED && e < |run.ins|
    ensures Condition(k, run.ins[e], run.regs[e]) <==> Shows(k, run, e) && !Clearing(run, e)
  {
    MovesMeans(run, e);
    RunMeans(run, e);
    ClearPulseMeans(run, e);
  }

  /** The ticks that bit `k` counts: all since the last reset for bits 0 to 5, all for the others. */
  function TickEdges(k: nat, run: Run, n: nat): seq<nat>
    requires k < DEBOUNCED && n <= |run.ins| && n <= |run.regs|
  {
    if n == 0 then []
    else if run.ins[n - 1].reset then (if k <= 5 then [] else TickEdges(k, run, n - 1))
    else TickEdges(k, run, n - 1) + if run.regs[n - 1].tick.pulse then [n - 1] else []
  }

  /** Fault `k` showed, and was not being cleared, at each of the last `m` of those ticks. */
  ghost predicate ShowedAtLast(k: nat, run: Run, n: nat, m: nat)
    requires k < DEBOUNCED && n <= |run.ins| && n <= |run.regs|
  {
    var ts := TickEdges(k, run, n);
    m <= |ts| && forall i :: |ts| - m <= i < |ts| ==> ShowedAt(k, run, ts[i])
  }

  ghost predicate ShowedAt(k: nat, run: Run, e: nat)
    requires k < DEBOUNCED
  {
    e < |run.ins| && e < |run.regs| && Shows(k, run, e) && !Clearing(run, e)
  }

  lemma {:induction false} TicksAre(k: nat, run: Run, n: nat)
    requires IsRun(run) && FromPowerUp(run) && k < DEBOUNCED && n <= |run.ins|
    ensures |TickEdges(k, run, n)| == |Ticks(k, run, n)|
    ensures forall i :: 0 <= i < |TickEdges(k, run, n)| ==>
              (Ticks(k, run, n)[i] <==> ShowedAt(k, run, TickEdges(k, run, n)[i]))
  {
    if n > 0 {
      TicksAre(k, run, n - 1);
      ConditionIs(k, run, n - 1);
    }
  }

  lemma LastHoldIs(k: nat, run: Run, n: nat, m: nat)
    requires IsRun(run) && FromPowerUp(run) && k < DEBOUNCED && n <= |run.ins|
    ensures LastHold(Ticks(k, run, n), m) <==> ShowedAtLast(k, run, n, m)
  {
    TicksAre(k, run, n);
  }

  /** When a fault bit is up, in terms of what came in: after a tick, exactly when its fault showed,
      uncleared, at each of the last limit + 1 ticks. */
  lemma FaultMeans(k: nat, run: Run, lim: u16, n: nat)
    requires IsRun(run) && FromPowerUp(run) && k < DEBOUNCED && ConstantLimit(k, run, lim)
    requires 0 < n <= |run.ins| && TickAt(run, n - 1)
    ensures run.regs[n].bits[k].reg <==> ShowedAtLast(k, run, n, lim + 1)
  {
    Debouncing(k, run, lim, n);
    LastHoldIs(k, run, n, lim + 1);
  }

  /** Between ticks a fault bit is held; a reset clears it. The live bit follows the condition at
      every tick, but the live bits of the errors are left alone while those do not count. */
  lemma BetweenTicks(k: nat, run: Run, n: nat)
    requires IsRun(run) && k < DEBOUNCED && n < |run.ins|
    ensures !run.ins[n].reset && !run.regs[n].tick.pulse ==>
              && run.regs[n + 1].bits[k].reg == run.regs[n].bits[k].reg
              && run.regs[n + 1].bits[k].live == run.regs[n].bits[k].live
    ensures run.ins[n].reset ==> !run.regs[n + 1].bits[k].reg && !run.regs[n + 1].bits[k].live
  {
    BitNext(k, run, n);
  }

  lemma LiveMeans(k: nat, run: Run, n: nat)
    requires IsRun(run) && FromPowerUp(run) && k < DEBOUNCED && n < |run.ins| && TickAt(run, n)
    ensures run.regs[n + 1].bits[k].live ==
              if (k == 3 || k == 4) && (run.ins[n].park || Moving(run, n)) then run.regs[n].bits[k].live
              else Shows(k, run, n) && !Clearing(run, n)
  {
    BitNext(k, run, n);
    ConditionIs(k, run, n);
    MovesMeans(run, n);
    ClearPulseMeans(run, n);
  }

  /** Bit 12 is the event receiver's fault, a clock later; bit 11 is never up. */
  lemma {:induction false} LastBits(run: Run, n: nat)
    requires IsRun(run) && FromPowerUp(run) && n <= |run.ins|
    ensures !run.regs[n].bits[11].reg
    ensures n > 0 ==> (run.regs[n].bits[12].reg <==> run.ins[n - 1].evrFlt && !run.ins[n - 1].reset)
  {
    if n > 0 {
      LastBits(run, n - 1);
      BitNext(11, run, n - 1);
      BitNext(12, run, n - 1);
    }
  }

  /** The snapshot trigger for errors is up exactly when error 2, enabled, was a fault a clock ago. */
  lemma ErrorTrigger(run: Run, lim: u16, n: nat)
    requires IsRun(run) && FromPowerUp(run) && ConstantLimit(4, run, lim) && n < |run.ins|
    ensures run.regs[n + 1].errMask <==> run.ins[n].enable[4] && ShowedAtLast(4, run, n, lim + 1)
  {
    assert StepAt(run, n);
    Debouncing(4, run, lim, n);
    LastHoldIs(4, run, n, lim + 1);
  }

  // ----- latches, clear and trip -----

  /** Neither a clear pulse nor a reset at edges `e` to `n - 1`. */
  ghost predicate Undisturbed(run: Run, e: nat, n: nat)
    requires n <= |run.ins| && n <= |run.regs|
  {
    forall m :: e <= m < n ==> !run.regs[m].clear.pulse && !run.ins[m].reset
  }

  /** Fault bit `k` was up before edge `e`, and nothing has cleared it since. */
  ghost predicate SeenSince(k: nat, run: Run, e: nat, n: nat)
    requires k < LATCHED && e < n <= |run.ins| && n <= |run.regs|
  {
    run.regs[e].bits[k].reg && Undisturbed(run, e, n)
  }

  lemma {:induction false} LatchStays(k: nat, run: Run, e: nat, n: nat)
    requires IsRun(run) && k < LATCHED && e < n <= |run.ins| && SeenSince(k, run, e, n)
    ensures run.regs[n].bits[k].lat
    decreases n
  {
    BitNext(k, run, n - 1);
    if n > e + 1 {
      LatchStays(k, run, e, n - 1);
    }
  }

  lemma {:induction false} LatchHasCause(k: nat, run: Run, n: nat) returns (e: nat)
    requires IsRun(run) && k < LATCHED && n <= |run.ins| && !run.regs[0].bits[k].lat && run.regs[n].bits[k].lat
    ensures e < n && SeenSince(k, run, e, n)
  {
    BitNext(k, run, n - 1);
    if run.regs[n - 1].bits[k].reg {
      e := n - 1;
    } else {
      e := LatchHasCause(k, run, n - 1);
    }
  }

  /** The latch theorem, for bits 0 to 12: a latch is set exactly when its fault bit was seen
      since the last clear pulse or reset. */
  lemma LatchHistory(k: nat, run: Run, n: nat)
    requires IsRun(run) && k < LATCHED && n <= |run.ins| && !run.regs[0].bits[k].lat
    ensures run.regs[n].bits[k].lat <==> exists e :: 0 <= e < n && SeenSince(k, run, e, n)
  {
    if run.regs[n].bits[k].lat {
      var e := LatchHasCause(k, run, n);
    } else if exists e :: 0 <= e < n && SeenSince(k, run, e, n) {
      var e :| 0 <= e < n && SeenSince(k, run, e, n);
      LatchStays(k, run, e, n);
    }
  }

  /** Ticks at edges `e` to `n - 1`. */
  function TickCount(run: Run, e: nat, n: nat): nat
    requires e <= n <= |run.ins| && n <= |run.regs|
  {
    if n == e then 0 else TickCount(run, e, n - 1) + if TickAt(run, n - 1) then 1 else 0
  }

  /** A clear pulse, once up, stays up until a tick takes it in. */
  lemma ClearPulseLasts(run: Run, n: nat)
    requires IsRun(run) && n < |run.ins| && run.regs[n].clear.pulse && !TickAt(run, n) && !run.ins[n].reset
    ensures run.regs[n + 1].clear.pulse
  {
    assert StepAt(run, n);
  }

  lemma {:induction false} StreakAfterClear(k: nat, run: Run, e: nat, n: nat)
    requires k < DEBOUNCED && e < n <= |run.ins| && n <= |run.regs| && run.regs[e].clear.pulse && TickAt(run, e)
    ensures !LastHold(Ticks(k, run, n), TickCount(run, e + 1, n) + 1)
    decreases n
  {
    if n == e + 1 {
      LastHoldNext(Ticks(k, run, e), Condition(k, run.ins[e], run.regs[e]), 0);
    } else {
      StreakAfterClear(k, run, e, n - 1);
      LastHoldNext(Ticks(k, run, n - 1), Condition(k, run.ins[n - 1], run.regs[n - 1]),
                   TickCount(run, e + 1, n - 1) + 1);
    }
  }

  /** After the tick that takes in a clear pulse, no debounced bit and no latch of one comes
      up again before limit + 1 further ticks. */
  lemma {:induction false} NoEarlyRelatch(k: nat, run: Run, lim: u16, e: nat, n: nat)
    requires IsRun(run) && k < DEBOUNCED && ConstantLimit(k, run, lim) && StartsClear(k, run)
    requires e < n <= |run.ins| && run.regs[e].clear.pulse && TickAt(run, e)
    requires TickCount(run, e + 1, n) <= lim
    ensures !run.regs[n].bits[k].reg && !run.regs[n].bits[k].lat
    decreases n
  {
    Debouncing(k, run, lim, n);
    StreakAfterClear(k, run, e, n);
    ShorterHold(Ticks(k, run, n), TickCount(run, e + 1, n) + 1, lim + 1);
    BitNext(k, run, n - 1);
    if n > e + 1 {
      NoEarlyRelatch(k, run, lim, e, n - 1);
    }
  }

  /** Limit + 1 ticks, the last of them edge `e`, have seen an enabled, unmasked condition. */
  ghost predicate Trips(k: nat, run: Run, lim: u16, e: nat, n: nat) {
    && IsRun(run) && k < DEBOUNCED && ConstantLimit(k, run, lim) && StartsClear(k, run)
    && e + 3 <= n <= |run.ins|
    && TickAt(run, e) && LastHold(Ticks(k, run, e + 1), lim + 1)
    && Undisturbed(run, e + 1, n - 1)
    && run.ins[n - 1].enable[k] && !Masked(k, run.ins[n - 1].mainDipole)
  }

  /** Trip and hold: the channel trips within three clocks (from `e + 3` on), and stays
      tripped until a clear pulse or a reset. */
  lemma TripAndHold(k: nat, run: Run, lim: u16, e: nat, n: nat)
    requires Trips(k, run, lim, e, n)
    ensures FltTrig(run.regs[n])
  {
    Debouncing(k, run, lim, e + 1);
    LatchStays(k, run, e + 1, n - 1);
    BitNext(k, run, n - 1);
    assert run.regs[n].bits[k].mask;
  }

  /** So a fault that shows for limit + 1 ticks, the last of them edge `e`, trips the channel from three
      clocks later on, if it is enabled and not masked, until a clear or a reset. */
  lemma FaultTrips(k: nat, run: Run, lim: u16, e: nat, n: nat)
    requires IsRun(run) && FromPowerUp(run) && k < DEBOUNCED && ConstantLimit(k, run, lim)
    requires e + 3 <= n <= |run.ins| && TickAt(run, e) && ShowedAtLast(k, run, e + 1, lim + 1)
    requires Undisturbed(run, e + 1, n - 1)
    requires run.ins[n - 1].enable[k] && k != 4 && (run.ins[n - 1].mainDipole ==> k != 8 && k != 9)
    ensures FltTrig(run.regs[n])
  {
    LastHoldIs(k, run, e + 1, lim + 1);
    TripAndHold(k, run, lim, e, n);
  }

  /** The bit is enabled and not masked. */
  predicate Armed(k: nat, i: Input)
    requires k < LATCHED
  {
    i.enable[k] && !Masked(k, i.mainDipole)
  }

  /** Fault bit `k` was up at some edge before `m`, with no clear pulse or reset since. */
  ghost predicate Caused(k: nat, run: Run, m: nat)
    requires k < LATCHED && m <= |run.ins| && m <= |run.regs|
  {
    exists e :: 0 <= e < m && SeenSince(k, run, e, m)
  }

  /** Every trip has a cause, and every cause trips: after an edge the channel is tripped if and
      only if some bit is armed at that edge whose fault was seen before it, with no clear pulse or
      reset since. */
  lemma TripHasCause(run: Run, m: nat)
    requires IsRun(run) && m < |run.ins| && forall k :: 0 <= k < LATCHED ==> !run.regs[0].bits[k].lat
    ensures FltTrig(run.regs[m + 1]) <==> exists k :: 0 <= k < LATCHED && Armed(k, run.ins[m]) && Caused(k, run, m)
  {
    var after := run.regs[m + 1];
    forall k | 0 <= k < LATCHED ensures after.bits[k].mask <==> Armed(k, run.ins[m]) && Caused(k, run, m) {
      BitNext(k, run, m);
      LatchHistory(k, run, m);
    }
  }

  // ----- resets -----

  /** A reset starts bits 0 to 5 afresh: none comes up, or latches, before limit + 1 ticks. */
  lemma {:induction false} ResetStartsAfresh(k: nat, run: Run, lim: u16, e: nat, n: nat)
    requires IsRun(run) && k <= 5 && ConstantLimit(k, run, lim) && StartsClear(k, run)
    requires e < n <= |run.ins| && run.ins[e].reset && TickCount(run, e + 1, n) <= lim
    ensures !run.regs[n].bits[k].reg && !run.regs[n].bits[k].lat
    decreases n
  {
    Debouncing(k, run, lim, n);
    TicksSinceReset(k, run, e, n);
    BitNext(k, run, n - 1);
    if n > e + 1 {
      ResetStartsAfresh(k, run, lim, e, n - 1);
    }
  }

  lemma {:induction false} TicksSinceReset(k: nat, run: Run, e: nat, n: nat)
    requires k <= 5 && e < n <= |run.ins| && n <= |run.regs| && run.ins[e].reset
    ensures |Ticks(k, run, n)| <= TickCount(run, e + 1, n)
    decreases n
  {
    if n > e + 1 {
      TicksSinceReset(k, run, e, n - 1);
    }
  }

  /** One edge adds at most its tick to a count, and a count within the limit is no fault. */
  lemma CountGrows(k: nat, i: Input, r: State)
    requires 6 <= k < DEBOUNCED
    ensures var tick := r.tick.pulse && !i.reset;
            && NextBit(k, i, r).cnt <= r.bits[k].cnt + (if tick then 1 else 0)
            && (NextBit(k, i, r).reg ==> !i.reset && (r.bits[k].reg || (tick && r.bits[k].cnt == i.limits[k])))
  {
  }

  /** The others go on from where they were: none comes up while its count at the reset and the
      ticks since are together within the limit. */
  lemma {:induction false} ResetKeepsCount(k: nat, run: Run, lim: u16, e: nat, n: nat)
    requires IsRun(run) && 6 <= k < DEBOUNCED && ConstantLimit(k, run, lim)
    requires e < n <= |run.ins| && run.ins[e].reset
    requires run.regs[e].bits[k].cnt + TickCount(run, e + 1, n) <= lim
    ensures run.regs[n].bits[k].cnt <= run.regs[e].bits[k].cnt + TickCount(run, e + 1, n)
    ensures !run.regs[n].bits[k].reg
    decreases n
  {
    BitNext(k, run, n - 1);
    CountGrows(k, run.ins[n - 1], run.regs[n - 1]);
    if n > e + 1 {
      ResetKeepsCount(k, run, lim, e, n - 1);
    }
  }

  /** The DCCT reports a fault, and every limit is 1. */
  function DcctFault(reset: bool, tenkhz: bool): (i: Input)
    ensures i.reset == reset && i.tenkhz == tenkhz && !i.clear && !i.dcctFault && i.limits[6] == 1
  {
    Inputs(reset, tenkhz, false, seq(LATCHED, _ => false), seq(DEBOUNCED, _ => 1), 0, 0, 0, 0, 0, 0, 0, 0, 0, 0, 0,
           seq(4, _ => false), false, false, false, false, false, false, 0, false)
  }

  /** Triggers at edges 0 and 5, which are ticks at edges 3 and 8, and a reset at edge 4. */
  function ResetBetween(): (ins: seq<Input>)
    ensures |ins| == 9
    ensures forall n :: 0 <= n < 9 ==> ins[n] == DcctFault(n == 4, n == 0 || n == 5)
  {
    var quiet := DcctFault(false, false);
    [DcctFault(false, true), quiet, quiet, quiet, DcctFault(true, false), DcctFault(false, true), quiet, quiet, quiet]
  }

  /** The DCCT's fault is all that edge `n` is given, but for a reset or a trigger. */
  predicate Fed(run: Run, n: nat, reset: bool, tenkhz: bool)
    requires n < |run.ins|
  {
    var i := run.ins[n];
    i.reset == reset && i.tenkhz == tenkhz && !i.clear && !i.dcctFault && i.limits[6] == 1
  }

  predicate Signals(r: State, dff0: bool, dff1: bool, pulse: bool) {
    r.tick == TickRegs(dff0, dff1, pulse) && r.clear == ClearRegs(false, false, false)
  }

  lemma SignalsNext(run: Run, n: nat, reset: bool, tenkhz: bool, dff0: bool, dff1: bool, pulse: bool)
    requires IsRun(run) && n < |run.ins| && Fed(run, n, reset, tenkhz) && Signals(run.regs[n], dff0, dff1, pulse)
    ensures if reset then Signals(run.regs[n + 1], false, false, false)
            else Signals(run.regs[n + 1], tenkhz, dff0, dff1)
  {
    assert StepAt(run, n);
  }

  /** The DCCT bit holds a count and no fault. */
  predicate DcctCount(r: State, cnt: nat) {
    r.bits[6].cnt == cnt && !r.bits[6].reg
  }

  /** The DCCT bit, an edge later. */
  lemma DcctNext(run: Run, n: nat, reset: bool, tenkhz: bool, pulse: bool, cnt: nat)
    requires IsRun(run) && n < |run.ins| && Fed(run, n, reset, tenkhz) && cnt <= 1
    requires !run.regs[n].clear.pulse && run.regs[n].tick.pulse == pulse && DcctCount(run.regs[n], cnt)
    ensures if reset || !pulse then DcctCount(run.regs[n + 1], cnt)
            else if cnt == 0 then DcctCount(run.regs[n + 1], 1)
            else run.regs[n + 1].bits[6].reg
  {
    BitNext(6, run, n);
  }

  /** A run of these inputs. */
  ghost predicate Witness(run: Run) {
    && IsRun(run) && |run.ins| == 9
    && Signals(run.regs[0], false, false, false) && DcctCount(run.regs[0], 0)
    && Fed(run, 0, false, true) && Fed(run, 1, false, false) && Fed(run, 2, false, false)
    && Fed(run, 3, false, false) && Fed(run, 4, true, false) && Fed(run, 5, false, true)
    && Fed(run, 6, false, false) && Fed(run, 7, false, false) && Fed(run, 8, false, false)
  }

  lemma WitnessSignals(run: Run)
    requires Witness(run)
    ensures Signals(run.regs[0], false, false, false) && Signals(run.regs[1], true, false, false)
    ensures Signals(run.regs[2], false, true, false) && Signals(run.regs[3], false, false, true)
    ensures Signals(run.regs[4], false, false, false) && Signals(run.regs[5], false, false, false)
    ensures Signals(run.regs[6], true, false, false) && Signals(run.regs[7], false, true, false)
    ensures Signals(run.regs[8], false, false, true)
  {
    SignalsNext(run, 0, false, true, false, false, false);
    SignalsNext(run, 1, false, false, true, false, false);
    SignalsNext(run, 2, false, false, false, true, false);
    SignalsNext(run, 3, false, false, false, false, true);
    SignalsNext(run, 4, true, false, false, false, false);
    SignalsNext(run, 5, false, true, false, false, false);
    SignalsNext(run, 6, false, false, true, false, false);
    SignalsNext(run, 7, false, false, false, true, false);
  }

  lemma WitnessFaults(run: Run)
    requires Witness(run)
    ensures run.regs[9].bits[6].reg
  {
    WitnessSignals(run);
    DcctNext(run, 0, false, true, false, 0);
    DcctNext(run, 1, false, false, false, 0);
    DcctNext(run, 2, false, false, false, 0);
    DcctNext(run, 3, false, false, true, 0);
    DcctNext(run, 4, true, false, false, 1);
    DcctNext(run, 5, false, true, false, 1);
    DcctNext(run, 6, false, false, false, 1);
    DcctNext(run, 7, false, false, false, 1);
    DcctNext(run, 8, false, false, true, 1);
  }

  lemma WitnessTicks(run: Run)
    requires Witness(run)
    ensures TickCount(run, 5, 9) == 1
  {
    WitnessSignals(run);
    assert TickCount(run, 5, 5) == 0;
    assert TickCount(run, 5, 6) == 0;
    assert TickCount(run, 5, 7) == 0;
    assert TickCount(run, 5, 8) == 0;
  }

  /** So with a limit of 1, where a fresh start takes two ticks to a fault, there is a run in which
      the fault comes up at the first tick after a reset. */
  lemma ResetIsNoFreshStart() returns (run: Run)
    ensures IsRun(run) && |run.ins| == 9 && ConstantLimit(6, run, 1) && StartsClear(6, run)
    ensures run.ins[4].reset && TickCount(run, 5, 9) == 1 && run.regs[9].bits[6].reg
  {
    run := RunExists(POWER_UP, ResetBetween());
    WitnessFaults(run);
    WitnessTicks(run);
  }

  // ----- the interlock (digio_logic) -----

  /** The four "on" outputs, from the pulse trains, the delayed train of dual mode, and the trips. */
  function OnOutputs(psOn1: seq<bool>, on1Chan2Dly: bool, fltTrig: seq<bool>, dualMode: bool): (on: seq<bool>)
    requires |psOn1| == |fltTrig| == 4
    ensures |on| == 4
  {
    [psOn1[0] && !fltTrig[0],
     psOn1[1] && !fltTrig[1],
     if !dualMode then psOn1[2] && !fltTrig[2] else psOn1[2] && !fltTrig[2] && !fltTrig[3],
     if !dualMode then psOn1[3] && !fltTrig[3] else on1Chan2Dly && !fltTrig[2] && !fltTrig[3]]
  }

  /** Channel `c`'s output is forced off by channel `d`'s trip. */
  predicate Interlocked(c: nat, d: nat, dualMode: bool) {
    c == d || (dualMode && c >= 2 && d >= 2)
  }

  /** An output is on exactly when it is asked for and no trip that it is interlocked with is up. */
  lemma OutputFollowsRequest(c: nat, psOn1: seq<bool>, on1Chan2Dly: bool, fltTrig: seq<bool>, dualMode: bool)
    requires |psOn1| == |fltTrig| == 4 && c < 4
    ensures OnOutputs(psOn1, on1Chan2Dly, fltTrig, dualMode)[c] <==>
              && (if c == 3 && dualMode then on1Chan2Dly else psOn1[c])
              && forall d :: 0 <= d < 4 && Interlocked(c, d, dualMode) ==> !fltTrig[d]
  {
    if c >= 2 && dualMode {
      assert Interlocked(c, 2, dualMode) && Interlocked(c, 3, dualMode);
    } else {
      assert Interlocked(c, c, dualMode);
    }
  }

  /** From a debounced fault to open contactors: four channels run side by side, channel `d`
      trips, and every output interlocked with it is off, whatever is asked for. */
  lemma TripOpensOutputs(k: nat, c: nat, d: nat, runs: seq<Run>, lim: u16, e: nat, n: nat,
                         psOn1: seq<bool>, on1Chan2Dly: bool, dualMode: bool)
    requires |runs| == |psOn1| == 4 && c < 4 && d < 4 && Interlocked(c, d, dualMode)
    requires forall j :: 0 <= j < 4 ==> n < |runs[j].regs|
    requires Trips(k, runs[d], lim, e, n)
    ensures var flt := seq(4, j requires 0 <= j < 4 => FltTrig(runs[j].regs[n]));
            !OnOutputs(psOn1, on1Chan2Dly, flt, dualMode)[c]
  {
    TripAndHold(k, runs[d], lim, e, n);
  }

  // ----- the clocked processes -----

  /** The fault block. The processes of one edge run one after the other here, each before
      anything it reads is overwritten. */
  class FaultLogic {
    var dff0: bool
    var dff1: bool
    var tenKhzPulse: bool
    var re: bool
    var reReg: bool
    var clearPulse: bool
    var dacNew: int
    var dacOld: int
    var dacChange: bool
    var on1Last: bool
    var startup: bool
    var run: bool
    var bits: seq<Bit>
    var errMask: bool

    function Tick(): TickRegs
      reads `dff0, `dff1, `tenKhzPulse
    {
      TickRegs(dff0, dff1, tenKhzPulse)
    }

    function Clear(): ClearRegs
      reads `re, `reReg, `clearPulse
    {
      ClearRegs(re, reReg, clearPulse)
    }

    function Dac(): DacRegs
      reads `dacNew, `dacOld, `dacChange
    {
      DacRegs(dacNew, dacOld, dacChange)
    }

    function Start(): StartRegs
      reads `on1Last, `startup, `run
    {
      StartRegs(on1Last, startup, run)
    }

    function Regs(): State
      reads this
      requires |bits| == LATCHED
    {
      Registers(Tick(), Clear(), Dac(), Start(), bits, errMask)
    }

    constructor ()
      ensures |bits| == LATCHED && Regs() == POWER_UP
    {
      dff0, dff1, tenKhzPulse, re, reReg, clearPulse := false, false, false, false, false, false;
      dacNew, dacOld, dacChange, on1Last, startup, run := 0, 0, false, false, false, false;
      bits, errMask := seq(LATCHED, _ => CLEARED), false;
    }

    /** One bit of the mask word, of the latch as it was, and of the enables. */
    method MaskBit(k: nat, i: Input) returns (masked: bool)
      requires |bits| == LATCHED && k < LATCHED
      ensures masked == NextMask(k, i, bits[k])
    {
      MaskWord(k, i.mainDipole);
      masked := WordBit(if i.mainDipole then 0x1CEF else 0x1FEF, k) && bits[k].lat && i.enable[k];
    }

    /** The mask registers, bit by bit. */
    method MaskProcess(i: Input)
      requires |bits| == LATCHED
      modifies this`bits, this`errMask
      ensures errMask == ErrorMask(i, old(bits)[4])
      ensures bits == MaskedBits(old(bits), i)
    {
      errMask := bits[4].reg && i.enable[4];
      var k := 0;
      while k < LATCHED
        invariant 0 <= k <= LATCHED && |bits| == LATCHED
        invariant bits[..k] == MaskedBits(old(bits), i)[..k]
        invariant bits[k..] == old(bits)[k..]
        invariant errMask == ErrorMask(i, old(bits)[4])
      {
        assert bits[k] == bits[k..][0] == old(bits)[k];
        var masked := MaskBit(k, i);
        bits := bits[k := bits[k].(mask := masked)];
        k := k + 1;
      }
    }

    /** The latch loop: a fault is latched until the clear pulse. */
    method LatchFaults()
      requires |bits| == LATCHED
      modifies this`bits
      ensures bits == LatchedBits(old(bits), clearPulse)
    {
      var k := 0;
      while k < LATCHED
        invariant 0 <= k <= LATCHED && |bits| == LATCHED
        invariant bits[..k] == LatchedBits(old(bits), clearPulse)[..k]
        invariant bits[k..] == old(bits)[k..]
      {
        assert bits[k] == bits[k..][0] == old(bits)[k];
        if !clearPulse {
          if bits[k].reg {
            bits := bits[k := bits[k].(lat := true)];
          }
        } else {
          bits := bits[k := bits[k].(lat := false)];
        }
        k := k + 1;
      }
    }

    /** One debounce block of the main process. */
    method Debounce(k: nat, raw: bool, limit: u16) returns (b: Bit)
      requires |bits| == LATCHED && k < DEBOUNCED
      ensures b == Counted(k, bits[k], raw && !clearPulse, limit)
    {
      b := bits[k];
      if raw && !clearPulse {
        b := b.(live := true);
        if b.cnt == limit {
          b := b.(reg := true);
        } else {
          b := b.(cnt := Bump(k, b.cnt));
        }
      } else {
        b := b.(live := false, cnt := 0, reg := false);
      }
    }

    /** The error checks are skipped while parked or while the setpoint moves. */
    method ErrorChecks(i: Input) returns (b3: Bit, b4: Bit)
      requires |bits| == LATCHED
      ensures b3 == Debounced(3, i, bits[3], run, clearPulse, dacChange)
      ensures b4 == Debounced(4, i, bits[4], run, clearPulse, dacChange)
    {
      if !i.park && !dacChange {
        b3 := Debounce(3, Abs(i.psError) >= Abs(i.err1), i.limits[3]);
        b4 := Debounce(4, Abs(i.psError) >= Abs(i.err2), i.limits[4]);
      } else {
        b3, b4 := bits[3].(cnt := 0, reg := false), bits[4].(cnt := 0, reg := false);
      }
    }

    /** The threshold checks of a tick. */
    method AnalogChecks(i: Input) returns (b0: Bit, b1: Bit, b2: Bit, b3: Bit, b4: Bit, b5: Bit)
      requires |bits| == LATCHED
      ensures b0 == Debounced(0, i, bits[0], run, clearPulse, dacChange)
      ensures b1 == Debounced(1, i, bits[1], run, clearPulse, dacChange)
      ensures b2 == Debounced(2, i, bits[2], run, clearPulse, dacChange)
      ensures b3 == Debounced(3, i, bits[3], run, clearPulse, dacChange)
      ensures b4 == Debounced(4, i, bits[4], run, clearPulse, dacChange)
      ensures b5 == Debounced(5, i, bits[5], run, clearPulse, dacChange)
    {
      b0 := Debounce(0, Abs(i.dcct0) >= Abs(i.ovc1), i.limits[0]);
      b1 := Debounce(1, Abs(i.dcct1) >= Abs(i.ovc2), i.limits[1]);
      b2 := Debounce(2, Abs(i.voltage) >= Abs(i.ovv), i.limits[2]);
      b3, b4 := ErrorChecks(i);
      b5 := Debounce(5, Abs(i.ignd) >= Abs(i.igndThresh), i.limits[5]);
    }

    /** The digital checks of a tick. */
    method DigitalChecks(i: Input) returns (b6: Bit, b7: Bit, b8: Bit, b9: Bit, b10: Bit)
      requires |bits| == LATCHED
      ensures b6 == Debounced(6, i, bits[6], run, clearPulse, dacChange)
      ensures b7 == Debounced(7, i, bits[7], run, clearPulse, dacChange)
      ensures b8 == Debounced(8, i, bits[8], run, clearPulse, dacChange)
      ensures b9 == Debounced(9, i, bits[9], run, clearPulse, dacChange)
      ensures b10 == Debounced(10, i, bits[10], run, clearPulse, dacChange)
    {
      b6 := Debounce(6, !i.dcctFault, i.limits[6]);
      b8 := Debounce(8, i.rsts[2], i.limits[8]);
      b9 := Debounce(9, i.rsts[3], i.limits[9]);
      if !i.polarity || i.mainDipole {
        b7 := Debounce(7, i.rsts[1], i.limits[7]);
        b10 := Debounce(10, i.acOnOut && !i.rsts[0], i.limits[10]);
      } else {
        b7 := Debounce(7, !i.rsts[1] && i.on1 && run, i.limits[7]);
        b10 := Debounce(10, i.acOnOut && !i.rsts[1], i.limits[10]);
      }
    }

    /** All the checks of a tick. */
    method Checks(i: Input)
      requires |bits| == LATCHED
      modifies this`bits
      ensures bits == CheckedBits(old(bits), i, run, clearPulse, dacChange)
    {
      var b0, b1, b2, b3, b4, b5 := AnalogChecks(i);
      var b6, b7, b8, b9, b10 := DigitalChecks(i);
      Assembled(CheckedBits(bits, i, run, clearPulse, dacChange),
                b0, b1, b2, b3, b4, b5, b6, b7, b8, b9, b10, bits[11], bits[12]);
      bits := [b0, b1, b2, b3, b4, b5, b6, b7, b8, b9, b10, bits[11], bits[12]];
    }

    /** The startup and running states of a tick. */
    method StartupProcess(i: Input)
      requires !i.reset
      modifies this`startup, this`run, this`on1Last
      ensures Start() == NextStart(old(Start()), i, true)
    {
      var starting, started, stopping := !on1Last && i.on1, startup && i.rsts[1], run && !i.on1;
      on1Last := i.on1;
      if starting {
        startup := true;
      }
      if started {
        run := true;
        startup := false;
      }
      if stopping {
        run := false;
      }
    }

    /** The main process, after the masks. */
    method FaultProcess(i: Input)
      requires |bits| == LATCHED
      modifies this`bits, this`startup, this`run, this`on1Last
      ensures bits == FaultBits(old(bits), i, tenKhzPulse, old(run), clearPulse, dacChange)
      ensures Start() == NextStart(old(Start()), i, tenKhzPulse)
    {
      if i.reset {
        var b := bits;
        bits := seq(LATCHED, k requires 0 <= k < LATCHED && |b| == LATCHED =>
          Bit(if k <= 5 then 0 else b[k].cnt, false, false, false, b[k].mask));
        startup, run := false, false;
      } else {
        LatchFaults();
        if tenKhzPulse {
          Checks(i);
          StartupProcess(i);
        }
        bits := bits[12 := bits[12].(reg := i.evrFlt)];
      }
    }

    /** The setpoint registers and the flag that they differ. */
    method DacProcess(i: Input)
      modifies this`dacNew, this`dacOld, this`dacChange
      ensures Dac() == NextDac(old(Dac()), i)
    {
      dacChange := !i.reset && dacNew != dacOld;
      if i.reset {
        dacNew, dacOld := 0, 0;
      } else if i.tenkhz {
        dacNew, dacOld := i.dacSetpoint, dacNew;
      }
    }

    /** The clear pulse, from a rising edge of the clear bit to the next tick. */
    method ClearProcess(i: Input)
      modifies this`re, this`reReg, this`clearPulse
      ensures Clear() == NextClear(old(Clear()), i, tenKhzPulse)
    {
      if !reReg && re {
        clearPulse := true;
      } else if tenKhzPulse {
        clearPulse := false;
      }
      re, reReg := i.clear, re;
    }

    /** The 10 kHz trigger, three clocks late. */
    method TickProcess(i: Input)
      modifies this`dff0, this`dff1, this`tenKhzPulse
      ensures Tick() == NextTick(old(Tick()), i)
    {
      if i.reset {
        dff0, dff1, tenKhzPulse := false, false, false;
      } else {
        dff0, dff1, tenKhzPulse := i.tenkhz, dff0, dff1;
      }
    }

    /** The masks and the main process. */
    method FaultEdge(i: Input)
      requires |bits| == LATCHED
      modifies this`bits, this`startup, this`run, this`on1Last, this`errMask
      ensures bits == NextBits(old(Regs()), i)
      ensures errMask == ErrorMask(i, old(bits)[4])
      ensures Start() == NextStart(old(Start()), i, tenKhzPulse)
    {
      MaskProcess(i);
      FaultProcess(i);
    }

    /** The setpoint, the clear pulse and the trigger. */
    method SignalEdge(i: Input)
      modifies this`dacNew, this`dacOld, this`dacChange, this`re, this`reReg, this`clearPulse
      modifies this`dff0, this`dff1, this`tenKhzPulse
      ensures Tick() == NextTick(old(Tick()), i)
      ensures Clear() == NextClear(old(Clear()), i, old(tenKhzPulse))
      ensures Dac() == NextDac(old(Dac()), i)
    {
      DacProcess(i);
      ClearProcess(i);
      TickProcess(i);
    }

    /** One rising edge of the clock. */
    method Clock(i: Input)
      requires |bits| == LATCHED
      modifies this
      ensures |bits| == LATCHED
      ensures Regs() == Edge(old(Regs()), i)
    {
      FaultEdge(i);
      SignalEdge(i);
    }
  }
}
