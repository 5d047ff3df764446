/** The trigger machine, the sample clock and the ring together: how much of its window a
    snapshot finds written when it leaves, in the worst case over all schedules of polls, and
    what it sends. The polls wait for their number in rate-limit periods, not for the samples. */
module SnapshotSend {
  import opened Words
  import opened TickCounter
  import opened SnapshotTrigger
  import SampleClock
  import SnapshotRing

  /** The rate-limit period in ticks, the step of the sample clock, and the clocks of a tick. */
  datatype Setup = Setup(fast: u32, step: u32, clocksPerTick: nat)

  type Rates = c: Setup | c.fast > 0 && c.step <= SampleClock.HALF && c.clocksPerTick > 0
    witness Setup(1, 0, 1)

  /** 100 ms at a tick each millisecond; and 9961.7 Hz, from a clock of 100 MHz. */
  const SOURCE: Rates := Setup(100, 427853, 100_000)

  /** A trigger and what its register shows at each run of the snapshot work; the ticks of the
      last run before and of the polls; and the clock of each run. The sample clock's accumulator
      is at `acc`, and `first` records are written, at clock 0. */
  datatype Schedule = Schedule(t: Trigger, regs: seq<u32>, last: nat, times: seq<nat>, clocks: seq<nat>,
                               acc: u32, first: nat)

  function RunTicks(s: Schedule, c: Rates): seq<nat> {
    RunTimes(s.last, s.times, c.fast)
  }

  /** Each run is at some clock of the tick that the rate limit sees. */
  ghost predicate Possible(s: Schedule, c: Rates) {
    && Idle(s.t) && Ascending(s.last, s.times)
    && |s.regs| == |s.clocks| == |RunTicks(s, c)|
    && forall k :: 0 <= k < |s.clocks| ==> s.clocks[k] / c.clocksPerTick == RunTicks(s, c)[k]
  }

  /** The records written by run `k`. */
  function Written(s: Schedule, c: Rates, k: nat): nat
    requires k < |s.clocks|
  {
    s.first + SampleClock.Pulses(SampleClock.Flowing(s.acc, c.step, false), c.step, s.clocks[k])
  }

  function Address(rec: nat): u32 {
    SnapshotRing.BASE + SnapshotRing.STEP_BYTES * (rec % SnapshotRing.SLOTS)
  }

  /** Run `j` sends a snapshot for record `rec`, which was there when the trigger was seen. */
  ghost predicate Sends(s: Schedule, c: Rates, j: nat, rec: nat) {
    && Possible(s, c) && j < |s.regs|
    && SentAt(s.t, s.regs, j) == Some(Address(rec))
    && j >= Delay(s.t) && rec < Written(s, c, j - Delay(s.t))
  }

  // ----- the worst case -----

  /** The fewest clocks that `delay` periods of the rate limit can take: the first run may be
      at the end of its tick, and the last at the beginning of its. */
  function LeastClocks(delay: nat, c: Rates): int {
    if delay == 0 then 0 else (delay * c.fast - 1) * c.clocksPerTick + 1
  }

  lemma LeastIs(delay: nat, c: Rates)
    ensures LeastClocks(delay, c) >= 0
  {
    if delay > 0 {
      assert delay * c.fast >= 1;
    }
  }

  /** The records from the latched one on that are sure to be there: that one, and those that
      come meanwhile. */
  function Sure(post: nat, c: Rates): int {
    1 + LeastClocks(post / 1000, c) * c.step / SampleClock.FULL
  }

  lemma ClocksApart(from: nat, to: nat, c: Rates, delay: nat)
    requires to / c.clocksPerTick >= from / c.clocksPerTick + delay * c.fast && delay > 0
    ensures to >= from + LeastClocks(delay, c)
  {
    var m := c.clocksPerTick;
    var a, b := from / m, to / m;
    assert from < (a + 1) * m && b * m <= to;
    assert (a + 1) * m + (delay * c.fast - 1) * m == (a + delay * c.fast) * m <= b * m;
  }

  lemma Slower(clocks: nat, clocks': nat, step: u32)
    requires clocks <= clocks'
    ensures clocks * step / SampleClock.FULL <= clocks' * step / SampleClock.FULL
  {
    assert clocks * step <= clocks' * step;
  }

  /** Of every snapshot, on every schedule of polls, that many records are written. */
  lemma WindowWritten(s: Schedule, c: Rates, j: nat, rec: nat)
    requires Sends(s, c, j, rec)
    ensures Written(s, c, j) >= rec + Sure(s.t.posttrigpts, c)
  {
    var i := j - Delay(s.t);
    if i < j {
      SendWaits(s.t, s.regs, s.last, s.times, c.fast, j);
      ClocksApart(s.clocks[i], s.clocks[j], c, j - i);
      LeastIs(j - i, c);
      SampleClock.PulsesBetween(s.acc, c.step, s.clocks[i], s.clocks[j]);
      Slower(LeastClocks(j - i, c), s.clocks[j] - s.clocks[i], c.step);
    }
  }

  // ----- which is reached -----

  /** Polls exactly one period apart. */
  function Steady(last: nat, n: nat, fast: nat): (times: seq<nat>)
    ensures |times| == n
  {
    seq(n, k requires 0 <= k < n => last + (k + 1) * fast)
  }

  lemma SteadyTail(last: nat, n: nat, fast: nat)
    requires n > 0
    ensures Steady(last, n, fast) == [last + fast] + Steady(last + fast, n - 1, fast)
  {
    var times, rest := Steady(last, n, fast), Steady(last + fast, n - 1, fast);
    forall k | 1 <= k < n ensures times[k] == rest[k - 1] {
      assert (k + 1) * fast == fast + k * fast;
    }
  }

  lemma {:induction false} SteadyRuns(last: nat, n: nat, fast: u32)
    ensures Ascending(last, Steady(last, n, fast))
    ensures RunTimes(last, Steady(last, n, fast), fast) == Steady(last, n, fast)
    decreases n
  {
    if n > 0 {
      var next := last + fast;
      var rest := Steady(next, n - 1, fast);
      SteadyRuns(next, n - 1, fast);
      SteadyTail(last, n, fast);
      ElapsedNeverLong(last, next);
      assert ([next] + rest)[1..] == rest;
    }
  }

  /** The first run is at the end of its tick, the others are at the beginning of theirs. */
  function ClockOf(tick: nat, k: nat, n: nat, m: nat): nat
    requires m > 0
  {
    tick * m + if k == 0 && n > 1 then m - 1 else 0
  }

  lemma Multiple(a: int, m: int)
    requires m >= 0
    ensures a >= 1 ==> a * m >= m
    ensures a <= -1 ==> a * m <= -m
  {
  }

  lemma ClockInTick(tick: nat, within: nat, m: nat)
    requires within < m
    ensures (tick * m + within) / m == tick
  {
    var clock := tick * m + within;
    var q, rest := clock / m, clock % m;
    assert (q - tick) * m == within - rest;
    Multiple(q - tick, m);
  }

  /** The accumulator for which a pulse has just come at a clock. */
  function JustPulsed(clock: nat, step: u32): u32 {
    (SampleClock.HALF - clock * step) % SampleClock.FULL
  }

  lemma PulsedIs(span: int)
    ensures (SampleClock.Phase((SampleClock.HALF - span) % SampleClock.FULL) + span) % SampleClock.FULL == 0
  {
  }

  function WorstSchedule(t: Trigger, c: Rates, rec: nat, first: nat): (s: Schedule)
    ensures |s.regs| == |s.clocks| == |s.times| == Delay(t) + 1
  {
    var n := Delay(t) + 1;
    var times := Steady(0, n, c.fast);
    Schedule(t, seq(n, _ => Address(rec)), 0, times,
             seq(n, k requires 0 <= k < n => ClockOf(times[k], k, n, c.clocksPerTick)),
             JustPulsed(ClockOf(c.fast, 0, n, c.clocksPerTick), c.step), first)
  }

  lemma WorstPossible(t: Trigger, c: Rates, rec: nat, first: nat)
    requires Idle(t)
    ensures Possible(WorstSchedule(t, c, rec, first), c)
  {
    var s, n := WorstSchedule(t, c, rec, first), Delay(t) + 1;
    SteadyRuns(0, n, c.fast);
    forall k | 0 <= k < n ensures s.clocks[k] / c.clocksPerTick == s.times[k] {
      ClockInTick(s.times[k], if k == 0 && n > 1 then c.clocksPerTick - 1 else 0, c.clocksPerTick);
    }
  }

  lemma WorstSpan(j: nat, c: Rates)
    ensures var m := c.clocksPerTick;
            ClockOf((j + 1) * c.fast, j, j + 1, m) == ClockOf(c.fast, 0, j + 1, m) + LeastClocks(j, c)
  {
    var f, m := c.fast, c.clocksPerTick;
    assert ((j + 1) * f) * m == (j * f) * m + f * m;
    assert (j * f - 1) * m == (j * f) * m - m;
  }

  /** For any trigger, setup and past, a schedule on which no more than those records are written. */
  lemma WorstCase(pre: u32, post: u32, c: Rates, first: nat) returns (s: Schedule, j: nat, rec: nat)
    requires first > 0
    ensures Sends(s, c, j, rec) && s.t.pretrigpts == pre && s.t.posttrigpts == post && rec + 1 >= first
    ensures Written(s, c, j) == rec + Sure(post, c)
  {
    var t := Trigger(0, 0, pre, post, false, 0, false, 0);
    j := Delay(t);
    s := WorstSchedule(t, c, 0, first);
    rec := Written(s, c, 0) - 1;
    s := WorstSchedule(t, c, rec, first);
    WorstPossible(t, c, rec, first);
    assert s.regs[..0] == [];
    assert ActivatesAt(t, s.regs, 0);
    SendsAreActivations(t, s.regs, j, Address(rec));
    WorstSpan(j, c);
    PulsedIs(s.clocks[0] * c.step);
    LeastIs(j, c);
    SpanFromPulse(s.acc, c.step, s.clocks[0], s.clocks[j]);
  }

  /** What comes between two clocks when a pulse has just come at the first. */
  lemma SpanFromPulse(acc: u32, step: u32, from: nat, to: nat)
    requires step <= SampleClock.HALF && from <= to && (SampleClock.Phase(acc) + from * step) % SampleClock.FULL == 0
    ensures var n := SampleClock.Flowing(acc, step, false);
            SampleClock.Pulses(n, step, to) == SampleClock.Pulses(n, step, from) + (to - from) * step / SampleClock.FULL
  {
    SampleClock.PulsesAre(acc, step, false, from);
    SampleClock.PulsesAre(acc, step, false, to);
    assert to * step == from * step + (to - from) * step;
  }

  /** Exactly the triggers and setups for which every schedule finds the window written. */
  lemma LateEnough(post: u32, c: Rates)
    ensures (forall s, j: nat, rec: nat ::
               Sends(s, c, j, rec) && s.t.posttrigpts == post ==> rec + post <= Written(s, c, j))
            <==> post <= Sure(post, c)
  {
    if post <= Sure(post, c) {
      forall s, j: nat, rec: nat | Sends(s, c, j, rec) && s.t.posttrigpts == post
        ensures rec + post <= Written(s, c, j)
      {
        WindowWritten(s, c, j, rec);
      }
    } else {
      var s, j, rec := WorstCase(0, post, c, 1);
    }
  }

  // ----- the source's constants -----

  const LONG := 50000 // after usr, flt and err triggers,
  const SHORT := 8000 // and after inj triggers

  /** At 9961.7 Hz 100 ms are too short for either window, and 101 ms are the first period that
      is long enough. */
  lemma PeriodNeeded(fast: u32)
    requires fast > 0
    ensures var c := SOURCE.(fast := fast);
            && (LONG <= Sure(LONG, c) <==> fast >= 101)
            && (SHORT <= Sure(SHORT, c) <==> fast >= 101)
  {
    var c := SOURCE.(fast := fast);
    assert LeastClocks(50, c) == 5_000_000 * fast - 99_999;
    assert LeastClocks(8, c) == 800_000 * fast - 99_999;
  }

  /** On some schedule the last 201 records of a long window, and the last 40 of a short one,
      are not there yet. */
  lemma SourceTooEarly(first: nat) returns (s: Schedule, j: nat, rec: nat, s': Schedule, j': nat, rec': nat)
    requires first > 0
    ensures Sends(s, SOURCE, j, rec) && s.t.posttrigpts == s.t.pretrigpts == LONG && rec + 1 >= first
    ensures rec + LONG == Written(s, SOURCE, j) + 201
    ensures Sends(s', SOURCE, j', rec') && s'.t.posttrigpts == SHORT && s'.t.pretrigpts == 0 && rec' + 1 >= first
    ensures rec' + SHORT == Written(s', SOURCE, j') + 40
  {
    s, j, rec := WorstCase(LONG, LONG, SOURCE, first);
    s', j', rec' := WorstCase(0, SHORT, SOURCE, first);
  }

  // ----- what is sent -----

  /** Row by row, the record that the message shows: the window's own if it is written and not
      yet overwritten; if it is not written, the one that was in its slot a lap before. */
  ghost predicate ShowsWindow(msg: seq<real>, log: seq<SnapshotRing.Record>, rec: nat, pre: nat, post: nat, chan: nat,
                              cal: SnapshotRing.Calibration)
    requires 1 <= chan <= 4 && SnapshotRing.COLUMNS * (pre + post) <= |msg| && pre <= rec
  {
    forall k :: 0 <= k < pre + post ==>
      var r, n := rec - pre + k, |log|;
      && (n - SnapshotRing.SLOTS <= r < n ==> SnapshotRing.Row(msg, k) == SnapshotRing.Cells(log[r], chan, cal))
      && (n <= r < n + SnapshotRing.SLOTS && r >= SnapshotRing.SLOTS ==>
            SnapshotRing.Row(msg, k) == SnapshotRing.Cells(log[r - SnapshotRing.SLOTS], chan, cal))
  }

  lemma RowShows(msg: seq<real>, mem: seq<u32>, log: seq<SnapshotRing.Record>, rec: nat, pre: nat, post: nat,
                 chan: nat, cal: SnapshotRing.Calibration, k: nat, r: nat)
    requires 1 <= chan <= 4 && SnapshotRing.Holds(mem, log) && SnapshotRing.COLUMNS * (pre + post) <= |msg|
    requires SnapshotRing.Linearised(msg, mem, rec % SnapshotRing.SLOTS, pre, post, chan, cal)
    requires pre <= rec && k < pre + post && |log| - SnapshotRing.SLOTS <= r < |log|
    requires (rec - pre + k) % SnapshotRing.SLOTS == r % SnapshotRing.SLOTS
    ensures SnapshotRing.Row(msg, k) == SnapshotRing.Cells(log[r], chan, cal)
  {
    SnapshotRing.LatestIs(|log|, r);
    SnapshotRing.SnapshotShowsLatest(msg, mem, log, rec, pre, post, chan, cal, k);
  }

  lemma WindowShows(msg: seq<real>, mem: seq<u32>, log: seq<SnapshotRing.Record>, rec: nat, pre: nat, post: nat,
                    chan: nat, cal: SnapshotRing.Calibration)
    requires 1 <= chan <= 4 && SnapshotRing.Holds(mem, log) && SnapshotRing.COLUMNS * (pre + post) <= |msg|
    requires SnapshotRing.Linearised(msg, mem, rec % SnapshotRing.SLOTS, pre, post, chan, cal) && pre <= rec
    ensures ShowsWindow(msg, log, rec, pre, post, chan, cal)
  {
    forall k | 0 <= k < pre + post
      ensures var r, n := rec - pre + k, |log|;
              && (n - SnapshotRing.SLOTS <= r < n ==> SnapshotRing.Row(msg, k) == SnapshotRing.Cells(log[r], chan, cal))
              && (n <= r < n + SnapshotRing.SLOTS && r >= SnapshotRing.SLOTS ==>
                    SnapshotRing.Row(msg, k) == SnapshotRing.Cells(log[r - SnapshotRing.SLOTS], chan, cal))
    {
      var r, n := rec - pre + k, |log|;
      if n - SnapshotRing.SLOTS <= r < n {
        RowShows(msg, mem, log, rec, pre, post, chan, cal, k, r);
      } else if n <= r < n + SnapshotRing.SLOTS && r >= SnapshotRing.SLOTS {
        RowShows(msg, mem, log, rec, pre, post, chan, cal, k, r - SnapshotRing.SLOTS);
      }
    }
  }

  /** The message that run `j` sends. Its window is whole if the constants are enough for every
      schedule, or this one was late enough, and the ring has not come round to it. */
  method SendWindow(ring: SnapshotRing.RingWriter, msg: array<real>, chan: nat, cal: SnapshotRing.Calibration,
                    addr: u32, pre: u32, post: u32, ghost s: Schedule, ghost c: Rates, ghost j: nat, ghost rec: nat)
    requires Sends(s, c, j, rec) && SentAt(s.t, s.regs, j) == Some(addr)
    requires s.t.pretrigpts == pre && s.t.posttrigpts == post && pre <= rec
    requires ring.Valid() && |ring.log| == Written(s, c, j) && 1 <= chan <= 4
    requires pre + post <= SnapshotRing.SLOTS && SnapshotRing.COLUMNS * (pre + post) <= msg.Length
    modifies msg
    ensures ShowsWindow(msg[..], ring.log, rec, pre, post, chan, cal)
    ensures (post <= Sure(post, c) || rec + post <= |ring.log|) && |ring.log| <= rec - pre + SnapshotRing.SLOTS ==>
              forall k :: 0 <= k < pre + post ==>
                rec - pre + k < |ring.log|
                && SnapshotRing.Row(msg[..], k) == SnapshotRing.Cells(ring.log[rec - pre + k], chan, cal)
  {
    SnapshotRing.ReadDMABuf(msg, ring.mem[..], addr, pre, post, chan, cal, rec % SnapshotRing.SLOTS);
    WindowShows(msg[..], ring.mem[..], ring.log, rec, pre, post, chan, cal);
    WindowWritten(s, c, j, rec);
  }
}
