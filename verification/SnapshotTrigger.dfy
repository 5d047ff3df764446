/** The polled trigger machine that decides when a snapshot is sent, and the tick-counter
    rate limit that paces it. */
module SnapshotTrigger {
  import opened Words
  import opened TickCounter

  /** One trigger channel. `addr` follows the latched-address register while idle. */
  datatype Trigger = Trigger(addr: u32, addrLast: u32, pretrigpts: u32, posttrigpts: u32,
                             active: bool, postdlycnt: nat, sendbuf: bool, trigcnt: nat)

  /** Polls from activation to sending. */
  function Delay(t: Trigger): nat {
    t.posttrigpts / 1000
  }

  function Processed(t: Trigger): Trigger {
    var t := if t.addr != t.addrLast && !t.active
             then t.(active := true, addrLast := t.addr, postdlycnt := 0) else t;
    if !t.active then t
    else if t.postdlycnt < Delay(t) then t.(postdlycnt := t.postdlycnt + 1)
    else t.(sendbuf := true)
  }

  function Checked(t: Trigger, reg: u32): Trigger {
    Processed(if t.active then t else t.(addr := reg))
  }

  function Flushed(t: Trigger): Trigger {
    t.(sendbuf := false, active := false, trigcnt := t.trigcnt + 1)
  }

  /** One poll of a usr, flt, err or inj trigger: its new state, and the address sent if any. */
  function Polled(t: Trigger, reg: u32): (Trigger, Option<u32>) {
    var t := Checked(t, reg);
    if t.sendbuf then (Flushed(t), Some(t.addr)) else (t, None)
  }

  // ----- all runs of one trigger -----

  function After(t: Trigger, regs: seq<u32>): Trigger {
    if regs == [] then t else Polled(After(t, regs[..|regs| - 1]), regs[|regs| - 1]).0
  }

  /** What poll `i` sends. */
  function SentAt(t: Trigger, regs: seq<u32>, i: nat): Option<u32>
    requires i < |regs|
  {
    Polled(After(t, regs[..i]), regs[i]).1
  }

  /** Poll `i` finds the trigger idle and a new latched address. */
  predicate ActivatesAt(t: Trigger, regs: seq<u32>, i: nat)
    requires i < |regs|
  {
    !After(t, regs[..i]).active && regs[i] != After(t, regs[..i]).addrLast
  }

  predicate Idle(t: Trigger) {
    !t.active && !t.sendbuf
  }

  lemma AfterNext(t: Trigger, regs: seq<u32>, n: nat)
    requires n < |regs|
    ensures After(t, regs[..n + 1]) == Polled(After(t, regs[..n]), regs[n]).0
  {
    assert regs[..n + 1][..n] == regs[..n];
  }

  /** The four things a poll can do. */
  lemma PollCases(s: Trigger, reg: u32)
    requires !s.sendbuf
    ensures var (s', out) := Polled(s, reg);
            && !s'.sendbuf && s'.posttrigpts == s.posttrigpts
            && (s.active && s.postdlycnt < Delay(s) ==> s' == s.(postdlycnt := s.postdlycnt + 1) && out == None)
            && (s.active && s.postdlycnt >= Delay(s) ==> !s'.active && s'.addrLast == s.addrLast && out == Some(s.addr))
            && (!s.active && reg == s.addrLast ==> s' == s.(addr := reg) && out == None)
            && (!s.active && reg != s.addrLast ==>
                  && s'.addr == s'.addrLast == reg
                  && (s'.active <==> Delay(s) > 0)
                  && (s'.active ==> s'.postdlycnt == 1 && out == None)
                  && (!s'.active ==> out == Some(reg)))
  {
  }

  /** After `n` polls an active trigger was activated `postdlycnt` polls ago, and has kept that address. */
  predicate Traced(t: Trigger, regs: seq<u32>, n: nat)
    requires n <= |regs|
  {
    var s := After(t, regs[..n]);
    && !s.sendbuf && s.posttrigpts == t.posttrigpts
    && (s.active ==>
          && 1 <= s.postdlycnt <= Min(Delay(t), n)
          && ActivatesAt(t, regs, n - s.postdlycnt)
          && s.addr == s.addrLast == regs[n - s.postdlycnt])
  }

  lemma {:induction false} AlwaysTraced(t: Trigger, regs: seq<u32>, n: nat)
    requires Idle(t) && n <= |regs|
    ensures Traced(t, regs, n)
  {
    if n > 0 {
      AlwaysTraced(t, regs, n - 1);
      AfterNext(t, regs, n - 1);
      PollCases(After(t, regs[..n - 1]), regs[n - 1]);
    }
  }

  /** `d` polls after an activation the trigger is counting, with the address frozen. */
  lemma {:induction false} Counting(t: Trigger, regs: seq<u32>, i: nat, d: nat)
    requires Idle(t) && i + d < |regs| && ActivatesAt(t, regs, i) && d < Delay(t)
    ensures var s := After(t, regs[..i + d + 1]);
            s.active && s.postdlycnt == d + 1 && s.addr == regs[i] && SentAt(t, regs, i + d) == None
    decreases d
  {
    AlwaysTraced(t, regs, i + d);
    AfterNext(t, regs, i + d);
    if d > 0 {
      Counting(t, regs, i, d - 1);
    }
  }

  /** Conservation: the sends are exactly the activations, each `Delay` polls later and with
      the address that was latched. So every new address seen while idle is sent exactly
      once, and nothing else ever is. */
  lemma SendsAreActivations(t: Trigger, regs: seq<u32>, j: nat, a: u32)
    requires Idle(t) && j < |regs|
    ensures SentAt(t, regs, j) == Some(a) <==>
              j >= Delay(t) && ActivatesAt(t, regs, j - Delay(t)) && regs[j - Delay(t)] == a
  {
    AlwaysTraced(t, regs, j);
    var p := Delay(t);
    if j >= p && ActivatesAt(t, regs, j - p) {
      if p > 0 {
        Counting(t, regs, j - p, p - 1);
      }
    }
  }

  /** The waveforms that runs of the snapshot work have sent. */
  function SentBy(t: Trigger, regs: seq<u32>, n: nat): nat
    requires n <= |regs|
  {
    if n == 0 then 0 else SentBy(t, regs, n - 1) + if SentAt(t, regs, n - 1).Some? then 1 else 0
  }

  /** The trigger's statistics count them. */
  lemma {:induction false} SendsCounted(t: Trigger, regs: seq<u32>, n: nat)
    requires n <= |regs|
    ensures After(t, regs[..n]).trigcnt == t.trigcnt + SentBy(t, regs, n)
  {
    if n > 0 {
      SendsCounted(t, regs, n - 1);
      AfterNext(t, regs, n - 1);
    }
  }

  /** From its activation until its sending a trigger ignores every other latch. */
  lemma AddressFrozen(t: Trigger, regs: seq<u32>, i: nat, d: nat)
    requires Idle(t) && i + d + 1 < |regs| && ActivatesAt(t, regs, i) && d < Delay(t)
    ensures After(t, regs[..i + d + 1]).addr == regs[i] && !ActivatesAt(t, regs, i + d + 1)
  {
    Counting(t, regs, i, d);
  }

  // ----- the rate limit -----

  /** The true times, among calls of `pscdata_poll` at `times`, at which the snapshot work runs. */
  function RunTimes(last: nat, times: seq<nat>, fast: u32): seq<nat>
    decreases |times|
  {
    if times == [] then []
    else if Elapsed(TickCount(last), TickCount(times[0])) < fast then RunTimes(last, times[1..], fast)
    else [times[0]] + RunTimes(times[0], times[1..], fast)
  }

  predicate Ascending(last: nat, times: seq<nat>)
    decreases |times|
  {
    times == [] || (last <= times[0] && Ascending(times[0], times[1..]))
  }

  lemma {:induction false} AscendingFrom(last: nat, later: nat, times: seq<nat>)
    requires Ascending(later, times) && last <= later
    ensures Ascending(last, times)
  {
  }

  /** Runs are at least `fast` ticks apart, however often the counter wraps in between. */
  lemma {:induction false} RunsSpaced(last: nat, times: seq<nat>, fast: u32, j: nat)
    requires Ascending(last, times) && j < |RunTimes(last, times, fast)|
    ensures RunTimes(last, times, fast)[j] >= last + (j + 1) * fast
    decreases |times|
  {
    ElapsedNeverLong(last, times[0]);
    if Elapsed(TickCount(last), TickCount(times[0])) < fast {
      AscendingFrom(last, times[0], times[1..]);
      RunsSpaced(last, times[1..], fast, j);
    } else if j > 0 {
      RunsSpaced(times[0], times[1..], fast, j - 1);
    }
  }

  lemma {:induction false} RunsSpacedBetween(last: nat, times: seq<nat>, fast: u32, i: nat, j: nat)
    requires Ascending(last, times) && i <= j < |RunTimes(last, times, fast)|
    ensures RunTimes(last, times, fast)[j] - RunTimes(last, times, fast)[i] >= (j - i) * fast
    decreases |times|
  {
    if Elapsed(TickCount(last), TickCount(times[0])) < fast {
      AscendingFrom(last, times[0], times[1..]);
      RunsSpacedBetween(last, times[1..], fast, i, j);
    } else if i > 0 {
      RunsSpacedBetween(times[0], times[1..], fast, i - 1, j - 1);
    } else if j > 0 {
      RunsSpaced(times[0], times[1..], fast, j - 1);
    }
  }

  /** A waveform leaves at least `posttrigpts / 1000` rate-limit periods after its trigger was
      seen, so its post-trigger samples have had that long to be written. */
  lemma SendWaits(t: Trigger, regs: seq<u32>, last: nat, times: seq<nat>, fast: u32, j: nat)
    requires Idle(t) && Ascending(last, times)
    requires |regs| == |RunTimes(last, times, fast)| && j < |regs| && SentAt(t, regs, j).Some?
    ensures var i := j - Delay(t);
            && 0 <= i && ActivatesAt(t, regs, i)
            && RunTimes(last, times, fast)[j] - RunTimes(last, times, fast)[i] >= Delay(t) * fast
  {
    SendsAreActivations(t, regs, j, SentAt(t, regs, j).value);
    RunsSpacedBetween(last, times, fast, j - Delay(t), j);
  }

  // ----- the code -----

  /** The static counters of `pscdata_poll`. */
  class PscData {
    var lastFast: u32
    var lastSlow: u32

    constructor (now: u32)
      ensures lastFast == now && lastSlow == now
    {
      lastFast, lastSlow := now, now;
    }

    method Poll(now: u32, fastTicks: u32, slowTicks: u32) returns (fast: bool, slow: bool)
      modifies this
      ensures fast <==> Elapsed(old(lastFast), now) >= fastTicks
      ensures slow <==> fast && Elapsed(old(lastSlow), now) >= slowTicks
      ensures lastFast == (if fast then now else old(lastFast))
      ensures lastSlow == (if slow then now else old(lastSlow))
    {
      fast, slow := false, false;
      if Elapsed(lastFast, now) < fastTicks {
        return;
      }
      lastFast := now;
      fast := true;
      if Elapsed(lastSlow, now) >= slowTicks {
        lastSlow := now;
        slow := true;
      }
    }

    /** Polls at any true times, of which it sees the tick counter; what it returns is when the
        snapshot work ran. */
    method PollAll(times: seq<nat>, fastTicks: u32, slowTicks: u32, ghost last: nat) returns (runs: seq<nat>)
      requires lastFast == TickCount(last)
      modifies this
      ensures runs == RunTimes(last, times, fastTicks)
    {
      runs := [];
      ghost var ran := last;
      var n := 0;
      while n < |times|
        invariant 0 <= n <= |times| && lastFast == TickCount(ran)
        invariant runs + RunTimes(ran, times[n..], fastTicks) == RunTimes(last, times, fastTicks)
      {
        assert times[n..][0] == times[n] && times[n..][1..] == times[n + 1..];
        ghost var before := runs;
        var fast, slow := Poll(TickCount(times[n]), fastTicks, slowTicks);
        if fast {
          runs := runs + [times[n]];
          ran := times[n];
          assert before + ([times[n]] + RunTimes(ran, times[n + 1..], fastTicks))
                 == runs + RunTimes(ran, times[n + 1..], fastTicks);
        }
        n := n + 1;
      }
    }
  }

  const KINDS := 5   // usr, flt, err, inj, evr
  const SENT_KINDS := 4

  datatype Send = Send(k: nat, addr: u32)

  /** The triggers, four channels of a kind together, and the order in which the send loop visits them. */
  function Visit(m: nat): (k: nat)
    ensures m < 16 ==> k < 16
  {
    4 * (m % 4) + m / 4
  }

  /** What the send loop has sent after `m` visits. */
  function Sends(ts: seq<Trigger>, m: nat): seq<Send>
    requires m <= 16 <= |ts|
  {
    if m == 0 then []
    else
      var k := Visit(m - 1);
      Sends(ts, m - 1) + if ts[k].sendbuf then [Send(k, ts[k].addr)] else []
  }

  lemma {:induction false} SendsAre(ts: seq<Trigger>, m: nat, s: Send)
    requires m <= 16 <= |ts|
    ensures s in Sends(ts, m) <==>
              exists i :: 0 <= i < m && s.k == Visit(i) && ts[Visit(i)].sendbuf && s.addr == ts[Visit(i)].addr
  {
    if m > 0 {
      SendsAre(ts, m - 1, s);
    }
  }

  /** Channel 1's waveforms go first, and of one channel the user's, the fault's, the error's, and the
      injection's. */
  predicate Earlier(a: Send, b: Send) {
    a.k % 4 < b.k % 4 || (a.k % 4 == b.k % 4 && a.k / 4 < b.k / 4)
  }

  lemma VisitParts(i: nat)
    requires i < 16
    ensures Visit(i) % 4 == i / 4 && Visit(i) / 4 == i % 4
  {
    var q, r := i / 4, i % 4;
    assert i == 4 * q + r && Visit(i) == 4 * r + q;
  }

  lemma VisitsInOrder(a: Send, b: Send, i: nat, j: nat)
    requires i < j < 16 && a.k == Visit(i) && b.k == Visit(j)
    ensures Earlier(a, b)
  {
    VisitParts(i);
    VisitParts(j);
  }

  lemma {:induction false} SendsInOrder(ts: seq<Trigger>, m: nat)
    requires m <= 16 <= |ts|
    ensures forall i, j :: 0 <= i < j < |Sends(ts, m)| ==> Earlier(Sends(ts, m)[i], Sends(ts, m)[j])
  {
    if m > 0 {
      SendsInOrder(ts, m - 1);
      var before, k := Sends(ts, m - 1), Visit(m - 1);
      forall i | 0 <= i < |before| ensures Earlier(before[i], Send(k, ts[k].addr)) {
        SendsAre(ts, m - 1, before[i]);
        var v :| 0 <= v < m - 1 && before[i].k == Visit(v);
        VisitsInOrder(before[i], Send(k, ts[k].addr), v, m - 1);
      }
    }
  }

  class Snapshots {
    var trig: array<Trigger>

    predicate Valid()
      reads this
    {
      trig.Length == 4 * KINDS
    }

    constructor ()
      ensures Valid() && fresh(trig)
      ensures forall k :: 0 <= k < trig.Length ==>
                trig[k] == Trigger(0, 0, if k / 4 == 3 then 0 else 50000, if k / 4 == 3 then 8000 else 50000,
                                   false, 0, false, 0)
    {
      trig := new Trigger[4 * KINDS](k =>
        Trigger(0, 0, if k / 4 == 3 then 0 else 50000, if k / 4 == 3 then 8000 else 50000, false, 0, false, 0));
    }

    method ProcessTrigger(k: nat)
      requires Valid() && k < trig.Length
      modifies trig
      ensures trig[..] == old(trig[..])[k := Processed(old(trig[k]))]
    {
      if trig[k].addr != trig[k].addrLast && !trig[k].active {
        trig[k] := trig[k].(active := true, addrLast := trig[k].addr, postdlycnt := 0);
      }
      if trig[k].active {
        if trig[k].postdlycnt < trig[k].posttrigpts / 1000 {
          trig[k] := trig[k].(postdlycnt := trig[k].postdlycnt + 1);
        } else {
          trig[k] := trig[k].(sendbuf := true);
        }
      }
    }

    /** `regs` are the 16 latched-address registers, and the one the four evr triggers share. */
    method CheckForTriggers(regs: seq<u32>)
      requires Valid() && |regs| == 17
      modifies trig
      ensures forall k :: 0 <= k < trig.Length ==> trig[k] == Checked(old(trig[k]), regs[Min(k, 16)])
    {
      var k := 0;
      while k < trig.Length
        invariant 0 <= k <= trig.Length
        invariant forall i :: 0 <= i < k ==> trig[i] == Checked(old(trig[i]), regs[Min(i, 16)])
        invariant forall i :: k <= i < trig.Length ==> trig[i] == old(trig[i])
      {
        ghost var before := trig[..];
        if !trig[k].active {
          trig[k] := trig[k].(addr := regs[Min(k, 16)]);
        }
        ghost var mid := trig[..];
        ProcessTrigger(k);
        assert forall i :: 0 <= i < trig.Length && i != k ==> trig[..][i] == before[i];
        assert trig[..][k] == Processed(mid[k]);
        k := k + 1;
      }
    }

    method SendWfmData(k: nat) returns (s: Send)
      requires Valid() && k < trig.Length
      modifies trig
      ensures trig[..] == old(trig[..])[k := Flushed(old(trig[k]))]
      ensures s == Send(k, old(trig[k]).addr)
    {
      trig[k] := trig[k].(sendbuf := false, active := false);
      s := Send(k, trig[k].addr);
      trig[k] := trig[k].(trigcnt := trig[k].trigcnt + 1);
    }

    /** The send loop. */
    method SendReady() returns (sends: seq<Send>)
      requires Valid()
      modifies trig
      ensures sends == Sends(old(trig[..]), 16)
      ensures forall m :: 0 <= m < 16 ==>
                var t := old(trig[..])[Visit(m)]; trig[Visit(m)] == if t.sendbuf then Flushed(t) else t
    {
      ghost var ts := trig[..];
      sends := [];
      var m := 0;
      while m < 16
        invariant 0 <= m <= 16
        invariant sends == Sends(ts, m)
        invariant forall i :: 0 <= i < m ==>
                    trig[Visit(i)] == if ts[Visit(i)].sendbuf then Flushed(ts[Visit(i)]) else ts[Visit(i)]
        invariant forall i :: m <= i < 16 ==> trig[Visit(i)] == ts[Visit(i)]
      {
        var k := Visit(m);
        ghost var before := trig[..];
        if trig[k].sendbuf {
          var s := SendWfmData(k);
          sends := sends + [s];
        }
        assert forall i :: 0 <= i < 16 && i != m ==> trig[..][Visit(i)] == before[Visit(i)];
        m := m + 1;
      }
    }

    /** One pass: every usr, flt, err and inj trigger makes exactly the poll `Polled` describes. */
    method SnapshotProcess(regs: seq<u32>) returns (sends: seq<Send>)
      requires Valid() && |regs| == 17
      modifies trig
      ensures forall k :: 0 <= k < 16 ==> trig[k] == Polled(old(trig[k]), regs[k]).0
      ensures forall k, a: u32 :: 0 <= k < 16 ==> (Send(k, a) in sends <==> Polled(old(trig[k]), regs[k]).1 == Some(a))
    {
      CheckForTriggers(regs);
      ghost var ts := trig[..];
      sends := SendReady();
      forall k | 0 <= k < 16
        ensures Visit(4 * (k % 4) + k / 4) == k
        ensures trig[k] == Polled(old(trig[k]), regs[k]).0
      {
        assert ts[k] == Checked(old(trig[k]), regs[k]);
      }
      forall k, a: u32 | 0 <= k < 16
        ensures Send(k, a) in sends <==> Polled(old(trig[k]), regs[k]).1 == Some(a)
      {
        SendsAre(ts, 16, Send(k, a));
        assert Visit(4 * (k % 4) + k / 4) == k;
      }
    }
  }
}
