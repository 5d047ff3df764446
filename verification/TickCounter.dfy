/** The operating system's 32-bit tick counter, as the rate limit and the heartbeat use it. */
module TickCounter {
  import opened Words

  const TICKS := 0x1_0000_0000

  function TickCount(time: nat): u32 {
    time % TICKS
  }

  /** Ticks from one reading of the 32-bit counter to another. */
  function Elapsed(since: u32, now: u32): u32 {
    (now - since) % TICKS
  }

  lemma ElapsedNeverLong(since: nat, now: nat)
    requires since <= now
    ensures Elapsed(TickCount(since), TickCount(now)) == (now - since) % TICKS <= now - since
  {
    assert (TickCount(now) - TickCount(since)) % TICKS == (now - since) % TICKS by {
      ModDifference(now, since);
    }
  }

  lemma ModDifference(a: nat, b: nat)
    ensures (a % TICKS - b % TICKS) % TICKS == (a - b) % TICKS
  {
    var qa, qb := a / TICKS, b / TICKS;
    assert a - b == (a % TICKS - b % TICKS) + TICKS * (qa - qb);
  }
}
