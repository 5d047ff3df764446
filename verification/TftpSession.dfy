/** Facts about one TFTP session under any packets, from anyone, and any timer expiries:
    how long a silent peer is kept, and what a read session transmits. */
module TftpSession {
  import opened Words
  import opened TftpServer

  // ----- timers -----

  /** Holds from `tftp_init` on. */
  predicate Consistent(s: State) {
    && s.lastPkt <= s.timer
    && s.retries <= MAX_RETRIES
    && (s.handle.Some? ==> s.armed >= 1)
    && (s.handle.None? ==> s.lastData.None? && s.addr == ANY && s.port == 0)
  }

  lemma StepConsistent(s: State, ev: Event)
    requires Consistent(s)
    ensures Consistent(Step(s, ev).0)
  {
  }

  /** An open session always has a timer armed, so a silent peer cannot hold the server. */
  lemma {:induction false} RunConsistent(s: State, evs: seq<Event>)
    requires Consistent(s)
    ensures Consistent(Run(s, evs).0)
    decreases |evs|
  {
    if evs != [] {
      StepConsistent(s, evs[0]);
      RunConsistent(Step(s, evs[0]).0, evs[1..]);
    }
  }

  /** Expiries before the session is called late. */
  function Grace(s: State): nat {
    Max(TIMEOUT_TICKS - (s.timer - s.lastPkt), 0)
  }

  function ResendsLeft(s: State): int {
    if s.lastData.Some? then MAX_RETRIES - s.retries else 0
  }

  /** Expiries that close the session if its peer says nothing more. */
  function Patience(s: State): int {
    Grace(s) + ResendsLeft(s) + 1
  }

  /** Not a word from the peer of session `s`: a timer expiry, or somebody else's packet. */
  predicate Silent(s: State, ev: Event) {
    ev.Tick? || Stranger(s, ev.from)
  }

  predicate AllSilent(s: State, evs: seq<Event>) {
    forall i :: 0 <= i < |evs| ==> Silent(s, evs[i])
  }

  function Ticks(evs: seq<Event>): nat {
    if evs == [] then 0 else (if evs[0].Tick? then 1 else 0) + Ticks(evs[1..])
  }

  /** What goes out to one peer. */
  function SentTo(out: seq<Sent>, p: Peer): seq<Packet> {
    if out == [] then []
    else (if out[0].to == p then [out[0].pkt] else []) + SentTo(out[1..], p)
  }

  lemma {:induction false} SentToAppend(a: seq<Sent>, b: seq<Sent>, p: Peer)
    ensures SentTo(a + b, p) == SentTo(a, p) + SentTo(b, p)
  {
    if a == [] {
      assert a + b == b;
    } else {
      assert (a + b)[1..] == a[1..] + b;
      SentToAppend(a[1..], b, p);
    }
  }

  function SessionPeer(s: State): Peer {
    Peer(s.addr, s.port)
  }

  /** While the peer is silent the session only ages: each expiry uses up one unit of its
      patience, and all the peer is sent is the held packet, at most once per late expiry. */
  lemma {:induction false} SilentRun(s: State, evs: seq<Event>)
    requires Consistent(s) && s.handle.Some? && AllSilent(s, evs)
    requires Ticks(evs) < Patience(s)
    ensures var (s', out) := Run(s, evs);
            && Consistent(s')
            && s' == s.(timer := s'.timer, retries := s'.retries, armed := s'.armed)
            && Patience(s') == Patience(s) - Ticks(evs)
            && |SentTo(out, SessionPeer(s))| + ResendsLeft(s') <= ResendsLeft(s)
            && (forall p :: p in SentTo(out, SessionPeer(s)) ==> Some(p) == s.lastData)
    decreases |evs|
  {
    if evs != [] {
      var (s1, out1) := Step(s, evs[0]);
      StepConsistent(s, evs[0]);
      assert Silent(s, evs[0]);
      assert |SentTo(out1, SessionPeer(s))| + ResendsLeft(s1) <= ResendsLeft(s);
      assert forall i :: 0 <= i < |evs[1..]| ==> Silent(s1, evs[1..][i]) by {
        forall i | 0 <= i < |evs[1..]| ensures Silent(s1, evs[1..][i]) {
          assert Silent(s, evs[i + 1]);
        }
      }
      SilentRun(s1, evs[1..]);
      SentToAppend(out1, Run(s1, evs[1..]).1, SessionPeer(s));
    }
  }

  lemma {:induction false} RunAppend(s: State, a: seq<Event>, b: seq<Event>)
    ensures Run(s, a + b) == (var (s1, o1) := Run(s, a); var (s2, o2) := Run(s1, b); (s2, o1 + o2))
    decreases |a|
  {
    if a == [] {
      assert a + b == b;
      assert [] + Run(s, b).1 == Run(s, b).1;
    } else {
      var (s0, o0) := Step(s, a[0]);
      assert (a + b)[1..] == a[1..] + b;
      RunAppend(s0, a[1..], b);
      var (s1, o1) := Run(s0, a[1..]);
      var (s2, o2) := Run(s1, b);
      assert o0 + (o1 + o2) == (o0 + o1) + o2;
    }
  }

  /** Termination, from any open session: the expiry that uses up the last of its patience
      closes it, and none before; what its peer is sent meanwhile are resends of the held packet,
      no more than are left. Packets from others in between change nothing. */
  lemma PatienceRunsOut(s: State, evs: seq<Event>, e: Env)
    requires Consistent(s) && s.handle.Some? && AllSilent(s, evs) && Ticks(evs) + 1 == Patience(s)
    ensures var (last, out) := Run(s, evs + [Tick(e)]);
            && Run(s, evs).0.handle.Some?
            && last.handle.None?
            && |SentTo(out, SessionPeer(s))| <= ResendsLeft(s)
            && (forall p :: p in SentTo(out, SessionPeer(s)) ==> Some(p) == s.lastData)
  {
    SilentRun(s, evs);
    RunAppend(s, evs, [Tick(e)]);
    var s1 := Run(s, evs).0;
    var (s2, o2) := Ticked(s1, e);
    assert Run(s1, [Tick(e)]) == (s2, o2 + []) by { assert [Tick(e)][1..] == []; }
    assert o2 + [] == [];
    assert Run(s, evs).1 + [] == Run(s, evs).1;
  }

  /** So after the last packet of the session's peer, the opening request included, 16 expiries
      close an open session when a packet is held for resending and 11 when none is; never
      earlier, and with at most 5 resends, all of the held packet. */
  lemma SilentPeerIsDropped(s0: State, from: Peer, pkt: Packet, e0: Env, evs: seq<Event>, e: Env)
    requires Consistent(s0) && !Stranger(s0, from)
    requires var s := Received(s0, from, pkt, e0).0;
             && s.handle.Some? && SessionPeer(s) == from
             && AllSilent(s, evs)
             && Ticks(evs) + 1 == if s.lastData.Some? then 16 else 11
    ensures var s := Received(s0, from, pkt, e0).0;
            var (last, out) := Run(s, evs + [Tick(e)]);
            && Run(s, evs).0.handle.Some?
            && last.handle.None?
            && |SentTo(out, from)| <= (if s.lastData.Some? then MAX_RETRIES else 0)
            && (forall p :: p in SentTo(out, from) ==> Some(p) == s.lastData)
  {
    var s := Received(s0, from, pkt, e0).0;
    StepConsistent(s0, Packet(from, pkt, e0));
    assert s.lastPkt == s.timer && s.retries == 0;
    PatienceRunsOut(s, evs, e);
  }

  // ----- how many timers -----

  /** Opening a session arms one timer more. */
  lemma OpeningArms(s: State, ev: Event)
    requires Consistent(s) && s.handle.None? && Step(s, ev).0.handle.Some?
    ensures Step(s, ev).0.armed == s.armed + 1
  {
  }

  lemma StepKeepsArmed(s: State, ev: Event)
    requires Consistent(s) && s.handle.Some? && Step(s, ev).0.handle.Some?
    ensures Step(s, ev).0.armed == s.armed
  {
  }

  /** The session stays open through every event. */
  predicate StaysOpen(s: State, evs: seq<Event>)
    decreases |evs|
  {
    s.handle.Some? && (evs != [] ==> StaysOpen(Step(s, evs[0]).0, evs[1..]))
  }

  lemma {:induction false} ArmedConstant(s: State, evs: seq<Event>)
    requires Consistent(s) && StaysOpen(s, evs)
    ensures Run(s, evs).0.armed == s.armed
    decreases |evs|
  {
    if evs != [] {
      StepConsistent(s, evs[0]);
      StepKeepsArmed(s, evs[0]);
      ArmedConstant(Step(s, evs[0]).0, evs[1..]);
    }
  }

  /** An open session has exactly one timer, throughout, if and only if none was left over when
      it opened. */
  lemma OneTimer(s0: State, open: Event, evs: seq<Event>)
    requires Consistent(s0) && s0.handle.None? && StaysOpen(Step(s0, open).0, evs)
    ensures Run(Step(s0, open).0, evs).0.armed == 1 <==> s0.armed == 0
  {
    OpeningArms(s0, open);
    StepConsistent(s0, open);
    ArmedConstant(Step(s0, open).0, evs);
  }

  /** A request that fails to open, with a name that does not parse or a file that is not there,
      leaves its timer behind, and the next session runs with two. */
  lemma FailedOpenLeavesTimer(s0: State, from: Peer, write: bool, wellFormed: bool, bad: Env, good: Env)
    requires Consistent(s0) && s0.handle.None? && s0.armed == 0 && !(wellFormed && bad.openOk)
    requires good.openOk && (!write ==> !good.dataAlloc || good.readOk)
    ensures var s1 := Received(s0, from, Request(write, wellFormed), bad).0;
            var s2 := Received(s1, from, Request(write, true), good).0;
            s1.handle.None? && s1.armed == 1 && s2.handle.Some? && s2.armed == 2
  {
  }

  // ----- what each packet is answered with -----

  /** A request that opens the file to write is answered with an acknowledgement of block 0. */
  lemma WriteOpens(s: State, from: Peer, e: Env)
    requires Consistent(s) && s.handle.None? && e.openOk
    ensures var (s', out) := Received(s, from, Request(true, true), e);
            && s'.handle == Some(Handle(e.contents, 0)) && s'.modeWrite && s'.blknum == 1
            && s'.lastData.None? && s'.written == [] && SessionPeer(s') == from
            && out == if e.replyAlloc then [Sent(from, Ack(0))] else []
  {
  }

  /** A request is refused while a session is open, when it does not parse, and when the file
      cannot be opened; each with its own error, to whoever asked. */
  lemma RequestRefused(s: State, from: Peer, write: bool, wellFormed: bool, e: Env)
    requires e.replyAlloc
    ensures var (s', out) := Received(s, from, Request(write, wellFormed), e);
            && (Stranger(s, from) || s.handle.Some? || !wellFormed ==>
                  out == [Sent(from, Error(2))] && s'.handle == s.handle && s'.written == s.written)
            && (!Stranger(s, from) && s.handle.None? && wellFormed && !e.openOk ==>
                  out == [Sent(from, Error(1))] && s'.handle.None?)
  {
  }

  /** DATA to a write session: the expected block is written and acknowledged; the one before it is
      acknowledged again and not written; any other is an error, and is not written either. */
  lemma DataAnswered(s: State, from: Peer, blk: u16, payload: seq<u8>, e: Env)
    requires s.handle.Some? && s.modeWrite && !Stranger(s, from) && e.replyAlloc && e.writeOk
    ensures var (s', out) := Received(s, from, Data(blk, payload), e);
            && (blk == s.blknum ==> out == [Sent(SessionPeer(s), Ack(blk))] && s'.written == s.written + payload)
            && (blk != s.blknum ==> s' == s.(lastPkt := s.timer, retries := 0))
            && (blk == (s.blknum + 0xFFFF) % 0x1_0000 ==> out == [Sent(SessionPeer(s), Ack(blk))])
            && (blk != s.blknum && blk != (s.blknum + 0xFFFF) % 0x1_0000 ==> out == [Sent(from, Error(5))])
  {
  }

  /** A write that fails is an error, and ends the session. */
  lemma FailedWriteEnds(s: State, from: Peer, payload: seq<u8>, e: Env)
    requires s.handle.Some? && s.modeWrite && !Stranger(s, from) && e.replyAlloc && !e.writeOk
    ensures var (s', out) := Received(s, from, Data(s.blknum, payload), e);
            s'.handle.None? && out == [Sent(from, Error(2))]
  {
  }

  /** Everything else that a session, or the lack of one, turns away. */
  lemma TurnedDown(s: State, from: Peer, pkt: Packet, e: Env)
    requires e.replyAlloc && !Stranger(s, from)
    ensures var (s', out) := Received(s, from, pkt, e);
            && (pkt.Data? && (s.handle.None? || !s.modeWrite) ==> out == [Sent(from, Error(2))])
            && (pkt.Ack? && (s.handle.None? || s.modeWrite) ==> out == [Sent(from, Error(2))])
            && (pkt.Ack? && s.handle.Some? && !s.modeWrite && pkt.blk != s.blknum ==> out == [Sent(from, Error(5))])
            && (pkt.Error? || pkt.Other? ==> out == [Sent(from, Error(4))])
            && (out == [Sent(from, Error(4))] ==> s' == s.(lastPkt := s.timer, retries := 0))
  {
  }

  // ----- what a read session transmits -----

  /** Block `n`, counted from 1, of a file. */
  function Block(file: seq<u8>, n: nat): seq<u8>
    requires n >= 1
  {
    if MAX_PAYLOAD * (n - 1) <= |file| then file[MAX_PAYLOAD * (n - 1)..Min(MAX_PAYLOAD * n, |file|)] else []
  }

  /** How many blocks carry a file: the last one is short, and may be empty. */
  function Blocks(file: seq<u8>): nat {
    |file| / MAX_PAYLOAD + 1
  }

  lemma BlockSize(file: seq<u8>, n: nat)
    requires 1 <= n <= Blocks(file)
    ensures MAX_PAYLOAD * (n - 1) <= |file|
    ensures |Block(file, n)| <= MAX_PAYLOAD
    ensures |Block(file, n)| < MAX_PAYLOAD <==> n == Blocks(file)
  {
  }

  /** The session has sent block `n` of `file` and waits for its acknowledgement. */
  predicate Serving(s: State, file: seq<u8>, n: nat) {
    && 1 <= n <= Blocks(file)
    && s.handle == Some(Handle(file, Min(MAX_PAYLOAD * n, |file|)))
    && !s.modeWrite
    && s.blknum == n % 0x1_0000
    && s.lastData == Some(Data(s.blknum, Block(file, n)))
  }

  /** The event is an acknowledgement of the block last sent. */
  predicate Advances(s: State, ev: Event) {
    ev.Packet? && !Stranger(s, ev.from) && ev.pkt == Ack(s.blknum)
  }

  lemma ReadOpens(s: State, from: Peer, e: Env)
    requires Consistent(s) && s.handle.None? && e.openOk && e.dataAlloc && e.readOk
    ensures var (s', out) := Received(s, from, Request(false, true), e);
            && Serving(s', e.contents, 1) && SessionPeer(s') == from
            && out == if e.replyAlloc then [Sent(from, Data(1, Block(e.contents, 1)))] else []
  {
  }

  /** An acknowledgement of the block last sent. */
  lemma ReadAdvances(s: State, file: seq<u8>, n: nat, ev: Event)
    requires Consistent(s) && Serving(s, file, n) && ev.env.dataAlloc && Advances(s, ev)
    ensures var (s', out) := Step(s, ev);
            if n == Blocks(file) || !ev.env.readOk then
              s'.handle.None? && forall o :: o in out ==> !o.pkt.Data?
            else
              && Serving(s', file, n + 1) && SessionPeer(s') == SessionPeer(s)
              && forall o :: o in out ==> o == Sent(SessionPeer(s), s'.lastData.value)
  {
    BlockSize(file, n);
    var h := Handle(file, Min(MAX_PAYLOAD * n, |file|));
    assert Received(s, ev.from, ev.pkt, ev.env)
           == GotAck(s.(lastPkt := s.timer, retries := 0), ev.from, s.blknum, ev.env);
    if n < Blocks(file) {
      assert Chunk(h) == Block(file, n + 1);
      assert NextBlock(s.blknum) == (n + 1) % 0x1_0000;
      assert h.pos + |Chunk(h)| == Min(MAX_PAYLOAD * (n + 1), |file|);
    }
  }

  /** Anything else. */
  lemma ReadWaits(s: State, file: seq<u8>, n: nat, ev: Event)
    requires Consistent(s) && Serving(s, file, n) && !Advances(s, ev)
    ensures var (s', out) := Step(s, ev);
            && (if ev.Tick? && Patience(s) == 1 then s'.handle.None?
                else Serving(s', file, n) && SessionPeer(s') == SessionPeer(s))
            && forall o :: o in out && o.pkt.Data? ==> o == Sent(SessionPeer(s), s.lastData.value)
  {
    if ev.Packet? {
      var t := s.(lastPkt := s.timer, retries := 0);
      assert Serving(t, file, n);
      var s' := Step(s, ev).0;
      assert s' == s || s' == t;
    }
  }

  /** Read sessions, step by step, while buffers are available: an accepted acknowledgement
      advances by exactly one block of the file, whatever the 16-bit number wraps to; nothing
      else moves the session; every DATA packet sent, first or repeated, is that block; and
      the session ends exactly on the acknowledgement of the short block, on a failed read, or
      when its patience runs out. */
  lemma ReadStep(s: State, file: seq<u8>, n: nat, ev: Event)
    requires Consistent(s) && Serving(s, file, n) && ev.env.dataAlloc
    ensures var (s', out) := Step(s, ev);
            var m := if Advances(s, ev) then n + 1 else n;
            && (s'.handle.Some? ==> Serving(s', file, m) && SessionPeer(s') == SessionPeer(s))
            && (s'.handle.None? <==>
                  || (Advances(s, ev) && (n == Blocks(file) || !ev.env.readOk))
                  || (ev.Tick? && Patience(s) == 1))
            && (forall o :: o in out && o.pkt.Data? ==>
                  m <= Blocks(file) && o == Sent(SessionPeer(s), Data(m % 0x1_0000, Block(file, m))))
  {
    if Advances(s, ev) {
      ReadAdvances(s, file, n, ev);
    } else {
      ReadWaits(s, file, n, ev);
    }
  }

  /** The acknowledgements of the current block among the events of a run. */
  function Accepted(s: State, evs: seq<Event>): nat
    decreases |evs|
  {
    if evs == [] then 0
    else (if Advances(s, evs[0]) then 1 else 0) + Accepted(Step(s, evs[0]).0, evs[1..])
  }

  predicate BuffersFree(evs: seq<Event>) {
    forall i :: 0 <= i < |evs| ==> evs[i].env.dataAlloc
  }

  /** Everything sent is some block of the file between two, to the session's peer. */
  ghost predicate OnlyBlocks(out: seq<Sent>, peer: Peer, file: seq<u8>, first: nat, last: nat) {
    forall o :: o in out && o.pkt.Data? ==>
      exists m: nat :: 1 <= m && first <= m <= last && o == Sent(peer, Data(m % 0x1_0000, Block(file, m)))
  }

  lemma StepSendsBlocks(s: State, file: seq<u8>, n: nat, ev: Event)
    requires Consistent(s) && Serving(s, file, n) && ev.env.dataAlloc
    ensures var m := if Advances(s, ev) then n + 1 else n;
            OnlyBlocks(Step(s, ev).1, SessionPeer(s), file, n, m)
  {
    ReadStep(s, file, n, ev);
  }

  lemma OnlyBlocksPlus(a: seq<Sent>, b: seq<Sent>, peer: Peer, file: seq<u8>, first: nat, mid: nat, last: nat)
    requires OnlyBlocks(a, peer, file, first, mid) && OnlyBlocks(b, peer, file, mid, last) && first <= mid <= last
    ensures OnlyBlocks(a + b, peer, file, first, last)
  {
  }

  lemma {:induction false} ReadRunTo(s: State, file: seq<u8>, n: nat, evs: seq<Event>, last: nat)
    requires Consistent(s) && Serving(s, file, n) && BuffersFree(evs) && StaysOpen(s, evs)
    requires last == n + Accepted(s, evs)
    ensures Serving(Run(s, evs).0, file, last) && SessionPeer(Run(s, evs).0) == SessionPeer(s)
    ensures OnlyBlocks(Run(s, evs).1, SessionPeer(s), file, n, last)
    decreases |evs|
  {
    if evs != [] {
      var (s1, out1) := Step(s, evs[0]);
      var m, rest := if Advances(s, evs[0]) then n + 1 else n, evs[1..];
      StepConsistent(s, evs[0]);
      ReadStep(s, file, n, evs[0]);
      StepSendsBlocks(s, file, n, evs[0]);
      ReadRunTo(s1, file, m, rest, last);
      OnlyBlocksPlus(out1, Run(s1, rest).1, SessionPeer(s), file, n, m, last);
    }
  }

  /** A read over any run of events: while it stays open, the block it serves is the first one
      plus the acknowledgements accepted, whatever the 16-bit number has wrapped to, and every
      DATA packet it sent is one of the blocks from the first to that one. */
  lemma ReadRun(s: State, file: seq<u8>, n: nat, evs: seq<Event>)
    requires Consistent(s) && Serving(s, file, n) && BuffersFree(evs) && StaysOpen(s, evs)
    ensures Serving(Run(s, evs).0, file, n + Accepted(s, evs)) && SessionPeer(Run(s, evs).0) == SessionPeer(s)
    ensures OnlyBlocks(Run(s, evs).1, SessionPeer(s), file, n, n + Accepted(s, evs))
  {
    ReadRunTo(s, file, n, evs, n + Accepted(s, evs));
  }
}
