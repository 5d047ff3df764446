/** Exactly which files are carried safely by a network that repeats and reorders: `Small` ones.
    For every other file there is a run that breaks its transfer, once the server has answered.
    It keeps a copy of each of the server's first 65536 packets in the network; when the 16-bit
    number has wrapped, the copies carry the client on, and the server is left behind. */
module TftpLimit {
  import opened Words
  import opened TftpServer
  import opened TftpSession
  import opened TftpTransfer

  const NUMBERS := 0x1_0000

  const ALL_WELL := Env(true, [], true, true, true, true)

  /** The server's first `n` packets. */
  function Served(writing: bool, file: seq<u8>, n: nat): (down: seq<Packet>)
    ensures |down| == n
  {
    seq(n, i requires 0 <= i < n => DownWire(writing, file, i + 1))
  }

  function ClientOf(writing: bool, file: seq<u8>, k: nat): Client {
    if writing then Writer(file, k) else Reader(k, Prefix(file, k), false)
  }

  /** Client and server are in step at `k`, and every packet of the server is in the network. */
  predicate InStep(n: Net, me: Peer, writing: bool, file: seq<u8>, k: nat) {
    && n.client == ClientOf(writing, file, k)
    && n.down == Served(writing, file, k + 1)
    && ServerAt(n.server, me, writing, file, k)
    && n.server.handle.Some? && (!writing ==> n.server.lastData.Some?)
  }

  lemma {:induction false} ActsPlus(n: Net, me: Peer, a: seq<Action>, b: seq<Action>)
    ensures Acts(n, me, a + b) == Acts(Acts(n, me, a), me, b)
    decreases |a|
  {
    if a == [] {
      assert a + b == b;
    } else {
      assert (a + b)[1..] == a[1..] + b;
      ActsPlus(Act(n, me, a[0]), me, a[1..], b);
    }
  }

  lemma ActsTwo(n: Net, me: Peer, a: Action, b: Action)
    ensures Acts(n, me, [a, b]) == Act(Act(n, me, a), me, b)
  {
    assert [a, b][1..] == [b] && [b][1..] == [];
    assert Acts(Act(n, me, a), me, [b]) == Act(Act(n, me, a), me, b);
  }

  /** The client is given a copy of a packet, which stays in the network. */
  lemma CopyHeard(n: Net, me: Peer, j: nat)
    requires j < |n.down|
    ensures Acts(n, me, [CopyDown(j), ToClient(j)]) == n.(client := Hears(n.client, n.down[j]))
  {
    ActsTwo(n, me, CopyDown(j), ToClient(j));
    var twice := Twice(n.down, j);
    assert twice[j] == n.down[j];
    assert twice[..j] + twice[j + 1..] == n.down;
  }

  // ----- up to the wrap -----

  lemma ClientTakesNext(writing: bool, file: seq<u8>, k: nat)
    requires k + 1 < Blocks(file)
    ensures Hears(ClientOf(writing, file, k), DownWire(writing, file, k + 1)) == ClientOf(writing, file, k + 1)
  {
    BlockSize(file, k + 1);
    PrefixGrows(file, k);
  }

  lemma WriterServed(s: State, me: Peer, file: seq<u8>, k: nat)
    requires ServerAt(s, me, true, file, k) && s.handle.Some? && k + 1 < Blocks(file)
    ensures var (s', out) := Received(s, me, UpWire(Writer(file, k + 1), k + 1), ALL_WELL);
            && ServerAt(s', me, true, file, k + 1) && s'.handle.Some?
            && SentTo(out, me) == [DownWire(true, file, k + 2)]
  {
    WriteServerTakes(s, me, file, k, k + 1, ALL_WELL);
    var sent := AckTo(me, s.blknum, ALL_WELL);
    assert sent == [Sent(me, Ack(s.blknum))] && sent[1..] == [];
    assert SentTo(sent, me) == [Ack(s.blknum)] + SentTo([], me);
  }

  lemma ReaderServed(s: State, me: Peer, file: seq<u8>, k: nat, c: Client, e: Env)
    requires ServerAt(s, me, false, file, k) && s.handle.Some? && s.lastData.Some?
    requires c.Reader? && k + 1 < Blocks(file) && e.dataAlloc && e.readOk && e.replyAlloc
    ensures var (s', out) := Received(s, me, UpWire(c, k + 1), e);
            && ServerAt(s', me, false, file, k + 1) && s'.handle.Some? && s'.lastData.Some?
            && SentTo(out, me) == [DownWire(false, file, k + 2)]
  {
    ReadServerAdvances(s, me, file, k, c, e);
    BlockSize(file, k + 1);
    var (s', out) := Received(s, me, UpWire(c, k + 1), e);
    assert s'.handle.Some? && s'.lastData.Some?;
    assert out == [Sent(me, s'.lastData.value)] && out[1..] == [];
    assert SentTo(out, me) == [s'.lastData.value] + SentTo([], me);
  }

  /** The server is given a packet that has just been sent. */
  lemma SentAndTaken(n: Net, me: Peer, p: Packet)
    requires Offer(n.client) == [p] && n.server.handle.Some?
    ensures var (s', out) := Received(n.server, me, p, ALL_WELL);
            Act(Act(n, me, ClientSends), me, ToServer(|n.up|, ALL_WELL))
            == n.(server := s', down := n.down + SentTo(out, me))
  {
    var up := n.up + [p];
    assert up[|n.up|] == p && up[..|n.up|] + up[|n.up| + 1..] == n.up;
  }

  /** The server answers the client's next packet. */
  lemma Answered(n: Net, me: Peer, writing: bool, file: seq<u8>, k: nat)
    requires k + 1 < Blocks(file) && n.client == ClientOf(writing, file, k + 1)
    requires n.down == Served(writing, file, k + 1)
    requires ServerAt(n.server, me, writing, file, k) && n.server.handle.Some?
    requires !writing ==> n.server.lastData.Some?
    ensures InStep(Act(Act(n, me, ClientSends), me, ToServer(|n.up|, ALL_WELL)), me, writing, file, k + 1)
  {
    SentAndTaken(n, me, UpWire(n.client, k + 1));
    if writing {
      WriterServed(n.server, me, file, k);
    } else {
      ReaderServed(n.server, me, file, k, n.client, ALL_WELL);
    }
    assert Served(writing, file, k + 1) + [DownWire(writing, file, k + 2)] == Served(writing, file, k + 2);
  }

  /** The client hears the latest packet and sends its next, which the server answers. */
  lemma Exchange(n: Net, me: Peer, writing: bool, file: seq<u8>, k: nat) returns (acts: seq<Action>)
    requires InStep(n, me, writing, file, k) && k + 1 < Blocks(file)
    ensures InStep(Acts(n, me, acts), me, writing, file, k + 1)
  {
    var heard, sent := [CopyDown(k), ToClient(k)], [ClientSends, ToServer(|n.up|, ALL_WELL)];
    var n1 := n.(client := ClientOf(writing, file, k + 1));
    CopyHeard(n, me, k);
    ClientTakesNext(writing, file, k);
    assert Acts(n, me, heard) == n1;
    ActsPlus(n, me, heard, sent);
    ActsTwo(n1, me, ClientSends, ToServer(|n.up|, ALL_WELL));
    Answered(n1, me, writing, file, k);
    acts := heard + sent;
  }

  lemma {:induction false} Exchanges(n: Net, me: Peer, writing: bool, file: seq<u8>, k: nat, last: nat)
    returns (acts: seq<Action>)
    requires InStep(n, me, writing, file, k) && k <= last < Blocks(file)
    ensures InStep(Acts(n, me, acts), me, writing, file, last)
    decreases last - k
  {
    if k == last {
      acts := [];
    } else {
      var once := Exchange(n, me, writing, file, k);
      var rest := Exchanges(Acts(n, me, once), me, writing, file, k + 1, last);
      ActsPlus(n, me, once, rest);
      acts := once + rest;
    }
  }

  /** A transfer whose first answer is on its way starts in step. */
  lemma StartsInStep(n: Net, me: Peer, writing: bool, file: seq<u8>, s0: State, e: Env, copies: nat)
    requires Begins(n, me, writing, file, s0, e, copies) && n.down != []
    ensures InStep(n, me, writing, file, 0)
  {
    var _, _ := BeginsInv(n, me, writing, file, s0, e, copies, true);
    var out := Received(s0, me, Request(writing, true), e).1;
    assert |out| == 1 && out[0].to == me && out[1..] == [];
    assert SentTo(out, me) == [out[0].pkt] + SentTo([], me);
    if !writing {
      assert e.dataAlloc && e.readOk;
      ReadOpens(s0, me, e);
    }
    assert n.down == [DownWire(writing, file, 1)];
  }

  // ----- when the first answer did not get out -----

  /** The server's first answer got out, or is held for resending. */
  predicate Talks(n: Net) {
    n.down != [] || n.server.lastData.Some?
  }

  /** A server that holds its first answer has only to be left alone until it sends it again. */
  lemma {:induction false} Ages(n: Net, me: Peer, k: nat) returns (acts: seq<Action>)
    requires n.server.handle.Some? && n.server.armed >= 1
    requires n.server.lastPkt <= n.server.timer && n.server.timer + k <= n.server.lastPkt + TIMEOUT_TICKS
    ensures Acts(n, me, acts) == n.(server := n.server.(timer := n.server.timer + k))
    decreases k
  {
    if k == 0 {
      acts := [];
    } else {
      var tick := Aside(Tick(ALL_WELL));
      var n1 := n.(server := n.server.(timer := n.server.timer + 1));
      assert Act(n, me, tick) == n1;
      var rest := Ages(n1, me, k - 1);
      acts := [tick] + rest;
    }
  }

  lemma FirstBlockResent(s: State, me: Peer, file: seq<u8>)
    requires ServerAt(s, me, false, file, 0) && s.handle.Some? && s.lastData.Some?
    requires s.timer == s.lastPkt + TIMEOUT_TICKS && s.retries == 0
    ensures var (s', out) := Ticked(s, ALL_WELL);
            && ServerAt(s', me, false, file, 0) && s'.handle.Some? && s'.lastData.Some?
            && SentTo(out, me) == Served(false, file, 1)
  {
    var out := Ticked(s, ALL_WELL).1;
    assert out == [Sent(me, DownWire(false, file, 1))] && out[1..] == [];
    assert SentTo(out, me) == [DownWire(false, file, 1)] + SentTo([], me);
  }

  /** So a transfer that starts with a held answer comes into step too. */
  lemma Wakes(n: Net, me: Peer, writing: bool, file: seq<u8>, s0: State, e: Env, copies: nat)
    returns (acts: seq<Action>)
    requires Begins(n, me, writing, file, s0, e, copies) && n.down == [] && n.server.lastData.Some?
    ensures InStep(Acts(n, me, acts), me, writing, file, 0)
  {
    var _, _ := BeginsInv(n, me, writing, file, s0, e, copies, true);
    var wait := Ages(n, me, TIMEOUT_TICKS);
    var n1 := Acts(n, me, wait);
    FirstBlockResent(n1.server, me, file);
    ActsPlus(n, me, wait, [Aside(Tick(ALL_WELL))]);
    acts := wait + [Aside(Tick(ALL_WELL))];
    var n2 := Act(n1, me, Aside(Tick(ALL_WELL)));
    assert [Aside(Tick(ALL_WELL))][1..] == [];
    assert Acts(n, me, acts) == n2;
    assert n2.down == [] + Served(false, file, 1) == Served(false, file, 1);
  }

  /** A server whose first answer is lost and not held has nothing to say but errors. */
  predicate Stuck(n: Net, me: Peer, writing: bool, file: seq<u8>) {
    && n.client == ClientOf(writing, file, 0)
    && ServerAt(n.server, me, writing, file, 0) && n.server.lastData.None?
    && (forall i :: 0 <= i < |n.up| ==> n.up[i] == Request(writing, true))
    && (forall i :: 0 <= i < |n.down| ==> n.down[i].Error?)
  }

  lemma {:induction false} OnlyErrors(out: seq<Sent>, me: Peer)
    requires forall i :: 0 <= i < |out| ==> out[i].pkt.Error?
    ensures forall i :: 0 <= i < |SentTo(out, me)| ==> SentTo(out, me)[i].Error?
  {
    if out != [] {
      OnlyErrors(out[1..], me);
    }
  }

  /** A repeated request gets an error; an expiry or a stranger gets no more. */
  lemma StuckServer(s: State, me: Peer, writing: bool, file: seq<u8>, ev: Event)
    requires ServerAt(s, me, writing, file, 0) && s.lastData.None? && s.handle.Some?
    requires Silent(s, ev) || (ev.from == me && ev.pkt == Request(writing, true))
    ensures var (s', out) := Step(s, ev);
            && ServerAt(s', me, writing, file, 0) && s'.lastData.None?
            && forall i :: 0 <= i < |SentTo(out, me)| ==> SentTo(out, me)[i].Error?
  {
    OnlyErrors(Step(s, ev).1, me);
  }

  lemma StuckStep(n: Net, me: Peer, writing: bool, file: seq<u8>, a: Action)
    requires Stuck(n, me, writing, file)
    ensures Stuck(Act(n, me, a), me, writing, file)
  {
    if n.server.handle.Some? {
      if a.ToServer? && a.i < |n.up| {
        StuckServer(n.server, me, writing, file, Packet(me, n.up[a.i], a.env));
      } else if a.Aside? && Silent(n.server, a.ev) {
        StuckServer(n.server, me, writing, file, a.ev);
      }
    }
  }

  lemma {:induction false} StuckRun(n: Net, me: Peer, writing: bool, file: seq<u8>, acts: seq<Action>)
    requires Stuck(n, me, writing, file)
    ensures Stuck(Acts(n, me, acts), me, writing, file)
    ensures Safe(Acts(n, me, acts), file)
    decreases |acts|
  {
    if acts == [] {
      assert Carried(n) == Prefix(file, 0);
    } else {
      StuckStep(n, me, writing, file, acts[0]);
      StuckRun(Act(n, me, acts[0]), me, writing, file, acts[1..]);
    }
  }

  lemma StartsStuck(n: Net, me: Peer, writing: bool, file: seq<u8>, s0: State, e: Env, copies: nat)
    requires Begins(n, me, writing, file, s0, e, copies) && !Talks(n)
    ensures Stuck(n, me, writing, file)
  {
    var _, _ := BeginsInv(n, me, writing, file, s0, e, copies, true);
  }

  // ----- beyond the wrap -----

  /** A writer is acknowledged to the end by copies alone. */
  lemma {:induction false} WriterMisled(n: Net, me: Peer, file: seq<u8>, k: nat) returns (acts: seq<Action>)
    requires n.client == Writer(file, k) && k <= Blocks(file) + 1
    requires n.down == Served(true, file, NUMBERS)
    ensures Acts(n, me, acts) == n.(client := Writer(file, Blocks(file) + 1))
    decreases Blocks(file) + 1 - k
  {
    if k == Blocks(file) + 1 {
      acts := [];
    } else {
      var j := k % NUMBERS;
      CopyHeard(n, me, j);
      assert n.down[j] == Ack(k % 0x1_0000);
      var rest := WriterMisled(n.(client := Writer(file, k + 1)), me, file, k + 1);
      ActsPlus(n, me, [CopyDown(j), ToClient(j)], rest);
      acts := [CopyDown(j), ToClient(j)] + rest;
    }
  }

  lemma SameNumber(r: nat)
    ensures (r % 0x1_0000 + 1) % 0x1_0000 == (r + 1) % 0x1_0000
  {
  }

  /** A reader takes copies of old blocks until it holds more bytes than the file. */
  lemma {:induction false} ReaderMisled(n: Net, me: Peer, file: seq<u8>, m: nat) returns (acts: seq<Action>)
    requires n.client.Reader? && !n.client.done && |n.client.got| == MAX_PAYLOAD * n.client.at
    requires Blocks(file) > NUMBERS && n.down == Served(false, file, NUMBERS)
    ensures var n' := Acts(n, me, acts);
            n'.client.Reader? && |n'.client.got| == MAX_PAYLOAD * (n.client.at + m)
    decreases m
  {
    if m == 0 {
      acts := [];
    } else {
      var r := n.client.at;
      var j := r % NUMBERS;
      CopyHeard(n, me, j);
      BlockSize(file, j + 1);
      SameNumber(r);
      assert n.down[j] == Data((r + 1) % 0x1_0000, Block(file, j + 1));
      var c := Reader(r + 1, n.client.got + Block(file, j + 1), false);
      assert Hears(n.client, n.down[j]) == c;
      var rest := ReaderMisled(n.(client := c), me, file, m - 1);
      ActsPlus(n, me, [CopyDown(j), ToClient(j)], rest);
      acts := [CopyDown(j), ToClient(j)] + rest;
    }
  }

  lemma BreaksInStep(n: Net, me: Peer, writing: bool, file: seq<u8>) returns (acts: seq<Action>)
    requires InStep(n, me, writing, file, 0) && !Small(writing, file)
    ensures !Safe(Acts(n, me, acts), file)
  {
    var first := Exchanges(n, me, writing, file, 0, NUMBERS - 1);
    var wrapped := Acts(n, me, first);
    var rest;
    if writing {
      rest := WriterMisled(wrapped, me, file, NUMBERS - 1);
      assert |wrapped.server.written| == MAX_PAYLOAD * 0xFFFF < |file|;
    } else {
      rest := ReaderMisled(wrapped, me, file, Blocks(file));
      var last := Acts(wrapped, me, rest);
      assert |last.client.got| > |file|;
      assert forall q :: |Prefix(file, q)| <= |file|;
    }
    ActsPlus(n, me, first, rest);
    acts := first + rest;
  }

  /** For every file that is not small, a run that ends unsafely. */
  lemma Breaks(n: Net, me: Peer, writing: bool, file: seq<u8>, s0: State, e: Env, copies: nat)
    returns (acts: seq<Action>)
    requires Begins(n, me, writing, file, s0, e, copies) && Talks(n)
    requires !Small(writing, file)
    ensures !Safe(Acts(n, me, acts), file)
  {
    var first := [];
    if n.down == [] {
      first := Wakes(n, me, writing, file, s0, e, copies);
    } else {
      StartsInStep(n, me, writing, file, s0, e, copies);
    }
    var rest := BreaksInStep(Acts(n, me, first), me, writing, file);
    ActsPlus(n, me, first, rest);
    acts := first + rest;
  }

  /** Exactly the transfers that are safe whatever a network that loses, repeats and reorders
      does: those whose first answer the server neither sent nor holds, which carry nothing; and
      of the others, writes of at most 65535 full blocks and reads of at most 65536 blocks. */
  lemma ReorderLimit(n: Net, me: Peer, writing: bool, file: seq<u8>, s0: State, e: Env, copies: nat)
    requires Begins(n, me, writing, file, s0, e, copies)
    ensures (forall acts :: Safe(Acts(n, me, acts), file)) <==>
              !Talks(n) || if writing then |file| <= 512 * 65535 else Blocks(file) <= 65536
  {
    if Small(writing, file) {
      forall acts ensures Safe(Acts(n, me, acts), file) {
        TransferSafe(n, me, writing, file, s0, e, copies, acts, ClientSends);
      }
    } else if Talks(n) {
      var acts := Breaks(n, me, writing, file, s0, e, copies);
    } else {
      StartsStuck(n, me, writing, file, s0, e, copies);
      forall acts ensures Safe(Acts(n, me, acts), file) {
        StuckRun(n, me, writing, file, acts);
      }
    }
  }
}
