/** Transfers finish. From an idle server, a file of any length is carried whole in either
    direction by a network that delivers every datagram once and in order; and still is when
    one answer of the server's is lost on the way. */
module TftpCompletes {
  import opened Words
  import opened TftpServer
  import opened TftpSession
  import opened TftpTransfer
  import opened TftpReopen
  import TftpLimit

  /** The client sends, and each end is given the oldest datagram on its way; no buffer is
      missing, and no file operation fails. An answer may be lost, or a timer expire. */
  predicate Usual(a: Action, file: seq<u8>) {
    a in {ClientSends, ToServer(0, Well(file)), ToClient(0), LoseDown(0), Aside(Tick(Well(file)))}
  }

  /** How often an action is among some. */
  function Times(a: Action, acts: seq<Action>): nat {
    if acts == [] then 0 else Times(a, acts[..|acts| - 1]) + if acts[|acts| - 1] == a then 1 else 0
  }

  /** A usual run, with so many losses and expiries. */
  predicate Run(acts: seq<Action>, file: seq<u8>, losses: nat, expiries: nat) {
    && (forall i :: 0 <= i < |acts| ==> Usual(acts[i], file))
    && Times(LoseDown(0), acts) == losses && Times(Aside(Tick(Well(file))), acts) == expiries
  }

  ghost predicate Comes(w0: World, me: Peer, file: seq<u8>, w: World, losses: nat, expiries: nat) {
    exists acts :: Run(acts, file, losses, expiries) && AllHappen(w0, me, acts) == w
  }

  lemma ByActions(w0: World, me: Peer, file: seq<u8>, w: World, losses: nat, expiries: nat) returns (acts: seq<Action>)
    requires Comes(w0, me, file, w, losses, expiries)
    ensures Run(acts, file, losses, expiries) && AllHappen(w0, me, acts) == w
  {
    acts :| Run(acts, file, losses, expiries) && AllHappen(w0, me, acts) == w;
  }

  lemma Then(w0: World, me: Peer, file: seq<u8>, w: World, losses: nat, expiries: nat, a: Action)
    requires Comes(w0, me, file, w, losses, expiries) && Usual(a, file)
    ensures Comes(w0, me, file, Happens(w, me, a), losses + (if a.LoseDown? then 1 else 0),
                  expiries + if a.Aside? then 1 else 0)
  {
    var acts :| Run(acts, file, losses, expiries) && AllHappen(w0, me, acts) == w;
    AllHappenLast(w0, me, acts, a);
    assert (acts + [a])[..|acts|] == acts;
    assert Run(acts + [a], file, losses + (if a.LoseDown? then 1 else 0), expiries + if a.Aside? then 1 else 0);
  }

  /** The client hears the one answer on its way, sends, and the server takes that. */
  function Round(w: World, me: Peer, file: seq<u8>): World {
    Happens(Happens(Happens(w, me, ToClient(0)), me, ClientSends), me, ToServer(0, Well(file)))
  }

  lemma RoundComes(w0: World, me: Peer, file: seq<u8>, w: World, losses: nat, expiries: nat)
    requires Comes(w0, me, file, w, losses, expiries)
    ensures Comes(w0, me, file, Round(w, me, file), losses, expiries)
  {
    Then(w0, me, file, w, losses, expiries, ToClient(0));
    Then(w0, me, file, Happens(w, me, ToClient(0)), losses, expiries, ClientSends);
    Then(w0, me, file, Happens(Happens(w, me, ToClient(0)), me, ClientSends), losses, expiries,
         ToServer(0, Well(file)));
  }

  /** What a round does, when it starts with one answer on its way. */
  lemma RoundIs(w: World, me: Peer, file: seq<u8>, answer: Packet, p: Packet)
    requires w.net.up == [] && w.net.down == [answer] && Offer(Hears(w.net.client, answer)) == [p]
    ensures var s := w.net.server;
            var (s', out) := Received(s, me, p, Well(file));
            Round(w, me, file)
            == World(Net(s', Hears(w.net.client, answer), [], SentTo(out, me)),
                     if Mine(s, me) && s.modeWrite then Overlaid(w.disk, s'.written) else w.disk)
  {
    var w1 := Happens(w, me, ToClient(0));
    assert w1.net == w.net.(client := Hears(w.net.client, answer), down := []);
    var w2 := Happens(w1, me, ClientSends);
    assert w2.net == w1.net.(up := [] + [p]) && w2.net.up == [p];
    assert Without([p], 0) == [];
    assert [] + SentTo(Received(w.net.server, me, p, Well(file)).1, me)
           == SentTo(Received(w.net.server, me, p, Well(file)).1, me);
  }

  lemma OneAnswer(me: Peer, p: Packet)
    ensures SentTo([Sent(me, p)], me) == [p] && SentTo([], me) == []
  {
    assert [Sent(me, p)][1..] == [];
    assert SentTo([Sent(me, p)], me) == [p] + SentTo([], me);
  }

  /** The first request, and what the server answers. */
  lemma Asks(w0: World, me: Peer, writing: bool, file: seq<u8>) returns (w: World)
    requires Fresh(w0, me, writing, file)
    ensures Comes(w0, me, file, w, 0, 0)
    ensures var (s', out) := Received(w0.net.server, me, Request(writing, true), Well(file));
            w == World(Net(s', w0.net.client, [], SentTo(out, me)), w0.disk)
  {
    assert Run([], file, 0, 0) && AllHappen(w0, me, []) == w0;
    Then(w0, me, file, w0, 0, 0, ClientSends);
    var w1 := Happens(w0, me, ClientSends);
    assert w1.net.up == [Request(writing, true)];
    Then(w0, me, file, w1, 0, 0, ToServer(0, Well(file)));
    w := Happens(w1, me, ToServer(0, Well(file)));
    assert Without(w1.net.up, 0) == [];
    assert [] + SentTo(Received(w0.net.server, me, Request(writing, true), Well(file)).1, me)
           == SentTo(Received(w0.net.server, me, Request(writing, true), Well(file)).1, me);
  }

  // ----- writes -----

  /** The server has taken `k` blocks, and its acknowledgement of the last is on its way. */
  predicate Acked(w: World, w0: World, me: Peer, file: seq<u8>, k: nat) {
    && k <= Blocks(file) && w.net.client == Writer(file, k)
    && w.net.up == [] && w.net.down == [Ack(k % 0x1_0000)]
    && ServerAt(w.net.server, me, true, file, k) && (w.net.server.handle.Some? <==> k < Blocks(file))
    && w.disk == Overlaid(w0.disk, Prefix(file, k))
  }

  lemma WriteBegins(w0: World, me: Peer, file: seq<u8>) returns (w: World)
    requires Fresh(w0, me, true, file)
    ensures Comes(w0, me, file, w, 0, 0) && Acked(w, w0, me, file, 0)
  {
    w := Asks(w0, me, true, file);
    WriteOpens(w0.net.server, me, Well(file));
    StepConsistent(w0.net.server, Packet(me, Request(true, true), Well(file)));
    OneAnswer(me, Ack(0));
    assert Prefix(file, 0) == [] && Overlaid(w0.disk, []) == w0.disk;
  }

  /** A block is taken and acknowledged; the last one ends the session. */
  lemma BlockTaken(s: State, me: Peer, file: seq<u8>, k: nat)
    requires ServerAt(s, me, true, file, k) && s.handle.Some?
    ensures var (s', out) := Received(s, me, UpWire(Writer(file, k + 1), k + 1), Well(file));
            && ServerAt(s', me, true, file, k + 1) && (s'.handle.Some? <==> k + 1 < Blocks(file))
            && out == [Sent(me, Ack((k + 1) % 0x1_0000))]
  {
    WriteServerTakes(s, me, file, k, k + 1, Well(file));
    BlockSize(file, k + 1);
    DataAnswered(s, me, (k + 1) % 0x1_0000, Block(file, k + 1), Well(file));
  }

  lemma BlockRound(w0: World, w: World, me: Peer, file: seq<u8>, k: nat)
    requires Acked(w, w0, me, file, k) && k < Blocks(file)
    ensures Acked(Round(w, me, file), w0, me, file, k + 1)
  {
    var c := Hears(w.net.client, Ack(k % 0x1_0000));
    assert c == Writer(file, k + 1);
    assert Offer(c) == [UpWire(c, k + 1)];
    RoundIs(w, me, file, Ack(k % 0x1_0000), UpWire(c, k + 1));
    BlockTaken(w.net.server, me, file, k);
    OneAnswer(me, Ack((k + 1) % 0x1_0000));
    DiskCovered(w0.disk, file, k, k + 1);
  }

  /** A block that comes once more is acknowledged again, and not written. */
  lemma RepeatAnswered(s: State, me: Peer, file: seq<u8>, k: nat)
    requires ServerAt(s, me, true, file, k) && s.handle.Some? && k > 0
    ensures var (s', out) := Received(s, me, UpWire(Writer(file, k), k), Well(file));
            && s' == s.(lastPkt := s.timer, retries := 0) && ServerAt(s', me, true, file, k)
            && out == [Sent(me, Ack(k % 0x1_0000))]
  {
    assert k % 0x1_0000 == (s.blknum + 0xFFFF) % 0x1_0000 != s.blknum;
    DataAnswered(s, me, k % 0x1_0000, Block(file, k), Well(file));
  }

  /** The acknowledgement is lost; the client sends its block once more. */
  lemma AckLost(w0: World, w: World, me: Peer, file: seq<u8>, k: nat, losses: nat, expiries: nat) returns (w': World)
    requires Comes(w0, me, file, w, losses, expiries) && Acked(w, w0, me, file, k) && 0 < k < Blocks(file)
    ensures Comes(w0, me, file, w', losses + 1, expiries) && Acked(w', w0, me, file, k)
  {
    var p := UpWire(w.net.client, k);
    Then(w0, me, file, w, losses, expiries, LoseDown(0));
    var w1 := w.(net := w.net.(down := []));
    assert Happens(w, me, LoseDown(0)) == w1;
    Then(w0, me, file, w1, losses + 1, expiries, ClientSends);
    var w2 := w1.(net := w1.net.(up := [p]));
    assert Happens(w1, me, ClientSends) == w2 by { assert [] + [p] == [p]; }
    Then(w0, me, file, w2, losses + 1, expiries, ToServer(0, Well(file)));
    w' := Happens(w2, me, ToServer(0, Well(file)));
    RepeatAnswered(w.net.server, me, file, k);
    OneAnswer(me, Ack(k % 0x1_0000));
    assert Without([p], 0) == [] && [] + [Ack(k % 0x1_0000)] == [Ack(k % 0x1_0000)];
    DiskCovered(w0.disk, file, k, k);
  }

  lemma NextBlockAcked(w0: World, w: World, me: Peer, file: seq<u8>, k: nat, losses: nat) returns (w': World)
    requires Comes(w0, me, file, w, losses, 0) && Acked(w, w0, me, file, k) && k < Blocks(file)
    ensures Comes(w0, me, file, w', losses, 0) && Acked(w', w0, me, file, k + 1)
  {
    RoundComes(w0, me, file, w, losses, 0);
    BlockRound(w0, w, me, file, k);
    w' := Round(w, me, file);
  }

  /** The acknowledgement of block `lost` has been lost by the time that block `k` is acknowledged. */
  function LossesBy(lost: nat, k: nat): nat {
    if 0 < lost <= k then 1 else 0
  }

  lemma {:induction false} WritesUpTo(w0: World, me: Peer, file: seq<u8>, lost: nat, k: nat) returns (w: World)
    requires Fresh(w0, me, true, file) && k <= Blocks(file) && lost < Blocks(file)
    ensures Comes(w0, me, file, w, LossesBy(lost, k), 0) && Acked(w, w0, me, file, k)
  {
    if k == 0 {
      w := WriteBegins(w0, me, file);
    } else {
      var w1 := WritesUpTo(w0, me, file, lost, k - 1);
      w := NextBlockAcked(w0, w1, me, file, k - 1, LossesBy(lost, k - 1));
      if lost == k {
        w := AckLost(w0, w, me, file, k, 0, 0);
      }
    }
  }

  /** The client has seen the end, all of the file is on the disk, the server is idle, and nothing is
      on its way. */
  predicate Written(w: World, w0: World, file: seq<u8>) {
    && ClientDone(w.net, file) && w.net.server.handle.None? && w.net.server.written == file
    && w.disk == Overlaid(w0.disk, file) && w.net.up == [] && w.net.down == []
  }

  lemma WriteEnds(w0: World, w: World, me: Peer, file: seq<u8>, losses: nat) returns (w': World)
    requires Comes(w0, me, file, w, losses, 0) && Acked(w, w0, me, file, Blocks(file))
    ensures Comes(w0, me, file, w', losses, 0) && Written(w', w0, file)
  {
    Then(w0, me, file, w, losses, 0, ToClient(0));
    w' := Happens(w, me, ToClient(0));
    PrefixGrows(file, Blocks(file) - 1);
  }

  /** Every write can finish: with no loss, or with the acknowledgement of any block but the last
      lost. That of the request is not one: the request repeated is refused. */
  lemma WriteCompletes(w0: World, me: Peer, file: seq<u8>, lost: nat) returns (acts: seq<Action>)
    requires Fresh(w0, me, true, file) && lost < Blocks(file)
    ensures Run(acts, file, if lost > 0 then 1 else 0, 0)
    ensures Written(AllHappen(w0, me, acts), w0, file)
  {
    var b := Blocks(file);
    var w := WritesUpTo(w0, me, file, lost, b);
    w := WriteEnds(w0, w, me, file, LossesBy(lost, b));
    acts := ByActions(w0, me, file, w, LossesBy(lost, b), 0);
  }

  // ----- reads -----

  /** The client has `k` blocks, and the next is on its way. */
  predicate Served(w: World, w0: World, me: Peer, file: seq<u8>, k: nat) {
    && k < Blocks(file) && w.net.client == Reader(k, Prefix(file, k), false)
    && w.net.up == [] && w.net.down == [DownWire(false, file, k + 1)] && w.disk == w0.disk
    && ServerAt(w.net.server, me, false, file, k) && w.net.server.handle.Some? && w.net.server.lastData.Some?
  }

  /** The server has just been heard from. */
  predicate Recent(s: State) {
    s.lastPkt == s.timer && s.retries == 0
  }

  lemma ReadBegins(w0: World, me: Peer, file: seq<u8>) returns (w: World)
    requires Fresh(w0, me, false, file)
    ensures Comes(w0, me, file, w, 0, 0) && Served(w, w0, me, file, 0) && Recent(w.net.server)
  {
    w := Asks(w0, me, false, file);
    ReadOpens(w0.net.server, me, Well(file));
    StepConsistent(w0.net.server, Packet(me, Request(false, true), Well(file)));
    OneAnswer(me, Data(1, Block(file, 1)));
    BlockSize(file, 1);
  }

  lemma ReadRound(w0: World, w: World, me: Peer, file: seq<u8>, k: nat)
    requires Served(w, w0, me, file, k) && k + 1 < Blocks(file)
    ensures Served(Round(w, me, file), w0, me, file, k + 1) && Recent(Round(w, me, file).net.server)
  {
    var c := Hears(w.net.client, DownWire(false, file, k + 1));
    TftpLimit.ClientTakesNext(false, file, k);
    RoundIs(w, me, file, DownWire(false, file, k + 1), UpWire(c, k + 1));
    TftpLimit.ReaderServed(w.net.server, me, file, k, c, Well(file));
  }

  /** Ten expiries pass, while nothing is on its way. */
  lemma {:induction false} Waits(w0: World, w: World, me: Peer, file: seq<u8>, losses: nat, expiries: nat, n: nat)
    requires Comes(w0, me, file, w, losses, expiries) && w.net.server.handle.Some? && w.net.server.armed >= 1
    requires Recent(w.net.server) && n <= TIMEOUT_TICKS
    ensures Comes(w0, me, file, w.(net := w.net.(server := w.net.server.(timer := w.net.server.timer + n))),
                  losses, expiries + n)
  {
    if n > 0 {
      Waits(w0, w, me, file, losses, expiries, n - 1);
      var w1 := w.(net := w.net.(server := w.net.server.(timer := w.net.server.timer + (n - 1))));
      Then(w0, me, file, w1, losses, expiries + (n - 1), Aside(Tick(Well(file))));
      assert w1.net.down + SentTo([], me) == w1.net.down;
      assert Happens(w1, me, Aside(Tick(Well(file))))
             == w.(net := w.net.(server := w.net.server.(timer := w.net.server.timer + n)));
    }
  }

  /** A block is lost; eleven expiries later it is sent once more. */
  lemma BlockLost(w0: World, w: World, me: Peer, file: seq<u8>, k: nat) returns (w': World)
    requires Comes(w0, me, file, w, 0, 0) && Served(w, w0, me, file, k) && Recent(w.net.server)
    ensures Comes(w0, me, file, w', 1, TIMEOUT_TICKS + 1) && Served(w', w0, me, file, k)
  {
    Then(w0, me, file, w, 0, 0, LoseDown(0));
    var w1 := Happens(w, me, LoseDown(0));
    assert w1.net == w.net.(down := []);
    Waits(w0, w1, me, file, 1, 0, TIMEOUT_TICKS);
    var w2 := w1.(net := w1.net.(server := w1.net.server.(timer := w1.net.server.timer + TIMEOUT_TICKS)));
    Then(w0, me, file, w2, 1, TIMEOUT_TICKS, Aside(Tick(Well(file))));
    w' := Happens(w2, me, Aside(Tick(Well(file))));
    var p := DownWire(false, file, k + 1);
    assert Ticked(w2.net.server, Well(file)).1 == [Sent(me, p)];
    OneAnswer(me, p);
    assert w'.net.down == [] + [p];
    ServerAside(w2.net.server, me, false, file, k, Tick(Well(file)));
  }

  /** With a loss, or without one. */
  ghost predicate ComesWith(w0: World, me: Peer, file: seq<u8>, w: World, loss: bool) {
    if loss then Comes(w0, me, file, w, 1, TIMEOUT_TICKS + 1) else Comes(w0, me, file, w, 0, 0)
  }

  lemma RoundWith(w0: World, me: Peer, file: seq<u8>, w: World, loss: bool)
    requires ComesWith(w0, me, file, w, loss)
    ensures ComesWith(w0, me, file, Round(w, me, file), loss)
  {
    if loss {
      RoundComes(w0, me, file, w, 1, TIMEOUT_TICKS + 1);
    } else {
      RoundComes(w0, me, file, w, 0, 0);
    }
  }

  lemma NextServed(w0: World, w: World, me: Peer, file: seq<u8>, k: nat, loss: bool) returns (w': World)
    requires ComesWith(w0, me, file, w, loss) && Served(w, w0, me, file, k) && k + 1 < Blocks(file)
    ensures ComesWith(w0, me, file, w', loss) && Served(w', w0, me, file, k + 1) && Recent(w'.net.server)
  {
    RoundWith(w0, me, file, w, loss);
    ReadRound(w0, w, me, file, k);
    w' := Round(w, me, file);
  }

  lemma {:induction false} ReadsUpTo(w0: World, me: Peer, file: seq<u8>, lost: nat, k: nat) returns (w: World)
    requires Fresh(w0, me, false, file) && k < Blocks(file)
    ensures Served(w, w0, me, file, k) && ComesWith(w0, me, file, w, 0 < lost <= k + 1)
  {
    if k == 0 {
      w := ReadBegins(w0, me, file);
    } else {
      var w1 := ReadsUpTo(w0, me, file, lost, k - 1);
      w := NextServed(w0, w1, me, file, k - 1, 0 < lost <= k);
    }
    if lost == k + 1 {
      w := BlockLost(w0, w, me, file, k);
    }
  }

  /** The client has the last block, and its acknowledgement ends the session. */
  lemma LastRound(w0: World, w: World, me: Peer, file: seq<u8>)
    requires Served(w, w0, me, file, Blocks(file) - 1)
    ensures var w' := Round(w, me, file);
            && w'.net.client == Reader(Blocks(file), file, true) && w'.net.server.handle.None?
            && w'.net.up == [] && w'.net.down == [] && w'.disk == w0.disk
  {
    var b := Blocks(file);
    var c := Hears(w.net.client, DownWire(false, file, b));
    BlockSize(file, b);
    PrefixGrows(file, b - 1);
    assert c == Reader(b, file, true);
    RoundIs(w, me, file, DownWire(false, file, b), UpWire(c, b));
    var s := w.net.server;
    assert Received(s, me, UpWire(c, b), Well(file)) == (Closed(s.(lastPkt := s.timer, retries := 0)), []);
  }

  /** Every read can finish: with no loss, or with any one block lost. */
  lemma ReadCompletes(w0: World, me: Peer, file: seq<u8>, lost: nat) returns (acts: seq<Action>)
    requires Fresh(w0, me, false, file) && lost <= Blocks(file)
    ensures if lost > 0 then Run(acts, file, 1, TIMEOUT_TICKS + 1) else Run(acts, file, 0, 0)
    ensures var w := AllHappen(w0, me, acts);
            && ClientDone(w.net, file) && Carried(w.net) == file && w.net.server.handle.None?
            && w.net.up == [] && w.net.down == [] && w.disk == w0.disk
  {
    var w := ReadsUpTo(w0, me, file, lost, Blocks(file) - 1);
    RoundWith(w0, me, file, w, lost > 0);
    LastRound(w0, w, me, file);
    if lost > 0 {
      acts := ByActions(w0, me, file, Round(w, me, file), 1, TIMEOUT_TICKS + 1);
    } else {
      acts := ByActions(w0, me, file, Round(w, me, file), 0, 0);
    }
  }
}
