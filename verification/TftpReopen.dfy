/** A server that is not left alone: a request that the network delivers late opens the file
    again, others may open and close sessions of their own, and what is left of earlier
    sessions reaches the later ones. Small files are still carried safely over a network that
    loses, repeats and reorders: writes always, and reads as long as the server finds a buffer
    for every block. When it does not, any read of two blocks or more can be torn. */
module TftpReopen {
  import opened Words
  import opened TftpServer
  import opened TftpSession
  import opened TftpTransfer
  import TftpLimit

  /** The network with its two ends, and what the disk holds under the file's name. */
  datatype World = World(net: Net, disk: seq<u8>)

  /** Opening does not truncate the file: what is written covers the beginning of what is there. */
  function Overlaid(disk: seq<u8>, written: seq<u8>): seq<u8> {
    if |written| <= |disk| then written + disk[|written|..] else written
  }

  /** A peer has an address and a port. */
  predicate Real(p: Peer) {
    p.addr != ANY && p.port != 0
  }

  predicate Mine(s: State, me: Peer) {
    s.handle.Some? && SessionPeer(s) == me
  }

  /** The server takes in a packet of the client's; a block written for it is on the disk. */
  function Delivered(w: World, me: Peer, i: nat, e: Env): World
    requires i < |w.net.up|
  {
    var s := w.net.server;
    var (s', out) := Received(s, me, w.net.up[i], e);
    World(w.net.(server := s', up := Without(w.net.up, i), down := w.net.down + SentTo(out, me)),
          if Mine(s, me) && s.modeWrite && e.writeOk then Overlaid(w.disk, s'.written) else w.disk)
  }

  /** Something else happens to the server: a timer expires, or another peer is heard. */
  function Elsewhere(w: World, me: Peer, ev: Event): World {
    var (s', out) := Step(w.net.server, ev);
    w.(net := w.net.(server := s', down := w.net.down + SentTo(out, me)))
  }

  predicate Others(me: Peer, ev: Event) {
    ev.Tick? || (Real(ev.from) && ev.from != me)
  }

  function Happens(w: World, me: Peer, a: Action): World {
    match a
    case ToServer(i, e) => if i < |w.net.up| then Delivered(w, me, i, e) else w
    case Aside(ev) => if Others(me, ev) then Elsewhere(w, me, ev) else w
    case _ => w.(net := Act(w.net, me, a))
  }

  function AllHappen(w: World, me: Peer, acts: seq<Action>): World
    decreases |acts|
  {
    if acts == [] then w else AllHappen(Happens(w, me, acts[0]), me, acts[1..])
  }

  /** The file that is read stays as it is; and with `free`, the server finds a buffer for
      every block. */
  predicate Steady(a: Action, writing: bool, file: seq<u8>, free: bool) {
    a.ToServer? && !writing ==> a.env.contents == file && (free ==> a.env.dataAlloc)
  }

  predicate AllSteady(acts: seq<Action>, writing: bool, file: seq<u8>, free: bool) {
    forall i :: 0 <= i < |acts| ==> Steady(acts[i], writing, file, free)
  }

  /** Nothing has been sent, and nobody is being served. */
  predicate Fresh(w: World, me: Peer, writing: bool, file: seq<u8>) {
    && Real(me) && Consistent(w.net.server) && w.net.server.handle.None?
    && w.net.client == (if writing then Writer(file, 0) else Reader(0, [], false))
    && w.net.up == [] && w.net.down == []
  }

  // ----- the server's part -----

  /** The server is idle, serves somebody else, or serves the client and has moved `q` times;
      in a read it holds the block that it has sent. */
  predicate Serves(s: State, me: Peer, writing: bool, file: seq<u8>, q: nat) {
    && Consistent(s)
    && (Mine(s, me) ==> ServerAt(s, me, writing, file, q)
                        && (!writing ==> s.lastData.Some? || Blocks(file) == 1))
    && (s.handle.Some? && !Mine(s, me) ==> Stranger(s, me))
  }

  /** The server's answers are errors, or its packet `m`. */
  predicate Says(out: seq<Sent>, me: Peer, writing: bool, file: seq<u8>, m: nat)
    requires m >= 1
  {
    forall p :: p in SentTo(out, me) ==> p.Error? || p == DownWire(writing, file, m)
  }

  lemma AnyNumberDecides(d: nat, q: nat, blocks: nat)
    requires 1 <= d <= blocks <= 0x1_0000 && q < blocks
    ensures d % 0x1_0000 == (q + 1) % 0x1_0000 <==> d == q + 1
  {
  }

  /** A write session hears any of the client's packets, however far ahead or behind. */
  lemma WriterHeard(s: State, me: Peer, file: seq<u8>, q: nat, k: nat, d: nat, e: Env)
    returns (q': nat)
    requires ServerAt(s, me, true, file, q) && s.handle.Some? && d <= Blocks(file) <= 0x1_0000
    ensures var (s', out) := Received(s, me, UpWire(Writer(file, k), d), e);
            && q' == (if d == q + 1 && e.writeOk then q + 1 else q)
            && (s'.handle.Some? || e.writeOk ==> ServerAt(s', me, true, file, q'))
            && Consistent(s')
            && (s'.handle.Some? ==> Mine(s', me))
            && Says(out, me, true, file, q' + 1)
  {
    q' := if d == q + 1 && e.writeOk then q + 1 else q;
    if d == q + 1 {
      WriteServerTakes(s, me, file, q, k, e);
      StepConsistent(s, Packet(me, UpWire(Writer(file, k), d), e));
    } else {
      if d > 0 {
        AnyNumberDecides(d, q, Blocks(file));
      }
      var (s', out) := Received(s, me, UpWire(Writer(file, k), d), e);
      assert s' == s.(lastPkt := s.timer, retries := 0);
      assert |SentTo(out, me)| == 0 || SentTo(out, me)[0].Error? || SentTo(out, me)[0] == Ack(q % 0x1_0000);
    }
  }

  /** A read session hears any acknowledgement; but it must hold its block, or not be asked
      for the next. */
  lemma ReaderHeard(s: State, me: Peer, file: seq<u8>, q: nat, c: Client, d: nat, e: Env)
    returns (q': nat)
    requires ServerAt(s, me, false, file, q) && s.handle.Some? && c.Reader? && d <= Blocks(file) <= 0x1_0000
    requires s.lastData.Some? || (Blocks(file) == 1 && d <= q)
    requires e.dataAlloc || Blocks(file) == 1
    ensures var (s', out) := Received(s, me, UpWire(c, d), e);
            && q < Blocks(file) && (q' == q || (q' == d == q + 1 && q' < Blocks(file)))
            && Serves(s', me, false, file, q')
            && Says(out, me, false, file, q' + 1)
  {
    var (s', out) := Received(s, me, UpWire(c, d), e);
    q' := Moved(s, s', false, q, d);
    if d == q + 1 {
      ReadServerAdvances(s, me, file, q, c, e);
    } else {
      if d > 0 {
        AnyNumberDecides(d, q, Blocks(file));
      }
      assert s' == s.(lastPkt := s.timer, retries := 0);
      assert |SentTo(out, me)| == 0 || SentTo(out, me)[0].Error?;
    }
  }

  /** An idle server: only a request opens it, at the beginning of the file. */
  lemma IdleHears(s: State, me: Peer, writing: bool, file: seq<u8>, c: Client, d: nat, e: Env)
    requires Consistent(s) && s.handle.None? && Real(me) && c.Writer? == writing && d <= Blocks(file)
    requires !writing ==> e.contents == file && (e.dataAlloc || Blocks(file) == 1)
    ensures var (s', out) := Received(s, me, UpWire(c, d), e);
            Serves(s', me, writing, file, 0) && Says(out, me, writing, file, 1)
  {
    var (s', out) := Received(s, me, UpWire(c, d), e);
    BlockSize(file, 1);
    StepConsistent(s, Packet(me, UpWire(c, d), e));
    if out != [] {
      assert out[1..] == [];
      assert SentTo(out, me) == [out[0].pkt] + SentTo([], me);
    }
  }

  lemma NotToClient(out: seq<Sent>, me: Peer)
    requires |out| <= 1 && (out != [] ==> out[0].to != me)
    ensures SentTo(out, me) == []
  {
    if out != [] {
      assert out[1..] == [];
      assert SentTo(out, me) == [] + SentTo([], me);
    }
  }

  /** Sessions of others stay theirs, and send the client nothing. */
  lemma TheirsStays(s: State, me: Peer, ev: Event)
    requires Consistent(s) && Real(me) && !Mine(s, me) && (s.handle.Some? ==> Stranger(s, me)) && Others(me, ev)
    ensures var (s', out) := Step(s, ev);
            Consistent(s') && !Mine(s', me) && (s'.handle.Some? ==> Stranger(s', me)) && SentTo(out, me) == []
  {
    StepConsistent(s, ev);
    NotToClient(Step(s, ev).1, me);
  }

  // ----- the invariant -----

  /** `lu` and `ld` are the unbounded numbers of the packets in flight, of whatever session; `most`
      is the furthest that any session has got, so far as its answers tell. */
  ghost predicate Inv(w: World, me: Peer, writing: bool, file: seq<u8>, was: seq<u8>, q: nat, most: nat, lu: seq<nat>,
                      ld: seq<nat>) {
    var n := w.net;
    && Real(me) && Blocks(file) <= 0x1_0000
    && Serves(n.server, me, writing, file, q) && (Mine(n.server, me) ==> q <= most)
    && ClientAt(n.client, writing, file)
    && most <= n.client.at && most <= (if writing then Blocks(file) else Blocks(file) - 1)
    && Cap(n.client, file) <= most + 1
    && (n.client.at <= most + 1 || Overrun(n.client, writing, file, false))
    && UpLabels(n.up, lu, n.client) && Within(lu, 0, Cap(n.client, file))
    && DownLabels(n.down, ld, writing, file) && Within(ld, 0, most + 1)
    && (writing ==> w.disk == Overlaid(was, Prefix(file, most)))
  }

  /** A reader with all of the file is done for good. */
  predicate Finished(c: Client, file: seq<u8>) {
    c.Reader? && c.done && c.got == file
  }

  lemma DownGrows(down: seq<Packet>, ld: seq<nat>, out: seq<Sent>, me: Peer, writing: bool, file: seq<u8>, m: nat,
                  most: nat)
    returns (ld': seq<nat>)
    requires DownLabels(down, ld, writing, file) && Within(ld, 0, most)
    requires 1 <= m <= most && Says(out, me, writing, file, m)
    ensures DownLabels(down + SentTo(out, me), ld', writing, file) && Within(ld', 0, most)
  {
    var sent := SentTo(out, me);
    ld' := ld + Same(m, |sent|);
    forall i | |down| <= i < |down + sent|
      ensures (down + sent)[i].Error? || (ld'[i] >= 1 && (down + sent)[i] == DownWire(writing, file, ld'[i]))
    {
      assert (down + sent)[i] == sent[i - |down|] && sent[i - |down|] in sent;
    }
  }

  /** What is on the disk, when a session has come to block `q`. */
  lemma DiskCovered(was: seq<u8>, file: seq<u8>, most: nat, q: nat)
    ensures Overlaid(Overlaid(was, Prefix(file, most)), Prefix(file, q)) == Overlaid(was, Prefix(file, Max(most, q)))
  {
    var a, b := Prefix(file, most), Prefix(file, q);
    assert if q <= most then b == a[..|b|] else a == b[..|a|];
  }

  /** Somebody else's session turns the client away. */
  lemma TurnedAway(s: State, me: Peer, pkt: Packet, e: Env)
    requires Stranger(s, me)
    ensures var (s', out) := Received(s, me, pkt, e);
            s' == s && forall p :: p in SentTo(out, me) ==> p.Error?
  {
  }

  /** Client packet `d` at the server of a write: where its session is then, how far sessions
      have got, and which packet it answers with. */
  lemma WriteHears(s: State, me: Peer, file: seq<u8>, q: nat, most: nat, k: nat, d: nat, e: Env)
    returns (q': nat, most': nat, m: nat)
    requires Real(me) && Serves(s, me, true, file, q) && (Mine(s, me) ==> q <= most)
    requires d <= k && d <= Blocks(file) <= 0x1_0000 && most <= k && most <= Blocks(file)
    ensures var (s', out) := Received(s, me, UpWire(Writer(file, k), d), e);
            && Serves(s', me, true, file, q') && (Mine(s', me) ==> q' <= most')
            && most <= most' <= k && most' <= Blocks(file)
            && 1 <= m <= most' + 1 && Says(out, me, true, file, m)
            && (if Mine(s, me) && e.writeOk then s'.written == Prefix(file, q') && most' == Max(most, q')
                else most' == most)
  {
    q', most', m := q, most, 1;
    if s.handle.None? {
      q' := 0;
      IdleHears(s, me, true, file, Writer(file, k), d, e);
    } else if !Mine(s, me) {
      TurnedAway(s, me, UpWire(Writer(file, k), d), e);
    } else {
      q' := WriterHeard(s, me, file, q, k, d, e);
      most', m := Max(most, q'), q' + 1;
    }
  }

  lemma ReadHears(s: State, me: Peer, file: seq<u8>, q: nat, most: nat, c: Client, d: nat, e: Env)
    returns (q': nat, most': nat, m: nat)
    requires Real(me) && Serves(s, me, false, file, q) && (Mine(s, me) ==> q <= most)
    requires c.Reader? && d <= c.at && d <= Blocks(file) <= 0x1_0000 && most <= c.at && most < Blocks(file)
    requires e.contents == file && (e.dataAlloc || Blocks(file) == 1) && (Blocks(file) == 1 ==> d == 0)
    ensures var (s', out) := Received(s, me, UpWire(c, d), e);
            && Serves(s', me, false, file, q') && (Mine(s', me) ==> q' <= most')
            && most <= most' <= c.at && most' < Blocks(file)
            && 1 <= m <= most' + 1 && Says(out, me, false, file, m)
  {
    q', most', m := q, most, 1;
    if s.handle.None? {
      q' := 0;
      IdleHears(s, me, false, file, c, d, e);
    } else if !Mine(s, me) {
      TurnedAway(s, me, UpWire(c, d), e);
    } else {
      q' := ReaderHeard(s, me, file, q, c, d, e);
      most', m := if q' == q then most else Max(most, q'), q' + 1;
    }
  }

  lemma PacketHeard(w: World, me: Peer, writing: bool, file: seq<u8>, was: seq<u8>, q: nat, most: nat, lu: seq<nat>,
                    ld: seq<nat>, i: nat, e: Env)
    returns (q': nat, most': nat, lu': seq<nat>, ld': seq<nat>)
    requires Inv(w, me, writing, file, was, q, most, lu, ld) && i < |w.net.up| && !Finished(w.net.client, file)
    requires !writing ==> e.contents == file && (e.dataAlloc || Blocks(file) == 1)
    ensures Inv(Delivered(w, me, i, e), me, writing, file, was, q', most', lu', ld')
  {
    var c, m: nat := w.net.client, 0;
    if writing {
      assert UpWire(c, lu[i]) == UpWire(Writer(file, c.at), lu[i]);
      q', most', m := WriteHears(w.net.server, me, file, q, most, c.at, lu[i], e);
      DiskCovered(was, file, most, q');
    } else {
      q', most', m := ReadHears(w.net.server, me, file, q, most, c, lu[i], e);
    }
    lu' := Without(lu, i);
    LabelsWithout(lu, i, 0, Cap(w.net.client, file));
    UpWithout(w.net.up, lu, i, w.net.client);
    var out := Received(w.net.server, me, w.net.up[i], e).1;
    ld' := DownGrows(w.net.down, ld, out, me, writing, file, m, most' + 1);
  }

  lemma AsideHeard(w: World, me: Peer, writing: bool, file: seq<u8>, was: seq<u8>, q: nat, most: nat, lu: seq<nat>,
                   ld: seq<nat>, ev: Event)
    returns (ld': seq<nat>)
    requires Inv(w, me, writing, file, was, q, most, lu, ld) && Others(me, ev)
    ensures Inv(Elsewhere(w, me, ev), me, writing, file, was, q, most, lu, ld')
  {
    var s := w.net.server;
    var (s', out) := Step(s, ev);
    if Mine(s, me) {
      assert Silent(s, ev);
      ServerAside(s, me, writing, file, q, ev);
      ld' := DownGrows(w.net.down, ld, out, me, writing, file, q + 1, most + 1);
    } else {
      TheirsStays(s, me, ev);
      ld' := ld;
    }
  }

  lemma ClientHeard(w: World, me: Peer, writing: bool, file: seq<u8>, was: seq<u8>, q: nat, most: nat, lu: seq<nat>,
                    ld: seq<nat>, i: nat)
    requires Inv(w, me, writing, file, was, q, most, lu, ld) && i < |w.net.down|
    ensures Inv(Happens(w, me, ToClient(i)), me, writing, file, was, q, most, lu, Without(ld, i))
  {
    var c, p := w.net.client, w.net.down[i];
    var c' := Hears(c, p);
    LabelsWithout(ld, i, 0, most + 1);
    DownWithout(w.net.down, ld, i, writing, file);
    if !p.Error? {
      ClientHears(c, writing, file, ld[i], most, false);
    }
    UpKept(w.net.up, lu, c, c');
  }

  /** The network changes what is on its way up, or the client sends. */
  lemma UpChanged(w: World, me: Peer, writing: bool, file: seq<u8>, was: seq<u8>, q: nat, most: nat, lu: seq<nat>,
                  ld: seq<nat>, a: Action)
    returns (lu': seq<nat>)
    requires Inv(w, me, writing, file, was, q, most, lu, ld) && (a.ClientSends? || a.LoseUp? || a.CopyUp?)
    ensures Inv(Happens(w, me, a), me, writing, file, was, q, most, lu', ld)
  {
    var c := w.net.client;
    var cap := Cap(c, file);
    match a {
      case ClientSends =>
        lu' := lu + Same(cap, |Offer(c)|);
        AppendTop(lu, |Offer(c)|, 0, cap, cap);
      case LoseUp(i) =>
        lu' := Without(lu, i);
        LabelsWithout(lu, i, 0, cap);
        UpWithout(w.net.up, lu, i, c);
      case CopyUp(i) =>
        lu' := Twice(lu, i);
        LabelsTwice(lu, i, 0, cap);
        UpTwice(w.net.up, lu, i, c);
    }
    assert UpLabels(Act(w.net, me, a).up, lu', c);
  }

  lemma DownChanged(w: World, me: Peer, writing: bool, file: seq<u8>, was: seq<u8>, q: nat, most: nat, lu: seq<nat>,
                    ld: seq<nat>, a: Action)
    returns (ld': seq<nat>)
    requires Inv(w, me, writing, file, was, q, most, lu, ld) && (a.LoseDown? || a.CopyDown?)
    ensures Inv(Happens(w, me, a), me, writing, file, was, q, most, lu, ld')
  {
    match a {
      case LoseDown(i) =>
        ld' := Without(ld, i);
        LabelsWithout(ld, i, 0, most + 1);
        DownWithout(w.net.down, ld, i, writing, file);
      case CopyDown(i) =>
        ld' := Twice(ld, i);
        LabelsTwice(ld, i, 0, most + 1);
        DownTwice(w.net.down, ld, i, writing, file);
    }
  }

  lemma WorldStep(w: World, me: Peer, writing: bool, file: seq<u8>, was: seq<u8>, q: nat, most: nat, lu: seq<nat>,
                  ld: seq<nat>, a: Action, free: bool)
    returns (q': nat, most': nat, lu': seq<nat>, ld': seq<nat>)
    requires Inv(w, me, writing, file, was, q, most, lu, ld) && !Finished(w.net.client, file)
    requires Steady(a, writing, file, free) && (writing || free || Blocks(file) == 1)
    ensures Inv(Happens(w, me, a), me, writing, file, was, q', most', lu', ld')
  {
    q', most', lu', ld' := q, most, lu, ld;
    if a.ToServer? {
      if a.i < |w.net.up| {
        q', most', lu', ld' := PacketHeard(w, me, writing, file, was, q, most, lu, ld, a.i, a.env);
      }
    } else if a.ToClient? {
      if a.i < |w.net.down| {
        ClientHeard(w, me, writing, file, was, q, most, lu, ld, a.i);
        ld' := Without(ld, a.i);
      }
    } else if a.Aside? {
      if Others(me, a.ev) {
        ld' := AsideHeard(w, me, writing, file, was, q, most, lu, ld, a.ev);
      }
    } else if a.LoseDown? || a.CopyDown? {
      ld' := DownChanged(w, me, writing, file, was, q, most, lu, ld, a);
    } else {
      lu' := UpChanged(w, me, writing, file, was, q, most, lu, ld, a);
    }
  }

  // ----- whole runs -----

  lemma FinishedStays(w: World, me: Peer, file: seq<u8>, a: Action)
    requires Finished(w.net.client, file)
    ensures Finished(Happens(w, me, a).net.client, file)
  {
  }

  lemma {:induction false} RunKept(w: World, me: Peer, writing: bool, file: seq<u8>, was: seq<u8>, q: nat, most: nat,
                                   lu: seq<nat>, ld: seq<nat>, acts: seq<Action>, free: bool)
    returns (q': nat, most': nat, lu': seq<nat>, ld': seq<nat>)
    requires Finished(w.net.client, file) || Inv(w, me, writing, file, was, q, most, lu, ld)
    requires AllSteady(acts, writing, file, free) && (writing || free || Blocks(file) == 1)
    ensures var w' := AllHappen(w, me, acts);
            Finished(w'.net.client, file) || Inv(w', me, writing, file, was, q', most', lu', ld')
    decreases |acts|
  {
    q', most', lu', ld' := q, most, lu, ld;
    if acts != [] {
      assert Steady(acts[0], writing, file, free);
      assert AllSteady(acts[1..], writing, file, free) by {
        forall i | 0 <= i < |acts[1..]| ensures Steady(acts[1..][i], writing, file, free) {
          assert Steady(acts[i + 1], writing, file, free);
        }
      }
      if Finished(w.net.client, file) {
        FinishedStays(w, me, file, acts[0]);
      } else {
        q', most', lu', ld' := WorldStep(w, me, writing, file, was, q, most, lu, ld, acts[0], free);
      }
      var w1, rest := Happens(w, me, acts[0]), acts[1..];
      q', most', lu', ld' := RunKept(w1, me, writing, file, was, q', most', lu', ld', rest, free);
    }
  }

  lemma FreshInv(w: World, me: Peer, writing: bool, file: seq<u8>)
    requires Fresh(w, me, writing, file) && Blocks(file) <= 0x1_0000
    ensures Inv(w, me, writing, file, w.disk, 0, 0, [], [])
  {
    assert Prefix(file, 0) == [];
    assert Overlaid(w.disk, []) == w.disk;
  }

  /** Writes, whatever comes late, from whom, and however often the file is opened again: every
      session writes blocks of the file from its start; the disk always holds what it held,
      covered with the first so many blocks of the file; and a client that saw the end of its
      transfer has all of the file on the disk, and no later session changes that. */
  lemma WritesSafe(w: World, me: Peer, file: seq<u8>, acts: seq<Action>)
    requires Fresh(w, me, true, file) && Small(true, file)
    ensures var w' := AllHappen(w, me, acts);
            && (Mine(w'.net.server, me) ==> exists q :: w'.net.server.written == Prefix(file, q))
            && (exists most :: w'.disk == Overlaid(w.disk, Prefix(file, most)))
            && (ClientDone(w'.net, file) ==> w'.disk == Overlaid(w.disk, file))
  {
    FreshInv(w, me, true, file);
    var q, most, lu, ld := RunKept(w, me, true, file, w.disk, 0, 0, [], [], acts, true);
    var w' := AllHappen(w, me, acts);
    assert !Finished(w'.net.client, file) by { WriterStays(w, me, acts); }
    if ClientDone(w'.net, file) {
      assert Prefix(file, most) == file;
    }
  }

  /** A client that writes goes on writing, and one that is done stays so. */
  lemma {:induction false} WriterStays(w: World, me: Peer, acts: seq<Action>)
    requires w.net.client.Writer?
    ensures var c := AllHappen(w, me, acts).net.client;
            c.Writer? && c.file == w.net.client.file && c.at >= w.net.client.at
            && (w.net.client.at == Blocks(c.file) + 1 ==> c == w.net.client)
    decreases |acts|
  {
    if acts != [] {
      WriterStays(Happens(w, me, acts[0]), me, acts[1..]);
    }
  }

  // ----- how a read is torn -----

  function Well(file: seq<u8>): Env {
    Env(true, file, true, true, true, true)
  }

  ghost predicate Reaches(w0: World, me: Peer, file: seq<u8>, w: World) {
    exists acts :: AllSteady(acts, false, file, false) && AllHappen(w0, me, acts) == w
  }

  lemma {:induction false} AllHappenLast(w: World, me: Peer, acts: seq<Action>, a: Action)
    ensures AllHappen(w, me, acts + [a]) == Happens(AllHappen(w, me, acts), me, a)
    decreases |acts|
  {
    if acts == [] {
      assert ([] + [a])[1..] == [];
      assert AllHappen(Happens(w, me, a), me, []) == Happens(w, me, a);
    } else {
      assert (acts + [a])[1..] == acts[1..] + [a];
      AllHappenLast(Happens(w, me, acts[0]), me, acts[1..], a);
    }
  }

  lemma OneMore(w0: World, me: Peer, file: seq<u8>, w: World, a: Action)
    requires Reaches(w0, me, file, w) && Steady(a, false, file, false)
    ensures Reaches(w0, me, file, Happens(w, me, a))
  {
    var acts :| AllSteady(acts, false, file, false) && AllHappen(w0, me, acts) == w;
    AllHappenLast(w0, me, acts, a);
    assert AllSteady(acts + [a], false, file, false);
  }

  /** The reader's packet number `d`. */
  function AckOf(d: nat): Packet {
    UpWire(Reader(0, [], false), d)
  }

  lemma AnyReader(c: Client, d: nat)
    requires c.Reader?
    ensures UpWire(c, d) == AckOf(d)
  {
  }

  /** The reader's packets `from` to `to - 1`, which wait on their way to the server. */
  function Waiting(from: nat, to: nat): (up: seq<Packet>)
    requires from <= to
    ensures |up| == to - from && forall i :: 0 <= i < to - from ==> up[i] == AckOf(from + i)
  {
    seq(to - from, i requires 0 <= i < to - from => AckOf(from + i))
  }

  lemma WaitingMore(from: nat, to: nat, c: Client)
    requires from <= to && c.Reader?
    ensures Waiting(from, to) + [UpWire(c, to)] == Waiting(from, to + 1)
  {
    AnyReader(c, to);
  }

  lemma WaitingFewer(from: nat, to: nat, c: Client)
    requires from < to && c.Reader?
    ensures Waiting(from, to)[0] == UpWire(c, from)
    ensures Without(Waiting(from, to), 0) == Waiting(from + 1, to)
  {
    AnyReader(c, from);
    var up, fewer := Waiting(from, to), Waiting(from + 1, to);
    forall i | 0 <= i < |fewer| ensures up[i + 1] == fewer[i] {
      assert from + (i + 1) == (from + 1) + i;
    }
    assert up[..0] + up[1..] == fewer;
  }

  /** The reader has block `k`, which the server sent last, and one of each of its packets waits. */
  predicate AtBlock(w: World, me: Peer, file: seq<u8>, k: nat) {
    && k >= 1 && w.net.client == Reader(k, Prefix(file, k), false)
    && w.net.up == Waiting(0, k + 1)
    && ServerAt(w.net.server, me, false, file, k - 1) && w.net.server.handle.Some? && w.net.server.lastData.Some?
  }

  /** The client sends a packet, and the server takes it before all others. */
  lemma Passed(w: World, me: Peer, p: Packet, e: Env)
    requires Offer(w.net.client) == [p] && !(Mine(w.net.server, me) && w.net.server.modeWrite)
    ensures var (s', out) := Received(w.net.server, me, p, e);
            Happens(Happens(w, me, ClientSends), me, ToServer(|w.net.up|, e))
            == w.(net := w.net.(server := s', down := w.net.down + SentTo(out, me)))
  {
    var up := w.net.up + [p];
    assert up[|w.net.up|] == p && up[..|w.net.up|] + up[|w.net.up| + 1..] == w.net.up;
  }

  /** The client hears the latest packet. */
  lemma LatestHeard(w: World, me: Peer, p: Packet)
    requires w.net.down != [] && w.net.down[|w.net.down| - 1] == p
    ensures Happens(w, me, ToClient(|w.net.down| - 1)).net
            == w.net.(client := Hears(w.net.client, p), down := w.net.down[..|w.net.down| - 1])
    ensures Happens(w, me, ToClient(|w.net.down| - 1)).disk == w.disk
  {
  }

  lemma Asked(w0: World, me: Peer, file: seq<u8>) returns (w: World)
    requires Fresh(w0, me, false, file)
    ensures Reaches(w0, me, file, w) && w.net.up == [Request(false, true)]
    ensures w.net.down == [] && w.net.client == w0.net.client && w.net.server == w0.net.server
  {
    assert AllSteady([], false, file, false) && AllHappen(w0, me, []) == w0;
    OneMore(w0, me, file, w0, ClientSends);
    w := Happens(w0, me, ClientSends);
  }

  lemma Opened(s: State, me: Peer, file: seq<u8>)
    requires Consistent(s) && s.handle.None? && Blocks(file) >= 2
    ensures var (s', out) := Received(s, me, Request(false, true), Well(file));
            && ServerAt(s', me, false, file, 0) && s'.handle.Some? && s'.lastData.Some?
            && SentTo(out, me) == [Data(1, Block(file, 1))]
  {
    StepConsistent(s, Packet(me, Request(false, true), Well(file)));
    ReadOpens(s, me, Well(file));
    var out := Received(s, me, Request(false, true), Well(file)).1;
    assert out[1..] == [];
    assert SentTo(out, me) == [Data(1, Block(file, 1))] + SentTo([], me);
  }

  lemma FirstHeard(file: seq<u8>)
    requires Blocks(file) >= 2
    ensures Hears(Reader(0, [], false), Data(1, Block(file, 1))) == Reader(1, Prefix(file, 1), false)
  {
    BlockSize(file, 1);
    PrefixGrows(file, 0);
  }

  /** A first read begins; its request waits in the network once more. */
  lemma FirstBlock(w0: World, me: Peer, file: seq<u8>) returns (w: World)
    requires Fresh(w0, me, false, file) && Blocks(file) >= 2
    ensures Reaches(w0, me, file, w) && AtBlock(w, me, file, 1)
  {
    var e, p := Well(file), Data(1, Block(file, 1));
    var w1 := Asked(w0, me, file);
    OneMore(w0, me, file, w1, ClientSends);
    OneMore(w0, me, file, Happens(w1, me, ClientSends), ToServer(1, e));
    var w2 := Happens(Happens(w1, me, ClientSends), me, ToServer(1, e));
    Passed(w1, me, Request(false, true), e);
    Opened(w1.net.server, me, file);
    assert w2.net.down == [] + [p] == [p];
    OneMore(w0, me, file, w2, ToClient(0));
    var w3 := Happens(w2, me, ToClient(0));
    LatestHeard(w2, me, p);
    FirstHeard(file);
    OneMore(w0, me, file, w3, ClientSends);
    w := Happens(w3, me, ClientSends);
    WaitingMore(0, 1, w3.net.client);
    assert Waiting(0, 1) == [Request(false, true)];
  }

  lemma Advance(w0: World, w: World, me: Peer, file: seq<u8>, k: nat) returns (w': World)
    requires Reaches(w0, me, file, w) && AtBlock(w, me, file, k) && k + 1 < Blocks(file)
    ensures Reaches(w0, me, file, w') && AtBlock(w', me, file, k + 1)
  {
    var e, c, n := Well(file), w.net.client, |w.net.up|;
    OneMore(w0, me, file, w, ClientSends);
    OneMore(w0, me, file, Happens(w, me, ClientSends), ToServer(n, e));
    var w1 := Happens(Happens(w, me, ClientSends), me, ToServer(n, e));
    Passed(w, me, UpWire(c, k), e);
    TftpLimit.ReaderServed(w.net.server, me, file, k - 1, c, e);
    var p := DownWire(false, file, k + 1);
    assert w1.net.down == w.net.down + [p];
    OneMore(w0, me, file, w1, ToClient(|w.net.down|));
    var w2 := Happens(w1, me, ToClient(|w.net.down|));
    LatestHeard(w1, me, p);
    TftpLimit.ClientTakesNext(false, file, k);
    OneMore(w0, me, file, w2, ClientSends);
    w' := Happens(w2, me, ClientSends);
    WaitingMore(0, k + 1, w2.net.client);
  }

  lemma {:induction false} ReadUpTo(w0: World, me: Peer, file: seq<u8>, k: nat) returns (w: World)
    requires Fresh(w0, me, false, file) && 1 <= k < Blocks(file)
    ensures Reaches(w0, me, file, w) && AtBlock(w, me, file, k)
  {
    if k == 1 {
      w := FirstBlock(w0, me, file);
    } else {
      w := ReadUpTo(w0, me, file, k - 1);
      w := Advance(w0, w, me, file, k - 1);
    }
  }

  /** A later session, whose server found no buffer for its first block: it is `j` acknowledgements
      on, and a block behind them. */
  predicate BehindAt(s: State, me: Peer, file: seq<u8>, j: nat) {
    && Mine(s, me) && !s.modeWrite && s.handle == Some(Handle(file, MAX_PAYLOAD * j))
    && s.blknum == (j + 1) % 0x1_0000
    && s.lastData == if j == 0 then None else Some(Data((j + 1) % 0x1_0000, Block(file, j)))
  }

  predicate Behind(w: World, me: Peer, file: seq<u8>, j: nat) {
    var last := Blocks(file) - 1;
    && j <= last && w.net.client == Reader(last, Prefix(file, last), false)
    && w.net.up == Waiting(j + 1, last + 1)
    && BehindAt(w.net.server, me, file, j)
    && (j > 0 ==> w.net.down != [] && Some(w.net.down[|w.net.down| - 1]) == w.net.server.lastData)
  }

  lemma ServerBehind(s: State, me: Peer, file: seq<u8>, j: nat, c: Client)
    requires BehindAt(s, me, file, j) && j + 1 < Blocks(file) && c.Reader?
    ensures var (s', out) := Received(s, me, UpWire(c, j + 1), Well(file));
            BehindAt(s', me, file, j + 1) && SentTo(out, me) == [s'.lastData.value]
  {
    var e := Well(file);
    BlockSize(file, j + 1);
    if j > 0 {
      BlockSize(file, j);
    }
    var t := s.(lastPkt := s.timer, retries := 0);
    assert Received(s, me, UpWire(c, j + 1), e) == GotAck(t, me, s.blknum, e);
    assert NextBlock(s.blknum) == (j + 2) % 0x1_0000;
    assert Chunk(s.handle.value) == Block(file, j + 1);
    var (s', out) := Received(s, me, UpWire(c, j + 1), e);
    assert out == [Sent(me, s'.lastData.value)] && out[1..] == [];
    assert SentTo(out, me) == [s'.lastData.value] + SentTo([], me);
  }

  /** The first session ends on a failed read, and the request that waits opens another. */
  lemma Reopens(w0: World, w: World, me: Peer, file: seq<u8>) returns (w': World)
    requires Real(me) && Reaches(w0, me, file, w) && AtBlock(w, me, file, Blocks(file) - 1)
    ensures Reaches(w0, me, file, w') && Behind(w', me, file, 0)
  {
    var bad, noBuffer := Well(file).(readOk := false), Well(file).(dataAlloc := false);
    var k, n := Blocks(file) - 1, |w.net.up|;
    OneMore(w0, me, file, w, ClientSends);
    OneMore(w0, me, file, Happens(w, me, ClientSends), ToServer(n, bad));
    var w1 := Happens(Happens(w, me, ClientSends), me, ToServer(n, bad));
    Passed(w, me, UpWire(w.net.client, k), bad);
    BlockSize(file, k);
    assert w1.net.server.handle.None?;
    StepConsistent(w.net.server, Packet(me, UpWire(w.net.client, k), bad));
    OneMore(w0, me, file, w1, ToServer(0, noBuffer));
    w' := Happens(w1, me, ToServer(0, noBuffer));
    WaitingFewer(0, k + 1, w.net.client);
  }

  /** An acknowledgement of the first session moves the second on, without the block it is of. */
  lemma FallsBehind(w0: World, w: World, me: Peer, file: seq<u8>, j: nat) returns (w': World)
    requires Reaches(w0, me, file, w) && Behind(w, me, file, j) && j + 1 < Blocks(file)
    ensures Reaches(w0, me, file, w') && Behind(w', me, file, j + 1)
  {
    OneMore(w0, me, file, w, ToServer(0, Well(file)));
    w' := Happens(w, me, ToServer(0, Well(file)));
    WaitingFewer(j + 1, Blocks(file), w.net.client);
    ServerBehind(w.net.server, me, file, j, w.net.client);
  }

  lemma {:induction false} BehindUpTo(w0: World, w: World, me: Peer, file: seq<u8>, j: nat) returns (w': World)
    requires Reaches(w0, me, file, w) && Behind(w, me, file, 0) && j < Blocks(file)
    ensures Reaches(w0, me, file, w') && Behind(w', me, file, j)
  {
    w' := w;
    if j > 0 {
      w' := BehindUpTo(w0, w, me, file, j - 1);
      w' := FallsBehind(w0, w', me, file, j - 1);
    }
  }

  /** The client takes the block before the last for the last, and holds more than the file. */
  lemma Torn(w0: World, me: Peer, file: seq<u8>) returns (acts: seq<Action>)
    requires Fresh(w0, me, false, file) && Blocks(file) >= 2
    ensures AllSteady(acts, false, file, false) && !Safe(AllHappen(w0, me, acts).net, file)
  {
    var k := Blocks(file) - 1;
    var w := ReadUpTo(w0, me, file, k);
    w := Reopens(w0, w, me, file);
    w := BehindUpTo(w0, w, me, file, k);
    BlockSize(file, k);
    LatestHeard(w, me, w.net.server.lastData.value);
    OneMore(w0, me, file, w, ToClient(|w.net.down| - 1));
    w := Happens(w, me, ToClient(|w.net.down| - 1));
    assert |w.net.client.got| == MAX_PAYLOAD * (k + 1) > |file|;
    assert forall q :: |Prefix(file, q)| <= |file|;
    acts :| AllSteady(acts, false, file, false) && AllHappen(w0, me, acts) == w;
  }

  /** Exactly when reads of a small file are safe, whatever comes late, from whom, and however
      often the file is opened again: when the server finds a buffer for every block, or the
      file is one block only. */
  lemma ReadsSafe(w: World, me: Peer, file: seq<u8>, free: bool)
    requires Fresh(w, me, false, file) && Small(false, file)
    ensures (forall acts :: AllSteady(acts, false, file, free) ==> Safe(AllHappen(w, me, acts).net, file)) <==>
              free || Blocks(file) == 1
  {
    if free || Blocks(file) == 1 {
      FreshInv(w, me, false, file);
      forall acts | AllSteady(acts, false, file, free) ensures Safe(AllHappen(w, me, acts).net, file) {
        var q, most, lu, ld := RunKept(w, me, false, file, w.disk, 0, 0, [], [], acts, free);
        var c := AllHappen(w, me, acts).net.client;
        assert Prefix(file, Blocks(file)) == file;
        assert c.Reader? && c.got == Prefix(file, if Finished(c, file) then Blocks(file) else c.at);
      }
    } else {
      var acts := Torn(w, me, file);
    }
  }
}
