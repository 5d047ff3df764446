/** One TFTP transfer end to end: a stop-and-wait client, the server, and the network
    between them, which may lose and repeat datagrams at will. Only the wire's 16-bit block
    numbers travel. Two theorems: on a network that keeps the order, files of any length are
    carried without a block repeated, skipped or torn, although the numbers wrap; on a network
    that also reorders, writes of at most 65535 full blocks and reads of at most 65536 blocks are. */
module TftpTransfer {
  import opened Words
  import opened TftpServer
  import opened TftpSession

  /** A client writing `file`, or reading one. `at` counts the steps done: a writer at `at`
      waits for ACK `at` (0 answers its request), a reader at `at` has received `at` blocks. */
  datatype Client =
    | Writer(file: seq<u8>, at: nat)
    | Reader(at: nat, got: seq<u8>, done: bool)

  /** `up` carries packets to the server and `down` to the client, oldest first. */
  datatype Net = Net(server: State, client: Client, up: seq<Packet>, down: seq<Packet>)

  datatype Action =
    | ClientSends
    | LoseUp(i: nat) | LoseDown(i: nat)
    | CopyUp(i: nat) | CopyDown(i: nat)
    | ToServer(i: nat, env: Env)
    | ToClient(i: nat)
    | Aside(ev: Event) // a timer expiry, or a packet from somebody else

  /** The client's packet number `d`; 0 is its request. */
  function UpWire(c: Client, d: nat): Packet {
    match c
    case Writer(file, _) => if d == 0 then Request(true, true) else Data(d % 0x1_0000, Block(file, d))
    case Reader(_, _, _) => if d == 0 then Request(false, true) else Ack(d % 0x1_0000)
  }

  /** The server's packet that moves the client from `m - 1` to `m`. */
  function DownWire(writing: bool, file: seq<u8>, m: nat): Packet
    requires m >= 1
  {
    if writing then Ack((m - 1) % 0x1_0000) else Data(m % 0x1_0000, Block(file, m))
  }

  /** The packet the client sends, and repeats until it is answered. */
  function Offer(c: Client): seq<Packet> {
    if c.Writer? && c.at > Blocks(c.file) then [] else [UpWire(c, c.at)]
  }

  /** The client looks at 16-bit numbers only. */
  function Hears(c: Client, p: Packet): Client {
    match c
    case Writer(file, k) =>
      if k <= Blocks(file) && p == Ack(k % 0x1_0000) then Writer(file, k + 1) else c
    case Reader(r, got, done) =>
      if !done && p.Data? && p.blk == (r + 1) % 0x1_0000
      then Reader(r + 1, got + p.payload, |p.payload| < MAX_PAYLOAD) else c
  }

  function Without<T>(s: seq<T>, i: nat): seq<T> {
    if i < |s| then s[..i] + s[i + 1..] else s
  }

  function Twice<T>(s: seq<T>, i: nat): seq<T> {
    if i < |s| then s[..i + 1] + s[i..] else s
  }

  /** Once the session is closed the transfer is over, and the server is left alone. */
  function Act(n: Net, me: Peer, a: Action): Net {
    match a
    case ClientSends => n.(up := n.up + Offer(n.client))
    case LoseUp(i) => n.(up := Without(n.up, i))
    case LoseDown(i) => n.(down := Without(n.down, i))
    case CopyUp(i) => n.(up := Twice(n.up, i))
    case CopyDown(i) => n.(down := Twice(n.down, i))
    case ToServer(i, env) =>
      if i >= |n.up| then n
      else if n.server.handle.None? then n.(up := Without(n.up, i))
      else
        var (s, out) := Received(n.server, me, n.up[i], env);
        n.(server := s, up := Without(n.up, i), down := n.down + SentTo(out, me))
    case ToClient(i) =>
      if i >= |n.down| then n
      else n.(client := Hears(n.client, n.down[i]), down := Without(n.down, i))
    case Aside(ev) =>
      if n.server.handle.None? || !Silent(n.server, ev) then n
      else
        var (s, out) := Step(n.server, ev);
        n.(server := s, down := n.down + SentTo(out, me))
  }

  function Acts(n: Net, me: Peer, acts: seq<Action>): Net
    decreases |acts|
  {
    if acts == [] then n else Acts(Act(n, me, acts[0]), me, acts[1..])
  }

  /** The network hands over the oldest packet only. */
  predicate InOrder(acts: seq<Action>) {
    forall i :: 0 <= i < |acts| ==> Oldest(acts[i])
  }

  predicate Oldest(a: Action) {
    (a.ToServer? ==> a.i == 0) && (a.ToClient? ==> a.i == 0)
  }

  // ----- the invariant -----

  /** The first `q` blocks of a file. */
  function Prefix(file: seq<u8>, q: nat): seq<u8> {
    file[..Min(MAX_PAYLOAD * q, |file|)]
  }

  lemma PrefixGrows(file: seq<u8>, q: nat)
    requires q < Blocks(file)
    ensures Prefix(file, q) + Block(file, q + 1) == Prefix(file, q + 1)
    ensures Prefix(file, Blocks(file)) == file
  {
    assert Prefix(file, Blocks(file)) == file;
  }

  /** The server has moved `q` times: `q` blocks taken in a write, `q` acknowledged in a read. */
  predicate ServerAt(s: State, me: Peer, writing: bool, file: seq<u8>, q: nat) {
    && Consistent(s)
    && (writing ==> q <= Blocks(file) && s.written == Prefix(file, q))
    && (s.handle.Some? ==>
          && s.modeWrite == writing
          && SessionPeer(s) == me
          && q < Blocks(file)
          && s.blknum == (q + 1) % 0x1_0000
          && (writing ==> s.lastData.None?)
          && (!writing ==>
                && s.handle.value == Handle(file, Min(MAX_PAYLOAD * (if s.lastData.Some? then q + 1 else q), |file|))
                && (s.lastData.Some? ==> s.lastData.value == DownWire(false, file, q + 1))))
  }

  /** The highest packet the server has sent: no packet buffer, no block `q + 1`. */
  function Top(s: State, q: nat): nat {
    if s.handle.Some? && !s.modeWrite && s.lastData.None? then q else q + 1
  }

  predicate ClientAt(c: Client, writing: bool, file: seq<u8>) {
    && c.Writer? == writing
    && (writing ==> c.file == file)
    && (!writing ==> c.at <= Blocks(file) && c.got == Prefix(file, c.at) && (c.done <==> c.at == Blocks(file)))
  }

  predicate Within(labels: seq<nat>, lo: nat, hi: nat) {
    forall i :: 0 <= i < |labels| ==> lo <= labels[i] <= hi
  }

  predicate Ordered(labels: seq<nat>) {
    forall i, j :: 0 <= i < j < |labels| ==> labels[i] <= labels[j]
  }

  predicate UpLabels(up: seq<Packet>, lu: seq<nat>, c: Client) {
    |up| == |lu| && forall i :: 0 <= i < |up| ==> up[i] == UpWire(c, lu[i])
  }

  predicate DownLabels(down: seq<Packet>, ld: seq<nat>, writing: bool, file: seq<u8>) {
    && |down| == |ld|
    && forall i :: 0 <= i < |down| ==> down[i].Error? || (ld[i] >= 1 && down[i] == DownWire(writing, file, ld[i]))
  }

  /** The client's highest packet. */
  function Cap(c: Client, file: seq<u8>): nat {
    Min(c.at, Blocks(file))
  }

  /** A writer of 65536 blocks took an old answer to its request for its last acknowledgement. */
  predicate Overrun(c: Client, writing: bool, file: seq<u8>, fifo: bool) {
    writing && !fifo && Blocks(file) == 0x1_0000 && c.at == Blocks(file) + 1
  }

  /** `lu` and `ld` are the unbounded numbers of the packets in flight. With `fifo` they never
      fall back behind the other side; without it the file is short enough not to wrap. */
  predicate Inv(n: Net, me: Peer, writing: bool, file: seq<u8>, q: nat, lu: seq<nat>, ld: seq<nat>, fifo: bool) {
    var c := n.client.at;
    && ServerAt(n.server, me, writing, file, q)
    && ClientAt(n.client, writing, file)
    && q <= c && Cap(n.client, file) <= Top(n.server, q)
    && (c <= Top(n.server, q) || Overrun(n.client, writing, file, fifo))
    && UpLabels(n.up, lu, n.client)
    && DownLabels(n.down, ld, writing, file)
    && Within(lu, if fifo then q else 0, Cap(n.client, file))
    && Within(ld, if fifo then c else 0, Top(n.server, q))
    && (fifo ==> Ordered(lu) && Ordered(ld))
    && (!fifo ==> Blocks(file) <= 0x1_0000)
  }

  // ----- the server's and the client's part -----

  /** The server told packet `d` from packet `q + 1` by its 16-bit number. */
  lemma NumberDecides(d: nat, q: nat, blocks: nat)
    requires d <= q + 1 && (q <= d || (0 < d && q < blocks <= 0x1_0000))
    ensures d % 0x1_0000 == (q + 1) % 0x1_0000 <==> d == q + 1
    ensures NextBlock(d % 0x1_0000) == (q + 1) % 0x1_0000 <==> d == q
  {
  }

  /** Where the server stands after client packet `d`, and what it answers. */
  function Moved(s: State, s': State, writing: bool, q: nat, d: nat): nat {
    if d == q + 1 && (writing || s'.handle.Some?) then q + 1 else q
  }

  predicate Answers(out: seq<Sent>, me: Peer, writing: bool, file: seq<u8>, top: nat, moved: nat) {
    forall p :: p in SentTo(out, me) ==> p.Error? || (top == moved + 1 && p == DownWire(writing, file, moved + 1))
  }

  lemma WriteServerTakes(s: State, me: Peer, file: seq<u8>, q: nat, k: nat, e: Env)
    requires ServerAt(s, me, true, file, q) && s.handle.Some?
    ensures var (s', out) := Received(s, me, UpWire(Writer(file, k), q + 1), e);
            && ServerAt(s', me, true, file, q + 1)
            && SentTo(out, me)
               == SentTo(if e.writeOk then AckTo(me, s.blknum, e) else ErrorTo(me, ACCESS_VIOLATION, e), me)
            && (s'.handle.None? && e.writeOk ==> q + 1 == Blocks(file))
  {
    var b := Block(file, q + 1);
    var t := s.(lastPkt := s.timer, retries := 0);
    StepConsistent(s, Packet(me, UpWire(Writer(file, k), q + 1), e));
    assert Received(s, me, UpWire(Writer(file, k), q + 1), e) == GotData(t, me, s.blknum, b, e);
    assert s.written + b == Prefix(file, q + 1) by { PrefixGrows(file, q); }
    assert |b| < MAX_PAYLOAD <==> q + 1 == Blocks(file) by { BlockSize(file, q + 1); }
    assert NextBlock(s.blknum) == (q + 2) % 0x1_0000;
  }

  lemma WriteServerHears(s: State, me: Peer, file: seq<u8>, q: nat, k: nat, d: nat, e: Env)
    requires ServerAt(s, me, true, file, q) && s.handle.Some?
    requires d <= q + 1 && (q <= d || Blocks(file) <= 0x1_0000)
    ensures var (s', out) := Received(s, me, UpWire(Writer(file, k), d), e);
            var q' := Moved(s, s', true, q, d);
            && ServerAt(s', me, true, file, q')
            && Top(s', q') == q' + 1
            && Answers(out, me, true, file, q' + 1, q')
            && (s'.handle.None? ==> d == q + 1 && (e.writeOk ==> q' == Blocks(file)))
  {
    if d == q + 1 {
      WriteServerTakes(s, me, file, q, k, e);
    } else {
      if d > 0 {
        NumberDecides(d, q, Blocks(file));
      }
      var (s', out) := Received(s, me, UpWire(Writer(file, k), d), e);
      assert s' == s.(lastPkt := s.timer, retries := 0);
      assert d == q || |SentTo(out, me)| == 0 || SentTo(out, me)[0].Error?;
    }
  }

  lemma ReadServerAdvances(s: State, me: Peer, file: seq<u8>, q: nat, c: Client, e: Env)
    requires ServerAt(s, me, false, file, q) && s.handle.Some? && s.lastData.Some? && c.Reader?
    ensures var (s', out) := Received(s, me, UpWire(c, q + 1), e);
            var q' := Moved(s, s', false, q, q + 1);
            && ServerAt(s', me, false, file, q')
            && Answers(out, me, false, file, Top(s', q'), q')
            && (s'.handle.None? && e.readOk ==> q + 1 == Blocks(file))
  {
    var t := s.(lastPkt := s.timer, retries := 0);
    BlockSize(file, q + 1);
    assert Received(s, me, UpWire(c, q + 1), e) == GotAck(t, me, s.blknum, e);
    if q + 1 < Blocks(file) {
      assert Chunk(s.handle.value) == Block(file, q + 2);
      assert NextBlock(s.blknum) == (q + 2) % 0x1_0000;
      assert s.handle.value.pos + |Block(file, q + 2)| == Min(MAX_PAYLOAD * (q + 2), |file|);
      assert Received(s, me, UpWire(c, q + 1), e) == DataSent(t.(blknum := (q + 2) % 0x1_0000), e);
    }
  }

  lemma ReadServerHears(s: State, me: Peer, file: seq<u8>, q: nat, c: Client, d: nat, e: Env)
    requires ServerAt(s, me, false, file, q) && s.handle.Some? && c.Reader?
    requires d <= Top(s, q) && (q <= d || Blocks(file) <= 0x1_0000)
    ensures var (s', out) := Received(s, me, UpWire(c, d), e);
            var q' := Moved(s, s', false, q, d);
            && ServerAt(s', me, false, file, q')
            && Answers(out, me, false, file, Top(s', q'), q')
            && (d != q + 1 ==> s'.handle.Some? && s'.lastData == s.lastData)
            && (s'.handle.None? && e.readOk ==> q + 1 == Blocks(file))
  {
    if d == q + 1 {
      ReadServerAdvances(s, me, file, q, c, e);
    } else {
      if d > 0 {
        NumberDecides(d, q, Blocks(file));
      }
      var (s', out) := Received(s, me, UpWire(c, d), e);
      assert s' == s.(lastPkt := s.timer, retries := 0);
      assert |SentTo(out, me)| == 0 || SentTo(out, me)[0].Error?;
    }
  }

  lemma ServerAside(s: State, me: Peer, writing: bool, file: seq<u8>, q: nat, ev: Event)
    requires ServerAt(s, me, writing, file, q) && s.handle.Some? && Silent(s, ev)
    ensures var (s', out) := Step(s, ev);
            && ServerAt(s', me, writing, file, q)
            && Answers(out, me, writing, file, Top(s, q), q)
            && (s'.handle.Some? ==> Top(s', q) == Top(s, q))
            && (s'.handle.None? ==> ev.Tick? && Patience(s) == 1)
  {
  }

  /** The client tells the acknowledgement of its latest packet by its 16-bit number. */
  lemma AckDecides(m: nat, at: nat)
    requires 1 <= m <= at + 1 && (at <= m || at < 0x1_0000)
    ensures (m - 1) % 0x1_0000 == at % 0x1_0000 <==> m == at + 1
  {
  }

  /** A client at `at` is moved by the server's packet `at + 1`, and by no other in flight; but
      for a writer at its last block of 65536, whose acknowledgement has an old number. */
  lemma ClientHears(c: Client, writing: bool, file: seq<u8>, m: nat, q: nat, fifo: bool)
    requires ClientAt(c, writing, file) && q <= c.at && m >= 1 && m <= q + 1
    requires fifo ==> c.at <= m
    requires !fifo ==> Blocks(file) <= 0x1_0000
    requires q <= Blocks(file) && (!writing ==> q < Blocks(file))
    ensures var c' := Hears(c, DownWire(writing, file, m));
            && ClientAt(c', writing, file)
            && (|| c'.at == (if m == c.at + 1 && (writing ==> c.at <= Blocks(file)) then c.at + 1 else c.at)
                || (Overrun(c', writing, file, fifo) && c.at == Blocks(file)))
  {
    if writing {
      if c.at <= Blocks(file) && (fifo || c.at < 0x1_0000) {
        AckDecides(m, c.at);
      }
    } else if c.at < Blocks(file) {
      NumberDecides(m, c.at, Blocks(file));
      if m == c.at + 1 {
        BlockSize(file, m);
        PrefixGrows(file, c.at);
      }
    }
  }

  // ----- the network's part -----

  lemma LabelsWithout(l: seq<nat>, i: nat, lo: nat, hi: nat)
    requires Within(l, lo, hi)
    ensures Within(Without(l, i), lo, hi)
    ensures Ordered(l) ==> Ordered(Without(l, i))
    ensures Ordered(l) && |l| > 0 ==> Within(Without(l, 0), l[0], hi)
  {
  }

  lemma LabelsTwice(l: seq<nat>, i: nat, lo: nat, hi: nat)
    requires Within(l, lo, hi)
    ensures Within(Twice(l, i), lo, hi)
    ensures Ordered(l) ==> Ordered(Twice(l, i))
  {
  }

  /** `n` more packets, all with the highest label. */
  function Same(l: nat, n: nat): (r: seq<nat>)
    ensures |r| == n && forall i :: 0 <= i < n ==> r[i] == l
  {
    seq(n, _ => l)
  }

  lemma AppendTop(l: seq<nat>, n: nat, lo: nat, hi: nat, hi': nat)
    requires Within(l, lo, hi) && lo <= hi' && hi <= hi'
    ensures Within(l + Same(hi', n), lo, hi')
    ensures Ordered(l) ==> Ordered(l + Same(hi', n))
  {
  }

  /** The server has moved from `q` to `q'` and answered with `out`. */
  lemma ServerMoved(n: Net, s': State, out: seq<Sent>, up': seq<Packet>, me: Peer, writing: bool, file: seq<u8>,
                    q: nat, q': nat, lu: seq<nat>, lu': seq<nat>, ld: seq<nat>, fifo: bool)
    returns (ld': seq<nat>)
    requires Inv(n, me, writing, file, q, lu, ld, fifo)
    requires ServerAt(s', me, writing, file, q') && q' <= n.client.at && Top(n.server, q) <= Top(s', q')
    requires Answers(out, me, writing, file, Top(s', q'), q')
    requires UpLabels(up', lu', n.client) && Within(lu', if fifo then q' else 0, Cap(n.client, file))
    requires fifo ==> Ordered(lu')
    ensures Inv(n.(server := s', up := up', down := n.down + SentTo(out, me)), me, writing, file, q', lu', ld', fifo)
  {
    var top, sent := Top(s', q'), SentTo(out, me);
    ld' := ld + Same(top, |sent|);
    AppendTop(ld, |sent|, if fifo then n.client.at else 0, Top(n.server, q), top);
    assert DownLabels(n.down + sent, ld', writing, file) by {
      forall i | |n.down| <= i < |n.down + sent|
        ensures (n.down + sent)[i].Error? || (ld'[i] >= 1 && (n.down + sent)[i] == DownWire(writing, file, ld'[i]))
      {
        assert (n.down + sent)[i] == sent[i - |n.down|] && sent[i - |n.down|] in sent;
      }
    }
  }

  lemma DeliverUp(n: Net, me: Peer, writing: bool, file: seq<u8>, q: nat, lu: seq<nat>, ld: seq<nat>, fifo: bool,
                  i: nat, e: Env)
    returns (q': nat, lu': seq<nat>, ld': seq<nat>)
    requires Inv(n, me, writing, file, q, lu, ld, fifo) && (fifo ==> i == 0)
    requires i < |n.up| && n.server.handle.Some?
    ensures Inv(Act(n, me, ToServer(i, e)), me, writing, file, q', lu', ld', fifo)
    ensures var s' := Act(n, me, ToServer(i, e)).server;
            s'.handle.None? && (if writing then e.writeOk else e.readOk) ==>
              (if writing then q' == Blocks(file) else n.client.at == Blocks(file))
  {
    var d := lu[i];
    var (s', out) := Received(n.server, me, n.up[i], e);
    if writing {
      WriteServerHears(n.server, me, file, q, n.client.at, d, e);
      assert UpWire(n.client, d) == UpWire(Writer(file, n.client.at), d);
    } else {
      ReadServerHears(n.server, me, file, q, n.client, d, e);
    }
    q' := Moved(n.server, s', writing, q, d);
    lu' := Without(lu, i);
    LabelsWithout(lu, i, if fifo then q else 0, Cap(n.client, file));
    ld' := ServerMoved(n, s', out, Without(n.up, i), me, writing, file, q, q', lu, lu', ld, fifo);
  }

  lemma DeliverDown(n: Net, me: Peer, writing: bool, file: seq<u8>, q: nat, lu: seq<nat>, ld: seq<nat>, fifo: bool,
                    i: nat)
    requires Inv(n, me, writing, file, q, lu, ld, fifo) && (fifo ==> i == 0) && i < |n.down|
    ensures Inv(Act(n, me, ToClient(i)), me, writing, file, q, lu, Without(ld, i), fifo)
  {
    var c, ld', m := Hears(n.client, n.down[i]), Without(ld, i), ld[i];
    LabelsWithout(ld, i, if fifo then n.client.at else 0, Top(n.server, q));
    DownWithout(n.down, ld, i, writing, file);
    if !n.down[i].Error? {
      if !writing && q == Blocks(file) {
        assert n.client.at == Blocks(file) && n.client.done;
      } else {
        ClientHears(n.client, writing, file, m, q, fifo);
      }
    }
    assert c.at == n.client.at || (c.at == n.client.at + 1 && m == c.at) || Overrun(c, writing, file, fifo);
    assert Within(ld', if fifo then c.at else 0, Top(n.server, q));
    UpKept(n.up, lu, n.client, c);
    assert Act(n, me, ToClient(i)) == n.(client := c, down := Without(n.down, i));
  }

  lemma DownWithout(down: seq<Packet>, ld: seq<nat>, i: nat, writing: bool, file: seq<u8>)
    requires DownLabels(down, ld, writing, file)
    ensures DownLabels(Without(down, i), Without(ld, i), writing, file)
  {
  }

  lemma DownTwice(down: seq<Packet>, ld: seq<nat>, i: nat, writing: bool, file: seq<u8>)
    requires DownLabels(down, ld, writing, file)
    ensures DownLabels(Twice(down, i), Twice(ld, i), writing, file)
  {
  }

  lemma UpWithout(up: seq<Packet>, lu: seq<nat>, i: nat, c: Client)
    requires UpLabels(up, lu, c)
    ensures UpLabels(Without(up, i), Without(lu, i), c)
  {
  }

  lemma UpTwice(up: seq<Packet>, lu: seq<nat>, i: nat, c: Client)
    requires UpLabels(up, lu, c)
    ensures UpLabels(Twice(up, i), Twice(lu, i), c)
  {
  }

  lemma UpKept(up: seq<Packet>, lu: seq<nat>, c: Client, c': Client)
    requires UpLabels(up, lu, c) && forall d :: UpWire(c', d) == UpWire(c, d)
    ensures UpLabels(up, lu, c')
  {
  }

  lemma Overheard(n: Net, me: Peer, writing: bool, file: seq<u8>, q: nat, lu: seq<nat>, ld: seq<nat>, fifo: bool,
                  ev: Event)
    returns (ld': seq<nat>)
    requires Inv(n, me, writing, file, q, lu, ld, fifo)
    requires n.server.handle.Some? && Silent(n.server, ev)
    ensures Inv(Act(n, me, Aside(ev)), me, writing, file, q, lu, ld', fifo)
  {
    ServerAside(n.server, me, writing, file, q, ev);
    var (s', out) := Step(n.server, ev);
    ld' := ServerMoved(n, s', out, n.up, me, writing, file, q, q, lu, lu, ld, fifo);
  }

  /** The way up changes: sending, losing, repeating. */
  lemma UpShuffled(n: Net, me: Peer, writing: bool, file: seq<u8>, q: nat, lu: seq<nat>, ld: seq<nat>, fifo: bool,
                   a: Action)
    returns (lu': seq<nat>)
    requires Inv(n, me, writing, file, q, lu, ld, fifo)
    requires a.ClientSends? || a.LoseUp? || a.CopyUp?
    ensures Inv(Act(n, me, a), me, writing, file, q, lu', ld, fifo)
  {
    var c, lo := Cap(n.client, file), if fifo then q else 0;
    match a {
      case ClientSends =>
        lu' := lu + Same(c, |Offer(n.client)|);
        AppendTop(lu, |Offer(n.client)|, lo, c, c);
      case LoseUp(i) =>
        lu' := Without(lu, i);
        LabelsWithout(lu, i, lo, c);
        UpWithout(n.up, lu, i, n.client);
      case CopyUp(i) =>
        lu' := Twice(lu, i);
        LabelsTwice(lu, i, lo, c);
        UpTwice(n.up, lu, i, n.client);
    }
    assert UpLabels(Act(n, me, a).up, lu', n.client);
  }

  /** The way down changes: losing, repeating. */
  lemma DownShuffled(n: Net, me: Peer, writing: bool, file: seq<u8>, q: nat, lu: seq<nat>, ld: seq<nat>, fifo: bool,
                     a: Action)
    returns (ld': seq<nat>)
    requires Inv(n, me, writing, file, q, lu, ld, fifo)
    requires a.LoseDown? || a.CopyDown?
    ensures Inv(Act(n, me, a), me, writing, file, q, lu, ld', fifo)
  {
    var lo := if fifo then n.client.at else 0;
    match a {
      case LoseDown(i) =>
        ld' := Without(ld, i);
        LabelsWithout(ld, i, lo, Top(n.server, q));
        DownWithout(n.down, ld, i, writing, file);
      case CopyDown(i) =>
        ld' := Twice(ld, i);
        LabelsTwice(ld, i, lo, Top(n.server, q));
        DownTwice(n.down, ld, i, writing, file);
    }
    assert DownLabels(Act(n, me, a).down, ld', writing, file);
  }

  lemma NetStep(n: Net, me: Peer, writing: bool, file: seq<u8>, q: nat, lu: seq<nat>, ld: seq<nat>, fifo: bool,
                a: Action)
    returns (q': nat, lu': seq<nat>, ld': seq<nat>)
    requires Inv(n, me, writing, file, q, lu, ld, fifo) && (fifo ==> Oldest(a))
    ensures Inv(Act(n, me, a), me, writing, file, q', lu', ld', fifo)
  {
    q', lu', ld' := q, lu, ld;
    if a.ToServer? {
      if a.i < |n.up| {
        if n.server.handle.Some? {
          q', lu', ld' := DeliverUp(n, me, writing, file, q, lu, ld, fifo, a.i, a.env);
        } else {
          assert Act(n, me, a) == Act(n, me, LoseUp(a.i));
          lu' := UpShuffled(n, me, writing, file, q, lu, ld, fifo, LoseUp(a.i));
        }
      }
    } else if a.ToClient? {
      if a.i < |n.down| {
        DeliverDown(n, me, writing, file, q, lu, ld, fifo, a.i);
        ld' := Without(ld, a.i);
      }
    } else if a.Aside? {
      if n.server.handle.Some? && Silent(n.server, a.ev) {
        ld' := Overheard(n, me, writing, file, q, lu, ld, fifo, a.ev);
      }
    } else if a.LoseDown? || a.CopyDown? {
      ld' := DownShuffled(n, me, writing, file, q, lu, ld, fifo, a);
    } else {
      lu' := UpShuffled(n, me, writing, file, q, lu, ld, fifo, a);
    }
  }

  // ----- whole transfers -----

  /** A transfer begins when an idle server opens the file; the client's request may still be
      in the network any number of times, and the answer may have been lost. */
  predicate Begins(n: Net, me: Peer, writing: bool, file: seq<u8>, s0: State, e: Env, copies: nat) {
    && Consistent(s0) && s0.handle.None?
    && (!writing ==> e.contents == file)
    && n.client == (if writing then Writer(file, 0) else Reader(0, [], false))
    && n.up == seq(copies, _ => Request(writing, true))
    && var (s, out) := Received(s0, me, Request(writing, true), e);
       n.server == s && n.down == SentTo(out, me) && s.handle.Some?
  }

  lemma BeginsInv(n: Net, me: Peer, writing: bool, file: seq<u8>, s0: State, e: Env, copies: nat, fifo: bool)
    returns (lu: seq<nat>, ld: seq<nat>)
    requires Begins(n, me, writing, file, s0, e, copies)
    requires !fifo ==> Blocks(file) <= 0x1_0000
    ensures Inv(n, me, writing, file, 0, lu, ld, fifo)
  {
    StepConsistent(s0, Packet(me, Request(writing, true), e));
    lu, ld := Same(0, copies), Same(1, |n.down|);
    BlockSize(file, 1);
    if !writing && e.dataAlloc {
      ReadOpens(s0, me, e);
    }
    var out := Received(s0, me, Request(writing, true), e).1;
    assert out == [] || (|out| == 1 && out[0] == Sent(me, DownWire(writing, file, 1)));
    assert out != [] ==> SentTo(out, me) == [out[0].pkt] + SentTo([], me) by {
      assert out != [] ==> out[1..] == [];
    }
  }

  lemma {:induction false} RunInv(n: Net, me: Peer, writing: bool, file: seq<u8>, q: nat, lu: seq<nat>, ld: seq<nat>,
                                  fifo: bool, acts: seq<Action>)
    returns (q': nat, lu': seq<nat>, ld': seq<nat>)
    requires Inv(n, me, writing, file, q, lu, ld, fifo) && (fifo ==> InOrder(acts))
    ensures Inv(Acts(n, me, acts), me, writing, file, q', lu', ld', fifo)
    decreases |acts|
  {
    q', lu', ld' := q, lu, ld;
    if acts != [] {
      assert fifo ==> Oldest(acts[0]);
      q', lu', ld' := NetStep(n, me, writing, file, q, lu, ld, fifo, acts[0]);
      assert fifo ==> forall i :: 0 <= i < |acts[1..]| ==> Oldest(acts[1..][i]) by {
        assert forall i :: 0 <= i < |acts[1..]| ==> acts[1..][i] == acts[i + 1];
      }
      q', lu', ld' := RunInv(Act(n, me, acts[0]), me, writing, file, q', lu', ld', fifo, acts[1..]);
    }
  }

  /** What has been carried: the bytes given to `ctx->write`, or those the client holds. */
  function Carried(n: Net): seq<u8> {
    match n.client
    case Writer(_, _) => n.server.written
    case Reader(_, got, _) => got
  }

  /** The client has seen the end of its transfer. */
  predicate ClientDone(n: Net, file: seq<u8>) {
    match n.client
    case Writer(_, k) => k == Blocks(file) + 1
    case Reader(_, _, done) => done
  }

  /** The server closes on its own account only for a failed file operation or a silent peer. */
  predicate EndedBadly(n: Net, writing: bool, a: Action) {
    || (a.ToServer? && !(if writing then a.env.writeOk else a.env.readOk))
    || (a.Aside? && a.ev.Tick? && Patience(n.server) == 1)
  }

  /** Small enough for a network that reorders: 65536 blocks, but of a written file the last
      one empty. */
  predicate Small(writing: bool, file: seq<u8>) {
    if writing then |file| <= MAX_PAYLOAD * 0xFFFF else Blocks(file) <= 0x1_0000
  }

  /** Whole blocks from the start of the file, and all of them once the client saw the end. */
  ghost predicate Safe(n: Net, file: seq<u8>) {
    (exists q :: Carried(n) == Prefix(file, q)) && (ClientDone(n, file) ==> Carried(n) == file)
  }

  /** The transfer theorem. Whatever the network does, in order for any file or in any order
      for small ones: what has been carried is always whole blocks from the start of the file;
      a client that saw the end of its transfer has carried all of it; and a server that closes
      for no bad reason has carried all of it. */
  lemma TransferSafe(n: Net, me: Peer, writing: bool, file: seq<u8>, s0: State, e: Env, copies: nat,
                     acts: seq<Action>, last: Action)
    requires Begins(n, me, writing, file, s0, e, copies)
    requires (InOrder(acts) && Oldest(last)) || Small(writing, file)
    ensures Safe(Acts(n, me, acts), file)
    ensures var n' := Acts(n, me, acts);
            n'.server.handle.Some? && Act(n', me, last).server.handle.None? ==>
              EndedBadly(n', writing, last) || Carried(Act(n', me, last)) == file
  {
    var fifo := InOrder(acts) && Oldest(last);
    var lu, ld := BeginsInv(n, me, writing, file, s0, e, copies, fifo);
    var q, lu', ld' := RunInv(n, me, writing, file, 0, lu, ld, fifo, acts);
    var n' := Acts(n, me, acts);
    PrefixGrows(file, 0);
    assert Carried(n') == Prefix(file, if writing then q else n'.client.at);
    if Overrun(n'.client, writing, file, fifo) {
      assert Prefix(file, q) == file;
    }
    if n'.server.handle.Some? && Act(n', me, last).server.handle.None? {
      if last.ToServer? && last.i < |n'.up| {
        var _, _, _ := DeliverUp(n', me, writing, file, q, lu', ld', fifo, last.i, last.env);
      } else if last.Aside? {
        ServerAside(n'.server, me, writing, file, q, last.ev);
      }
    }
  }
}
