/** The controller's TFTP server (RFC 1350): one global session that serves either a
    write (the client sends DATA, the server acknowledges) or a read (the server sends
    DATA, the client acknowledges), with a 16-bit block number and a retry timer.

    `State` is the session record, and the functions over it say what each handler does;
    the class `Server` is the handlers themselves. */
module TftpServer {
  import opened Words

  const MAX_PAYLOAD := 512
  const MAX_RETRIES := 5
  /** TFTP_TIMEOUT_MSECS / TFTP_TIMER_MSECS */
  const TIMEOUT_TICKS := 10
  /** The "any" address, which an idle server holds. */
  const ANY := 0

  const FILE_NOT_FOUND := 1
  const ACCESS_VIOLATION := 2
  const ILLEGAL_OPERATION := 4
  const UNKNOWN_TRFR_ID := 5

  datatype Peer = Peer(addr: nat, port: u16)

  /** A datagram. Whether the file name and the mode of a request parse is a flag. */
  datatype Packet =
    | Request(write: bool, wellFormed: bool)
    | Data(blk: u16, payload: seq<u8>)
    | Ack(blk: u16)
    | Error(code: nat)
    | Other

  datatype Sent = Sent(to: Peer, pkt: Packet)

  /** An open file: what it holds, and how far it has been read. */
  datatype Handle = Handle(contents: seq<u8>, pos: nat)

  /** What the file system and the packet pool answer while one event is handled. */
  datatype Env = Env(openOk: bool, contents: seq<u8>, readOk: bool, writeOk: bool,
                     dataAlloc: bool, replyAlloc: bool)

  /** `written` logs the bytes handed to `ctx->write` in the latest transfer, and `armed`
      counts the pending timeouts. */
  datatype State = State(handle: Option<Handle>, lastData: Option<Packet>, addr: nat, port: u16,
                         timer: nat, lastPkt: nat, blknum: u16, retries: nat, modeWrite: bool,
                         armed: nat, written: seq<u8>)

  datatype Event = Packet(from: Peer, pkt: Packet, env: Env) | Tick(env: Env)

  // ----- what the handlers do -----

  function NextBlock(b: u16): u16 {
    (b + 1) % 0x1_0000
  }

  /** The next chunk of an open file: short only at the end of the file. */
  function Chunk(h: Handle): (c: seq<u8>)
    ensures |c| <= MAX_PAYLOAD
  {
    if h.pos < |h.contents| then h.contents[h.pos..Min(h.pos + MAX_PAYLOAD, |h.contents|)] else []
  }

  function ErrorTo(to: Peer, code: nat, e: Env): seq<Sent> {
    if e.replyAlloc then [Sent(to, Error(code))] else []
  }

  function AckTo(to: Peer, blk: u16, e: Env): seq<Sent> {
    if e.replyAlloc then [Sent(to, Ack(blk))] else []
  }

  function Closed(s: State): State {
    s.(handle := None, lastData := None, addr := ANY, port := 0, armed := Max(s.armed - 1, 0))
  }

  function Resent(s: State, e: Env): seq<Sent>
    requires s.lastData.Some?
  {
    if e.replyAlloc then [Sent(Peer(s.addr, s.port), s.lastData.value)] else []
  }

  function DataSent(s: State, e: Env): (State, seq<Sent>)
    requires s.handle.Some?
  {
    if !e.dataAlloc then
      (s.(lastData := None), [])
    else if !e.readOk then
      (Closed(s), ErrorTo(Peer(s.addr, s.port), ACCESS_VIOLATION, e))
    else
      var h := s.handle.value;
      var chunk := Chunk(h);
      var s' := s.(lastData := Some(Data(s.blknum, chunk)), handle := Some(h.(pos := h.pos + |chunk|)));
      (s', Resent(s', e))
  }

  /** The session is taken by another address or port. */
  predicate Stranger(s: State, from: Peer) {
    (s.port != 0 && from.port != s.port) || (s.addr != ANY && s.addr != from.addr)
  }

  function Requested(s: State, from: Peer, write: bool, wellFormed: bool, e: Env): (State, seq<Sent>) {
    if s.handle.Some? then
      (s, ErrorTo(from, ACCESS_VIOLATION, e))
    else
      var s1 := s.(armed := s.armed + 1);
      if !wellFormed then
        (s1, ErrorTo(from, ACCESS_VIOLATION, e))
      else if !e.openOk then
        (s1.(blknum := 1), ErrorTo(from, FILE_NOT_FOUND, e))
      else
        var s2 := s1.(handle := Some(Handle(e.contents, 0)), blknum := 1, addr := from.addr,
                      port := from.port, modeWrite := write, written := []);
        if write then (s2, AckTo(from, 0, e)) else DataSent(s2, e)
  }

  function GotData(s: State, from: Peer, blk: u16, payload: seq<u8>, e: Env): (State, seq<Sent>) {
    if s.handle.None? || !s.modeWrite then
      (s, ErrorTo(from, ACCESS_VIOLATION, e))
    else if blk == s.blknum then
      var s1 := s.(written := s.written + payload);
      var s2 := if e.writeOk then s1 else Closed(s1);
      var out := if e.writeOk then AckTo(Peer(s.addr, s.port), blk, e) else ErrorTo(from, ACCESS_VIOLATION, e);
      (if |payload| < MAX_PAYLOAD then Closed(s2) else s2.(blknum := NextBlock(s.blknum)), out)
    else if NextBlock(blk) == s.blknum then
      (s, AckTo(Peer(s.addr, s.port), blk, e))
    else
      (s, ErrorTo(from, UNKNOWN_TRFR_ID, e))
  }

  predicate ShortBlock(p: Packet) {
    p.Data? && |p.payload| != MAX_PAYLOAD
  }

  function GotAck(s: State, from: Peer, blk: u16, e: Env): (State, seq<Sent>) {
    if s.handle.None? || s.modeWrite then
      (s, ErrorTo(from, ACCESS_VIOLATION, e))
    else if blk != s.blknum then
      (s, ErrorTo(from, UNKNOWN_TRFR_ID, e))
    else if s.lastData.Some? && ShortBlock(s.lastData.value) then
      (Closed(s), [])
    else
      DataSent(s.(blknum := NextBlock(s.blknum)), e)
  }

  function Received(s: State, from: Peer, pkt: Packet, e: Env): (State, seq<Sent>) {
    if Stranger(s, from) then
      (s, ErrorTo(from, ACCESS_VIOLATION, e))
    else
      var s := s.(lastPkt := s.timer, retries := 0);
      match pkt
      case Request(write, wellFormed) => Requested(s, from, write, wellFormed, e)
      case Data(blk, payload) => GotData(s, from, blk, payload, e)
      case Ack(blk) => GotAck(s, from, blk, e)
      case _ => (s, ErrorTo(from, ILLEGAL_OPERATION, e))
  }

  /** One expiry of the timer: the expired timeout is gone from the list before the handler runs. */
  function Ticked(s: State, e: Env): (State, seq<Sent>) {
    var s := s.(timer := s.timer + 1, armed := Max(s.armed - 1, 0));
    if s.handle.None? then
      (s, [])
    else
      var s := s.(armed := s.armed + 1);
      if s.timer - s.lastPkt <= TIMEOUT_TICKS then
        (s, [])
      else if s.lastData.Some? && s.retries < MAX_RETRIES then
        (s.(retries := s.retries + 1), Resent(s, e))
      else
        (Closed(s), [])
  }

  function Step(s: State, ev: Event): (State, seq<Sent>) {
    match ev
    case Packet(from, pkt, e) => Received(s, from, pkt, e)
    case Tick(e) => Ticked(s, e)
  }

  function Run(s: State, evs: seq<Event>): (State, seq<Sent>)
    decreases |evs|
  {
    if evs == [] then (s, [])
    else
      var (s1, out1) := Step(s, evs[0]);
      var (s2, out2) := Run(s1, evs[1..]);
      (s2, out1 + out2)
  }

  // ----- the handlers -----

  /** The static session record, with the handlers that update it. `sent` collects the
      datagrams given to `udp_sendto`. */
  class Server {
    var handle: Option<Handle>
    var lastData: Option<Packet>
    var addr: nat
    var port: u16
    var timer: nat
    var lastPkt: nat
    var blknum: u16
    var retries: nat
    var modeWrite: bool
    var armed: nat
    var written: seq<u8>
    var sent: seq<Sent>

    function Session(): State
      reads this
    {
      State(handle, lastData, addr, port, timer, lastPkt, blknum, retries, modeWrite, armed, written)
    }

    constructor ()
      ensures Session() == State(None, None, ANY, 0, 0, 0, 0, 0, false, 0, []) && sent == []
    {
      handle, lastData, addr, port := None, None, ANY, 0;
      timer, lastPkt, blknum, retries, modeWrite, armed := 0, 0, 0, 0, false, 0;
      written, sent := [], [];
    }

    method SysTimeout()
      modifies this`armed
      ensures armed == old(armed) + 1
    {
      armed := armed + 1;
    }

    /** Removes one pending timeout, if there is one. */
    method SysUntimeout()
      modifies this`armed
      ensures armed == Max(old(armed) - 1, 0)
    {
      if armed > 0 {
        armed := armed - 1;
      }
    }

    method Transmit(to: Peer, pkt: Packet, alloc: bool)
      modifies this`sent
      ensures sent == old(sent) + if alloc then [Sent(to, pkt)] else []
    {
      if alloc {
        sent := sent + [Sent(to, pkt)];
      }
    }

    method CloseHandle()
      modifies this
      ensures Session() == Closed(old(Session())) && sent == old(sent)
    {
      port := 0;
      addr := ANY;
      lastData := None;
      SysUntimeout();
      if handle.Some? {
        handle := None;
      }
    }

    method ResendData(e: Env)
      requires lastData.Some?
      modifies this`sent
      ensures sent == old(sent) + Resent(old(Session()), e)
    {
      Transmit(Peer(addr, port), lastData.value, e.replyAlloc);
    }

    method SendData(e: Env)
      requires handle.Some?
      modifies this
      ensures Session() == DataSent(old(Session()), e).0
      ensures sent == old(sent) + DataSent(old(Session()), e).1
    {
      lastData := None;
      if !e.dataAlloc {
        return;
      }
      if !e.readOk {
        Transmit(Peer(addr, port), Error(ACCESS_VIOLATION), e.replyAlloc);
        CloseHandle();
        return;
      }
      var chunk := Chunk(handle.value);
      handle := Some(handle.value.(pos := handle.value.pos + |chunk|));
      lastData := Some(Data(blknum, chunk));
      ResendData(e);
    }

    method RecvRequest(from: Peer, write: bool, wellFormed: bool, e: Env)
      modifies this
      ensures Session() == Requested(old(Session()), from, write, wellFormed, e).0
      ensures sent == old(sent) + Requested(old(Session()), from, write, wellFormed, e).1
    {
      if handle.Some? {
        Transmit(from, Error(ACCESS_VIOLATION), e.replyAlloc);
        return;
      }
      SysTimeout();
      if !wellFormed {
        Transmit(from, Error(ACCESS_VIOLATION), e.replyAlloc);
        return;
      }
      blknum := 1;
      if !e.openOk {
        Transmit(from, Error(FILE_NOT_FOUND), e.replyAlloc);
        return;
      }
      handle := Some(Handle(e.contents, 0));
      written := [];
      addr, port, modeWrite := from.addr, from.port, write;
      if write {
        Transmit(from, Ack(0), e.replyAlloc);
      } else {
        SendData(e);
      }
    }

    method RecvData(from: Peer, blk: u16, payload: seq<u8>, e: Env)
      modifies this
      ensures Session() == GotData(old(Session()), from, blk, payload, e).0
      ensures sent == old(sent) + GotData(old(Session()), from, blk, payload, e).1
    {
      if handle.None? || !modeWrite {
        Transmit(from, Error(ACCESS_VIOLATION), e.replyAlloc);
      } else if blk == blknum {
        written := written + payload;
        if !e.writeOk {
          Transmit(from, Error(ACCESS_VIOLATION), e.replyAlloc);
          CloseHandle();
        } else {
          Transmit(Peer(addr, port), Ack(blk), e.replyAlloc);
        }
        if |payload| < MAX_PAYLOAD {
          CloseHandle();
        } else {
          blknum := NextBlock(blknum);
        }
      } else if NextBlock(blk) == blknum {
        Transmit(Peer(addr, port), Ack(blk), e.replyAlloc);
      } else {
        Transmit(from, Error(UNKNOWN_TRFR_ID), e.replyAlloc);
      }
    }

    method RecvAck(from: Peer, blk: u16, e: Env)
      modifies this
      ensures Session() == GotAck(old(Session()), from, blk, e).0
      ensures sent == old(sent) + GotAck(old(Session()), from, blk, e).1
    {
      if handle.None? || modeWrite {
        Transmit(from, Error(ACCESS_VIOLATION), e.replyAlloc);
        return;
      }
      if blk != blknum {
        Transmit(from, Error(UNKNOWN_TRFR_ID), e.replyAlloc);
        return;
      }
      var lastpkt := false;
      if lastData.Some? {
        lastpkt := ShortBlock(lastData.value);
      }
      if !lastpkt {
        blknum := NextBlock(blknum);
        SendData(e);
      } else {
        CloseHandle();
      }
    }

    method Recv(from: Peer, pkt: Packet, e: Env)
      modifies this
      ensures Session() == Received(old(Session()), from, pkt, e).0
      ensures sent == old(sent) + Received(old(Session()), from, pkt, e).1
    {
      if (port != 0 && from.port != port) || (addr != ANY && addr != from.addr) {
        Transmit(from, Error(ACCESS_VIOLATION), e.replyAlloc);
        return;
      }
      lastPkt := timer;
      retries := 0;
      match pkt {
        case Request(write, wellFormed) => RecvRequest(from, write, wellFormed, e);
        case Data(blk, payload) => RecvData(from, blk, payload, e);
        case Ack(blk) => RecvAck(from, blk, e);
        case _ => Transmit(from, Error(ILLEGAL_OPERATION), e.replyAlloc);
      }
    }

    method Tmr(e: Env)
      modifies this
      ensures Session() == Ticked(old(Session()), e).0
      ensures sent == old(sent) + Ticked(old(Session()), e).1
    {
      SysUntimeout();
      timer := timer + 1;
      if handle.None? {
        return;
      }
      SysTimeout();
      if timer - lastPkt > TIMEOUT_TICKS {
        if lastData.Some? && retries < MAX_RETRIES {
          ResendData(e);
          retries := retries + 1;
        } else {
          CloseHandle();
        }
      }
    }
  }
}
