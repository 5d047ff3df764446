/** The fast-feedback link: the generator that encodes (address, setpoint) pairs into a UDP
    payload, and the logic that decodes a frame at one byte per clock. */
module FofbLink {
  import opened Words

  const PROTOCOL_ID: u16 := 0x7631
  const START := 0xD5 // ends the preamble
  const HEADER := 54  // Ethernet, IP and UDP headers, then protocol id, command and nonce
  const MAX_PAIRS := 10
  const PACKET_MAX_SIZE := 1024

  type u64 = x: int | 0 <= x < 0x1_0000_0000_0000_0000

  /** A setpoint is the 32 bits of an IEEE 754 number. */
  datatype Pair = Pair(address: u16, setpoint: u32)

  // ----- the encoder -----

  function Preface(id: u16, command: u16, nonce: u64): (b: seq<u8>)
    ensures |b| == 12
  {
    Bytes(id, 2) + Bytes(command, 2) + Bytes(nonce, 8)
  }

  function PairBytes(p: Pair): (b: seq<u8>)
    ensures |b| == 6
  {
    Bytes(p.address, 2) + Bytes(p.setpoint, 4)
  }

  function PairsBytes(ps: seq<Pair>): (b: seq<u8>)
    ensures |b| == 6 * |ps|
  {
    if ps == [] then [] else PairsBytes(ps[..|ps| - 1]) + PairBytes(ps[|ps| - 1])
  }

  function Payload(id: u16, command: u16, nonce: u64, ps: seq<Pair>): (b: seq<u8>)
    ensures |b| == 12 + 6 * |ps|
  {
    Preface(id, command, nonce) + PairsBytes(ps)
  }

  /** The protocol number, the command and the nonce. */
  method AppendPreface(buffer: array<u8>, id: u16, command: u16, nonce: u64) returns (offset: nat)
    requires buffer.Length >= 12
    modifies buffer
    ensures offset == 12 && buffer[..12] == Preface(id, command, nonce)
  {
    buffer[0], buffer[1], buffer[2], buffer[3] := ByteOf(id, 1), ByteOf(id, 0), ByteOf(command, 1), ByteOf(command, 0);
    offset := 4;
    ghost var fixed := Bytes(id, 2) + Bytes(command, 2);
    assert buffer[..4] == fixed;
    var i := 7;
    while i >= 0
      invariant -1 <= i <= 7 && offset == 11 - i
      invariant buffer[..offset] == fixed + Bytes(nonce, 8)[..7 - i]
    {
      buffer[offset] := ByteOf(nonce, i);
      offset := offset + 1;
      assert buffer[..offset] == (fixed + Bytes(nonce, 8)[..7 - i]) + [ByteOf(nonce, i)];
      i := i - 1;
    }
  }

  /** One pair into the buffer; returns the offset after it. */
  method AppendPair(buffer: array<u8>, start: nat, p: Pair) returns (offset: nat)
    requires start + 6 <= buffer.Length
    modifies buffer
    ensures offset == start + 6
    ensures buffer[..offset] == old(buffer[..start]) + PairBytes(p)
  {
    offset := start;
    buffer[offset] := ByteOf(p.address, 1);
    offset := offset + 1;
    buffer[offset] := ByteOf(p.address, 0);
    offset := offset + 1;
    buffer[offset] := ByteOf(p.setpoint, 3);
    offset := offset + 1;
    buffer[offset] := ByteOf(p.setpoint, 2);
    offset := offset + 1;
    buffer[offset] := ByteOf(p.setpoint, 1);
    offset := offset + 1;
    buffer[offset] := ByteOf(p.setpoint, 0);
    offset := offset + 1;
  }

  /** Encodes and sends a packet; with too many pairs, or if the sending fails, returns -1. */
  method SendFastUdpPacket(id: u16, command: u16, nonce: u64, pairs: seq<Pair>, sendOk: bool)
    returns (status: int, sent: seq<u8>)
    ensures status == if |pairs| <= MAX_PAIRS && sendOk then 0 else -1
    ensures sent == if status == 0 then Payload(id, command, nonce, pairs) else []
  {
    if |pairs| > MAX_PAIRS {
      return -1, [];
    }
    var buffer := new u8[PACKET_MAX_SIZE](_ => 0);
    var offset := 0;
    offset := AppendPreface(buffer, id, command, nonce);
    var k := 0;
    while k < |pairs|
      invariant 0 <= k <= |pairs| && offset == 12 + 6 * k
      invariant buffer[..offset] == Payload(id, command, nonce, pairs[..k])
    {
      ghost var before := buffer[..offset];
      offset := AppendPair(buffer, offset, pairs[k]);
      assert pairs[..k + 1][..k] == pairs[..k];
      assert buffer[..offset] == before + PairBytes(pairs[k]);
      k := k + 1;
    }
    assert pairs[..|pairs|] == pairs;
    if !sendOk {
      return -1, [];
    }
    return 0, buffer[..offset];
  }

  // ----- the decoder -----

  datatype State = IDLE | RX_PREAMBLE | RX_HEADER | RX_ADDRHI | RX_ADDRLO
    | RX_SETPT_BYTE3 | RX_SETPT_BYTE2 | RX_SETPT_BYTE1 | RX_SETPT_BYTE0

  datatype Params = Params(ipaddr: seq<u8>, addrs: seq<u16>)

  type Settings = p: Params | |p.ipaddr| == 4 && |p.addrs| == 4 witness Params([0, 0, 0, 0], [0, 0, 0, 0])

  /** What the logic reports: the four setpoints, and the count, command and nonce of packets. */
  datatype Stat = Stat(setpts: seq<u32>, packets: u32, command: u32, nonce: u32)

  /** The registers; words that arrive by the byte are kept as bytes. */
  datatype Registers = Registers(state: State, dvPrev: bool, bytenum: nat, header: seq<u8>, addr: seq<u8>,
                                 setpt: seq<u8>, stat: Stat, packet: bool, done: bool)

  predicate Sized(r: Registers) {
    |r.header| == HEADER && |r.addr| == 2 && |r.setpt| == 4 && |r.stat.setpts| == 4
  }

  const NO_STAT := Stat([0, 0, 0, 0], 0, 0, 0)

  type Rx = r: Registers | Sized(r)
    witness Registers(IDLE, false, 0, seq(HEADER, _ => 0), [0, 0], [0, 0, 0, 0], NO_STAT, false, false)

  /** The frame is for this controller. */
  predicate Ours(p: Settings, header: seq<u8>)
    requires |header| == HEADER
  {
    header[30..34] == p.ipaddr && FromBigEndian16(header[42..44]) == PROTOCOL_ID
  }

  function Counted(s: Stat, header: seq<u8>, last: u8): Stat
    requires |header| == HEADER
  {
    s.(nonce := FromBigEndian32(header[50..53] + [last]),
       command := FromBigEndian16(header[44..46]),
       packets := (s.packets + 1) % 0x1_0000_0000)
  }

  /** The setpoints after a pair: every channel with its address takes it. */
  function Stored(setpts: seq<u32>, addrs: seq<u16>, address: u16, setpoint: u32): (t: seq<u32>)
    requires |setpts| == |addrs| == 4
    ensures |t| == 4
    ensures forall c :: 0 <= c < 4 ==> t[c] == if addrs[c] == address then setpoint else setpts[c]
  {
    seq(4, c requires 0 <= c < 4 => if addrs[c] == address then setpoint else setpts[c])
  }

  /** One clock out of reset. */
  function Step(r: Rx, p: Settings, data: u8, dv: bool): Rx {
    match r.state
    case IDLE =>
      var r := r.(packet := false, done := false, dvPrev := dv, state := if dv && !r.dvPrev then RX_PREAMBLE else IDLE,
                  bytenum := if dv && !r.dvPrev then 0 else r.bytenum);
      r
    case RX_PREAMBLE => if data == START then r.(state := RX_HEADER) else r
    case RX_HEADER =>
      var n := r.bytenum;
      var r' := r.(bytenum := n + 1, header := if n < HEADER then r.header[n := data] else r.header);
      if n != HEADER - 1 then r'
      else if Ours(p, r.header) then r'.(state := RX_ADDRHI, stat := Counted(r.stat, r.header, data), packet := true)
      else r'.(state := IDLE)
    case RX_ADDRHI =>
      if !dv then r.(packet := false, state := IDLE, done := true)
      else r.(packet := false, state := RX_ADDRLO, addr := r.addr[0 := data])
    case RX_ADDRLO => r.(state := RX_SETPT_BYTE3, addr := r.addr[1 := data])
    case RX_SETPT_BYTE3 => r.(state := RX_SETPT_BYTE2, setpt := r.setpt[0 := data])
    case RX_SETPT_BYTE2 => r.(state := RX_SETPT_BYTE1, setpt := r.setpt[1 := data])
    case RX_SETPT_BYTE1 => r.(state := RX_SETPT_BYTE0, setpt := r.setpt[2 := data])
    case RX_SETPT_BYTE0 =>
      var setpoint := FromBigEndian32(r.setpt[..3] + [data]);
      var setpts := Stored(r.stat.setpts, p.addrs, FromBigEndian16(r.addr), setpoint);
      r.(setpt := r.setpt[3 := data], stat := r.stat.(setpts := setpts),
         state := if dv then RX_ADDRHI else IDLE, done := if dv then r.done else true)
  }

  /** The registers after a reset; those not in its list keep their values. */
  function Reset(r: Rx): Rx {
    r.(state := IDLE, bytenum := 0, done := false, dvPrev := false, stat := NO_STAT, packet := false)
  }

  class UdpRx {
    var state: State
    var dvPrev: bool
    var bytenum: nat
    var header: seq<u8>
    var addr: seq<u8>
    var setpt: seq<u8>
    var stat: Stat
    var packet: bool
    var done: bool

    predicate Valid()
      reads this
    {
      |header| == HEADER && |addr| == 2 && |setpt| == 4 && |stat.setpts| == 4
    }

    function Regs(): Rx
      reads this
      requires Valid()
    {
      Registers(state, dvPrev, bytenum, header, addr, setpt, stat, packet, done)
    }

    constructor ()
      ensures Valid() && Ready(Regs()) && stat == NO_STAT
    {
      state, dvPrev, bytenum, header, addr, setpt := IDLE, false, 0, seq(HEADER, _ => 0), [0, 0], [0, 0, 0, 0];
      stat, packet, done := NO_STAT, false, false;
    }

    /** A header byte, and the decision on the last of them. */
    method ClockHeader(p: Settings, data: u8)
      requires Valid() && state == RX_HEADER
      modifies this
      ensures Valid() && Regs() == Step(old(Regs()), p, data, false) == Step(old(Regs()), p, data, true)
    {
      var n := bytenum;
      bytenum := n + 1;
      if n == HEADER - 1 {
        if header[30..34] == p.ipaddr && FromBigEndian16(header[42..44]) == PROTOCOL_ID {
          state := RX_ADDRHI;
          stat := stat.(nonce := FromBigEndian32(header[50..53] + [data]));
          stat := stat.(command := FromBigEndian16(header[44..46]));
          stat := stat.(packets := (stat.packets + 1) % 0x1_0000_0000);
          packet := true;
        } else {
          state := IDLE;
        }
      }
      if n < HEADER {
        header := header[n := data];
      }
    }

    /** The last byte of a pair: each channel compares the address with its own. */
    method ClockSetpoint(p: Settings, data: u8, dv: bool)
      requires Valid() && state == RX_SETPT_BYTE0
      modifies this
      ensures Valid() && Regs() == Step(old(Regs()), p, data, dv)
    {
      var address, setpoint := FromBigEndian16(addr), FromBigEndian32(setpt[..3] + [data]);
      setpt := setpt[3 := data];
      var t0 := if address == p.addrs[0] then setpoint else stat.setpts[0];
      var t1 := if address == p.addrs[1] then setpoint else stat.setpts[1];
      var t2 := if address == p.addrs[2] then setpoint else stat.setpts[2];
      var t3 := if address == p.addrs[3] then setpoint else stat.setpts[3];
      var t := [t0, t1, t2, t3];
      assert t == Stored(stat.setpts, p.addrs, address, setpoint);
      stat := stat.(setpts := t);
      if !dv {
        state := IDLE;
        done := true;
      } else {
        state := RX_ADDRHI;
      }
    }

    /** One rising edge of the clock. */
    method Clock(reset: bool, p: Settings, data: u8, dv: bool)
      requires Valid()
      modifies this
      ensures Valid()
      ensures Regs() == if reset then Reset(old(Regs())) else Step(old(Regs()), p, data, dv)
    {
      if reset {
        state, bytenum, done, dvPrev, stat, packet := IDLE, 0, false, false, NO_STAT, false;
        return;
      }
      match state
      case IDLE =>
        packet, done := false, false;
        if dv && !dvPrev {
          state := RX_PREAMBLE;
          bytenum := 0;
        }
        dvPrev := dv;
      case RX_PREAMBLE =>
        if data == START {
          state := RX_HEADER;
        }
      case RX_HEADER => ClockHeader(p, data);
      case RX_ADDRHI =>
        packet := false;
        if !dv {
          state := IDLE;
          done := true;
        } else {
          addr := addr[0 := data];
          state := RX_ADDRLO;
        }
      case RX_ADDRLO =>
        addr := addr[1 := data];
        state := RX_SETPT_BYTE3;
      case RX_SETPT_BYTE3 =>
        setpt := setpt[0 := data];
        state := RX_SETPT_BYTE2;
      case RX_SETPT_BYTE2 =>
        setpt := setpt[1 := data];
        state := RX_SETPT_BYTE1;
      case RX_SETPT_BYTE1 =>
        setpt := setpt[2 := data];
        state := RX_SETPT_BYTE0;
      case RX_SETPT_BYTE0 => ClockSetpoint(p, data, dv);
    }
  }

  // ----- what a frame does -----

  /** Bytes in turn, all with the data-valid line up. */
  function After(r: Rx, p: Settings, bytes: seq<u8>): Rx
    decreases |bytes|
  {
    if bytes == [] then r else After(Step(r, p, bytes[0], true), p, bytes[1..])
  }

  lemma {:induction false} AfterPlus(r: Rx, p: Settings, a: seq<u8>, b: seq<u8>)
    ensures After(r, p, a + b) == After(After(r, p, a), p, b)
    decreases |a|
  {
    if a == [] {
      assert a + b == b;
    } else {
      assert (a + b)[1..] == a[1..] + b;
      AfterPlus(Step(r, p, a[0], true), p, a[1..], b);
    }
  }

  lemma {:induction false} PreambleSkipped(r: Rx, p: Settings, bytes: seq<u8>)
    requires r.state == RX_PREAMBLE && START !in bytes
    ensures After(r, p, bytes) == r
    decreases |bytes|
  {
    if bytes != [] {
      assert bytes[0] != START;
      PreambleSkipped(r, p, bytes[1..]);
    }
  }

  lemma HeaderByte(r: Rx, p: Settings, data: u8)
    requires r.state == RX_HEADER && r.bytenum < HEADER - 1
    ensures After(r, p, [data]) == r.(bytenum := r.bytenum + 1, header := r.header[r.bytenum := data])
  {
    assert [data][1..] == [];
    assert After(r, p, [data]) == After(Step(r, p, data, true), p, []);
  }

  /** The header's bytes fall into place, one a clock, up to the last. */
  lemma {:induction false} HeaderFills(r: Rx, p: Settings, header: seq<u8>, n: nat)
    requires r.state == RX_HEADER && r.bytenum == 0 && |header| == HEADER && n < HEADER
    ensures After(r, p, header[..n]) == r.(bytenum := n, header := header[..n] + r.header[n..])
  {
    if n == 0 {
      assert header[..0] == [] && r.header[0..] == r.header;
    } else {
      var m := n - 1;
      var before := header[..m] + r.header[m..];
      HeaderFills(r, p, header, m);
      assert header[..n] == header[..m] + [header[m]];
      AfterPlus(r, p, header[..m], [header[m]]);
      HeaderByte(r.(bytenum := m, header := before), p, header[m]);
      assert before[m := header[m]] == header[..n] + r.header[n..];
    }
  }

  /** All but the last byte of a pair. */
  function FiveBytes(r: Rx, p: Settings, b: seq<u8>): Rx
    requires |b| == 6
  {
    Step(Step(Step(Step(Step(r, p, b[0], true), p, b[1], true), p, b[2], true), p, b[3], true), p, b[4], true)
  }

  lemma FiveBytesRead(r: Rx, p: Settings, b: seq<u8>)
    requires |b| == 6 && r.state == RX_ADDRHI
    ensures FiveBytes(r, p, b)
            == r.(state := RX_SETPT_BYTE0, packet := false, addr := b[..2], setpt := b[2..5] + [r.setpt[3]])
  {
    var r1 := Step(r, p, b[0], true);
    var r2 := Step(r1, p, b[1], true);
    assert r2.addr == b[..2];
    var r5 := Step(Step(Step(r2, p, b[2], true), p, b[3], true), p, b[4], true);
    assert r5.setpt == b[2..5] + [r.setpt[3]];
  }

  /** The bytes of one pair leave its setpoint with every channel that has its address. */
  lemma PairRead(r: Rx, p: Settings, pair: Pair)
    requires r.state == RX_ADDRHI
    ensures var e := After(r, p, PairBytes(pair));
            && e.state == RX_ADDRHI && e.dvPrev == r.dvPrev
            && e.stat == r.stat.(setpts := Stored(r.stat.setpts, p.addrs, pair.address, pair.setpoint))
  {
    var b := PairBytes(pair);
    FiveBytesRead(r, p, b);
    AfterSix(r, p, b);
    BytesRead16(pair.address);
    BytesRead32(pair.setpoint);
    assert b[..2] == Bytes(pair.address, 2);
    assert (b[2..5] + [r.setpt[3]])[..3] + [b[5]] == Bytes(pair.setpoint, 4);
  }

  lemma AfterSix(r: Rx, p: Settings, b: seq<u8>)
    requires |b| == 6
    ensures After(r, p, b) == Step(FiveBytes(r, p, b), p, b[5], true)
  {
    var b1, b2, b3, b4, b5 := b[1..], b[2..], b[3..], b[4..], b[5..];
    assert b1[1..] == b2 && b2[1..] == b3 && b3[1..] == b4 && b4[1..] == b5 && b5[1..] == [];
    var r1 := Step(r, p, b[0], true);
    var r2 := Step(r1, p, b[1], true);
    var r3 := Step(r2, p, b[2], true);
    var r4 := Step(r3, p, b[3], true);
    var r5 := Step(r4, p, b[4], true);
    assert After(r5, p, b5) == Step(r5, p, b[5], true);
    assert After(r4, p, b4) == After(r5, p, b5);
    assert After(r3, p, b3) == After(r4, p, b4);
    assert After(r2, p, b2) == After(r3, p, b3);
    assert After(r1, p, b1) == After(r2, p, b2);
  }

  /** The last pair with an address, or the old value if there is none. */
  function LastFor(address: u16, ps: seq<Pair>, held: u32): u32 {
    if ps == [] then held
    else if ps[|ps| - 1].address == address then ps[|ps| - 1].setpoint
    else LastFor(address, ps[..|ps| - 1], held)
  }

  lemma {:induction false} LastForIs(address: u16, ps: seq<Pair>, held: u32, i: nat)
    requires i < |ps| && ps[i].address == address
    requires forall j :: i < j < |ps| ==> ps[j].address != address
    ensures LastFor(address, ps, held) == ps[i].setpoint
    decreases |ps|
  {
    if i < |ps| - 1 {
      LastForIs(address, ps[..|ps| - 1], held, i);
    }
  }

  lemma {:induction false} LastForPlus(address: u16, a: seq<Pair>, b: seq<Pair>, held: u32)
    ensures LastFor(address, a + b, held) == LastFor(address, b, LastFor(address, a, held))
    decreases |b|
  {
    if b == [] {
      assert a + b == a;
    } else {
      assert (a + b)[..|a + b| - 1] == a + b[..|b| - 1];
      LastForPlus(address, a, b[..|b| - 1], held);
    }
  }

  function AllLast(p: Settings, ps: seq<Pair>, setpts: seq<u32>): (t: seq<u32>)
    requires |setpts| == 4
    ensures |t| == 4 && forall c :: 0 <= c < 4 ==> t[c] == LastFor(p.addrs[c], ps, setpts[c])
  {
    seq(4, c requires 0 <= c < 4 => LastFor(p.addrs[c], ps, setpts[c]))
  }

  lemma {:induction false} PairsRead(r: Rx, p: Settings, ps: seq<Pair>)
    requires r.state == RX_ADDRHI
    ensures var e := After(r, p, PairsBytes(ps));
            && e.state == RX_ADDRHI && e.dvPrev == r.dvPrev
            && e.stat == r.stat.(setpts := AllLast(p, ps, r.stat.setpts))
    decreases |ps|
  {
    if ps == [] {
      assert AllLast(p, ps, r.stat.setpts) == r.stat.setpts;
    } else {
      var init, pair := ps[..|ps| - 1], ps[|ps| - 1];
      PairsRead(r, p, init);
      AfterPlus(r, p, PairsBytes(init), PairBytes(pair));
      PairRead(After(r, p, PairsBytes(init)), p, pair);
      assert Stored(AllLast(p, init, r.stat.setpts), p.addrs, pair.address, pair.setpoint)
             == AllLast(p, ps, r.stat.setpts);
    }
  }

  lemma HeaderDone(r: Rx, p: Settings, header: seq<u8>)
    requires r.state == RX_HEADER && r.bytenum == 0 && |header| == HEADER
    ensures var e := After(r, p, header);
            && e.dvPrev == r.dvPrev
            && e.state == (if Ours(p, header) then RX_ADDRHI else IDLE)
            && e.stat == if Ours(p, header) then Counted(r.stat, header, header[HEADER - 1]) else r.stat
  {
    var n := HEADER - 1;
    HeaderFills(r, p, header, n);
    var before := After(r, p, header[..n]);
    AfterPlus(r, p, header[..n], [header[n]]);
    assert header == header[..n] + [header[n]];
    assert After(before, p, [header[n]]) == Step(before, p, header[n], true);
    assert before.header[30..34] == header[30..34] && before.header[42..44] == header[42..44];
    assert before.header[44..46] == header[44..46] && before.header[50..53] == header[50..53];
  }

  /** A frame on the wire: its first byte and the rest of its preamble, and then the headers and
      payload of the generator, or any header of that length and any bytes after it. */
  datatype Frame =
    | Generated(first: u8, preamble: seq<u8>, eth: seq<u8>, id: u16, command: u16, nonce: u64, pairs: seq<Pair>)
    | Foreign(first: u8, preamble: seq<u8>, other: seq<u8>, tail: seq<u8>)

  type Packet = f: Frame | START !in f.preamble && (if f.Generated? then |f.eth| == 42 else |f.other| == HEADER)
    witness Generated(0, [], seq(42, _ => 0), 0, 0, 0, [])

  /** The first 54 bytes of a frame, which decide. */
  function HeaderOf(f: Packet): (h: seq<u8>)
    ensures |h| == HEADER
  {
    match f
    case Generated(_, _, eth, id, command, nonce, _) => eth + Preface(id, command, nonce)
    case Foreign(_, _, other, _) => other
  }

  function BodyOf(f: Packet): seq<u8> {
    match f
    case Generated(_, _, _, _, _, _, pairs) => PairsBytes(pairs)
    case Foreign(_, _, _, tail) => tail
  }

  function FrameBytes(f: Packet): seq<u8> {
    [f.first] + f.preamble + [START] + (HeaderOf(f) + BodyOf(f))
  }

  /** The payload of a generated frame is what the generator sends. */
  lemma GeneratedBytes(f: Packet)
    requires f.Generated?
    ensures FrameBytes(f) == [f.first] + f.preamble + [START] + (f.eth + Payload(f.id, f.command, f.nonce, f.pairs))
  {
    assert HeaderOf(f) + BodyOf(f) == f.eth + Payload(f.id, f.command, f.nonce, f.pairs);
  }

  /** The frame bears this controller's address and the protocol's number. */
  predicate Mine(p: Settings, f: Packet) {
    f.Generated? && f.eth[30..34] == p.ipaddr && f.id == PROTOCOL_ID
  }

  /** Only the generator sends to this controller with the protocol's number. */
  predicate Sent(p: Settings, f: Packet) {
    f.Foreign? ==> !Ours(p, f.other)
  }

  /** What a frame does to what is reported. */
  function Taken(p: Settings, s: Stat, f: Packet): Stat
    requires |s.setpts| == 4
  {
    if Mine(p, f) then
      Stat(AllLast(p, f.pairs, s.setpts), (s.packets + 1) % 0x1_0000_0000, f.command, f.nonce % 0x1_0000_0000)
    else s
  }

  lemma HeaderIs(p: Settings, f: Packet, s: Stat)
    requires Sent(p, f)
    ensures Ours(p, HeaderOf(f)) == Mine(p, f)
    ensures Mine(p, f) ==>
              Counted(s, HeaderOf(f), HeaderOf(f)[HEADER - 1])
              == s.(packets := (s.packets + 1) % 0x1_0000_0000, command := f.command, nonce := f.nonce % 0x1_0000_0000)
  {
    if f.Generated? {
      var h := HeaderOf(f);
      BytesRead16(f.id);
      BytesRead16(f.command);
      LowBytes(f.nonce, 8);
      assert h[30..34] == f.eth[30..34];
      assert h[42..44] == Bytes(f.id, 2);
      assert h[44..46] == Bytes(f.command, 2);
      assert h[50..53] + [h[53]] == Bytes(f.nonce, 8)[4..];
    }
  }

  /** The logic is idle and has seen the line low: it will take the next frame. */
  predicate Ready(r: Rx) {
    r.state == IDLE && !r.dvPrev
  }

  lemma FrameStart(r: Rx, p: Settings, f: Packet)
    requires Ready(r)
    ensures var e := After(r, p, [f.first] + f.preamble + [START]);
            e.state == RX_HEADER && e.bytenum == 0 && e.dvPrev && e.stat == r.stat
  {
    var r1 := Step(r, p, f.first, true);
    AfterPlus(r, p, [f.first], f.preamble);
    assert After(r, p, [f.first]) == r1;
    PreambleSkipped(r1, p, f.preamble);
    AfterPlus(r, p, [f.first] + f.preamble, [START]);
    assert After(r1, p, [START]) == Step(r1, p, START, true);
  }

  /** While the line stays up, a frame that was turned down is not looked at again. */
  lemma {:induction false} RestIgnored(r: Rx, p: Settings, bytes: seq<u8>)
    requires r.state == IDLE && r.dvPrev
    ensures var e := After(r, p, bytes);
            e.state == IDLE && e.dvPrev && e.stat == r.stat
    decreases |bytes|
  {
    if bytes != [] {
      RestIgnored(Step(r, p, bytes[0], true), p, bytes[1..]);
    }
  }

  lemma FrameHead(r: Rx, p: Settings, f: Packet)
    requires Ready(r) && Sent(p, f)
    ensures var start := [f.first] + f.preamble + [START];
            var e := After(r, p, start + HeaderOf(f));
            && e.dvPrev && e.state == (if Mine(p, f) then RX_ADDRHI else IDLE)
            && e.stat == if Mine(p, f) then Taken(p, r.stat, f).(setpts := r.stat.setpts) else r.stat
  {
    var start := [f.first] + f.preamble + [START];
    AfterPlus(r, p, start, HeaderOf(f));
    FrameStart(r, p, f);
    HeaderDone(After(r, p, start), p, HeaderOf(f));
    HeaderIs(p, f, r.stat);
  }

  /** A frame for this controller is taken; any other, whatever follows its header, changes
      nothing that is reported. */
  lemma FrameRead(r: Rx, p: Settings, f: Packet)
    requires Ready(r) && Sent(p, f)
    ensures var e := After(r, p, FrameBytes(f));
            && e.stat == Taken(p, r.stat, f) && e.dvPrev
            && e.state == if Mine(p, f) then RX_ADDRHI else IDLE
  {
    var head := [f.first] + f.preamble + [START] + HeaderOf(f);
    assert FrameBytes(f) == head + BodyOf(f);
    AfterPlus(r, p, head, BodyOf(f));
    FrameHead(r, p, f);
    if Mine(p, f) {
      PairsRead(After(r, p, head), p, f.pairs);
    } else {
      RestIgnored(After(r, p, head), p, BodyOf(f));
    }
  }

  /** Clocks between frames, with the line down. */
  function Gap(r: Rx, p: Settings, noise: seq<u8>): Rx
    decreases |noise|
  {
    if noise == [] then r else Gap(Step(r, p, noise[0], false), p, noise[1..])
  }

  lemma {:induction false} GapReady(r: Rx, p: Settings, noise: seq<u8>)
    requires (r.state == RX_ADDRHI && |noise| >= 2) || (r.state == IDLE && (|noise| >= 1 || !r.dvPrev))
    ensures Ready(Gap(r, p, noise)) && Gap(r, p, noise).stat == r.stat
    decreases |noise|
  {
    if noise != [] {
      GapReady(Step(r, p, noise[0], false), p, noise[1..]);
    }
  }

  /** A frame, and the gap after it, of two clocks at least. */
  datatype Arrival = Arrival(frame: Packet, noise: seq<u8>)

  function Received(r: Rx, p: Settings, arrivals: seq<Arrival>): Rx {
    if arrivals == [] then r
    else
      var last := arrivals[|arrivals| - 1];
      Gap(After(Received(r, p, arrivals[..|arrivals| - 1]), p, FrameBytes(last.frame)), p, last.noise)
  }

  function PairsFor(p: Settings, f: Packet): seq<Pair> {
    if Mine(p, f) then f.pairs else []
  }

  /** The pairs of all the frames for this controller, in order. */
  function MyPairs(p: Settings, arrivals: seq<Arrival>): seq<Pair> {
    if arrivals == [] then []
    else
      var f := arrivals[|arrivals| - 1].frame;
      MyPairs(p, arrivals[..|arrivals| - 1]) + PairsFor(p, f)
  }

  function MyCount(p: Settings, arrivals: seq<Arrival>): nat {
    if arrivals == [] then 0
    else MyCount(p, arrivals[..|arrivals| - 1]) + if Mine(p, arrivals[|arrivals| - 1].frame) then 1 else 0
  }

  lemma CountUp(n: nat)
    ensures (n % 0x1_0000_0000 + 1) % 0x1_0000_0000 == (n + 1) % 0x1_0000_0000
  {
  }

  lemma ArrivalRead(r: Rx, p: Settings, a: Arrival)
    requires Ready(r) && Sent(p, a.frame) && |a.noise| >= 2
    ensures var e := Gap(After(r, p, FrameBytes(a.frame)), p, a.noise);
            Ready(e) && e.stat == Taken(p, r.stat, a.frame)
  {
    FrameRead(r, p, a.frame);
    GapReady(After(r, p, FrameBytes(a.frame)), p, a.noise);
  }

  /** What a frame adds to what the earlier ones left in a channel. */
  lemma PairsAdd(p: Settings, s: Stat, f: Packet, c: nat, earlier: seq<Pair>, held: u32)
    requires |s.setpts| == 4 && c < 4 && s.setpts[c] == LastFor(p.addrs[c], earlier, held)
    ensures Taken(p, s, f).setpts[c] == LastFor(p.addrs[c], earlier + PairsFor(p, f), held)
  {
    LastForPlus(p.addrs[c], earlier, PairsFor(p, f), held);
  }

  /** What is reported after some frames: the last pairs, and the count. */
  ghost predicate Reports(p: Settings, s: Stat, was: Stat, pairs: seq<Pair>, count: nat)
    requires |s.setpts| == |was.setpts| == 4
  {
    && s.packets == (was.packets + count) % 0x1_0000_0000
    && forall c :: 0 <= c < 4 ==> s.setpts[c] == LastFor(p.addrs[c], pairs, was.setpts[c])
  }

  lemma OneMoreFrame(p: Settings, s: Stat, was: Stat, pairs: seq<Pair>, count: nat, f: Packet)
    requires |s.setpts| == |was.setpts| == 4 && Reports(p, s, was, pairs, count)
    ensures Reports(p, Taken(p, s, f), was, pairs + PairsFor(p, f), count + if Mine(p, f) then 1 else 0)
  {
    CountUp(was.packets + count);
    forall c | 0 <= c < 4
      ensures Taken(p, s, f).setpts[c] == LastFor(p.addrs[c], pairs + PairsFor(p, f), was.setpts[c])
    {
      PairsAdd(p, s, f, c, pairs, was.setpts[c]);
    }
  }

  /** The link theorem. Over any sequence of frames, the generator's and any others, each channel
      ends with the last setpoint sent to it, or its old one; every frame for this controller
      is counted and no other is; and the logic is ready for the next. */
  lemma {:induction false} LinkDelivers(r: Rx, p: Settings, arrivals: seq<Arrival>)
    requires Ready(r)
    requires forall i :: 0 <= i < |arrivals| ==> Sent(p, arrivals[i].frame) && |arrivals[i].noise| >= 2
    ensures Ready(Received(r, p, arrivals))
    ensures Reports(p, Received(r, p, arrivals).stat, r.stat, MyPairs(p, arrivals), MyCount(p, arrivals))
    decreases |arrivals|
  {
    if arrivals != [] {
      var init, last := arrivals[..|arrivals| - 1], arrivals[|arrivals| - 1];
      LinkDelivers(r, p, init);
      var before := Received(r, p, init);
      ArrivalRead(before, p, last);
      OneMoreFrame(p, before.stat, r.stat, MyPairs(p, init), MyCount(p, init), last.frame);
    }
  }

  // ----- the flags, and resets -----

  /** `packet` is up for the one clock after a frame is counted, and `done` for the one after the
      line has gone down behind a pair. */
  lemma FlagsNext(r: Rx, p: Settings, data: u8, dv: bool)
    requires (r.packet ==> r.state == RX_ADDRHI) && (r.done ==> r.state == IDLE)
    ensures var e := Step(r, p, data, dv);
            && (e.packet ==> e.state == RX_ADDRHI) && (e.done ==> e.state == IDLE)
            && (e.packet <==> e.stat.packets != r.stat.packets)
            && (e.done <==> e.state == IDLE && !dv && r.state in {RX_ADDRHI, RX_SETPT_BYTE0})
  {
  }

  /** So a frame for this controller is reported done at the first clock of the gap after it. */
  lemma FrameDone(r: Rx, p: Settings, f: Packet, x: u8, y: u8)
    requires Ready(r) && Sent(p, f)
    ensures var e := Step(After(r, p, FrameBytes(f)), p, x, false);
            (Mine(p, f) ==> e.done) && !Step(e, p, y, false).done
  {
    FrameRead(r, p, f);
  }

  /** After a reset at any moment, nothing is reported, and the next frame is taken if the line has
      been low before it. */
  lemma ResetRestarts(r: Rx, p: Settings, f: Packet)
    requires Sent(p, f)
    ensures var e := Reset(r);
            && e.stat.setpts == [0, 0, 0, 0] && e.stat.packets == e.stat.command == e.stat.nonce == 0
            && !e.packet && !e.done && Ready(e)
            && After(e, p, FrameBytes(f)).stat == Taken(p, NO_STAT, f)
  {
    FrameRead(Reset(r), p, f);
  }

  /** While the logic waits for the end of a preamble it looks at every byte, line up or down. */
  lemma {:induction false} WaitsForStart(r: Rx, p: Settings, noise: seq<u8>)
    requires r.state == RX_PREAMBLE && START !in noise
    ensures Gap(r, p, noise) == r
    decreases |noise|
  {
    if noise != [] {
      assert noise[0] != START;
      WaitsForStart(Step(r, p, noise[0], false), p, noise[1..]);
    }
  }

  /** A reset in the middle of a frame, with the line up: the rest of it is taken for a preamble. The
      next frame is still taken, if no byte of the rest and of the gap ends one. */
  lemma ResetInFrame(r: Rx, p: Settings, rest: seq<u8>, noise: seq<u8>, f: Packet)
    requires Sent(p, f) && rest != [] && START !in rest && START !in noise && f.first != START
    ensures After(Gap(After(Reset(r), p, rest), p, noise), p, FrameBytes(f)).stat == Taken(p, NO_STAT, f)
  {
    var r1 := Step(Reset(r), p, rest[0], true);
    PreambleSkipped(r1, p, rest[1..]);
    WaitsForStart(r1, p, noise);
    FrameRead(Reset(r), p, f);
    FromPreamble(r1, Reset(r), p, f);
  }

  /** From the middle of a preamble a frame is read as from the start. */
  lemma FromPreamble(r: Rx, idle: Rx, p: Settings, f: Packet)
    requires Ready(idle) && f.first != START && r == Step(idle, p, 0, true)
    ensures After(r, p, FrameBytes(f)) == After(idle, p, FrameBytes(f))
  {
    var head, rest := [f.first], f.preamble + [START] + (HeaderOf(f) + BodyOf(f));
    assert FrameBytes(f) == head + rest;
    AfterPlus(r, p, head, rest);
    AfterPlus(idle, p, head, rest);
    assert head[1..] == [];
    assert After(r, p, head) == Step(r, p, f.first, true) == r;
    assert After(idle, p, head) == Step(idle, p, f.first, true) == r;
  }

  /** But a byte that does is followed by a header, wherever the line goes down. */
  lemma ResetMisframes(r: Rx, p: Settings, x: u8, noise: seq<u8>)
    requires x != START && |noise| < HEADER
    ensures var e := Gap(After(Reset(r), p, [x, START]), p, noise);
            e.state == RX_HEADER && e.bytenum == |noise|
  {
    var r1 := Step(Reset(r), p, x, true);
    var r2 := Step(r1, p, START, true);
    assert [x, START][1..] == [START] && [START][1..] == [];
    assert After(r1, p, [START]) == After(r2, p, []) == r2;
    GapInHeader(r2, p, noise);
  }

  lemma {:induction false} GapInHeader(r: Rx, p: Settings, noise: seq<u8>)
    requires r.state == RX_HEADER && r.bytenum + |noise| < HEADER
    ensures Gap(r, p, noise).state == RX_HEADER && Gap(r, p, noise).bytenum == r.bytenum + |noise|
    decreases |noise|
  {
    if noise != [] {
      GapInHeader(Step(r, p, noise[0], false), p, noise[1..]);
    }
  }
}
