/** The length-prefixed messages of the PSC protocol, over a byte stream that takes and
    gives as little at a time as it likes, and may fail at any moment. */
module PscFraming {
  import opened Words

  const P := 0x50
  const S := 0x53
  const HEADER := 8

  datatype Msg = Msg(id: u16, body: seq<u8>)

  type Message = m: Msg | |m.body| < 0x1_0000_0000 witness Msg(0, [])

  function Header(id: u16, len: u32): (h: seq<u8>)
    ensures |h| == HEADER
  {
    [P, S] + Bytes(id, 2) + Bytes(len, 4)
  }

  function Encode(m: Message): seq<u8> {
    Header(m.id, |m.body|) + m.body
  }

  function EncodeAll(ms: seq<Message>): seq<u8> {
    if ms == [] then [] else Encode(ms[0]) + EncodeAll(ms[1..])
  }

  // ----- reading a stream -----

  /** What the bytes at hand hold: a message, a bad magic, a length over the limit, or less
      than is needed to tell. */
  datatype Outcome =
    | Whole(msg: Message, rest: seq<u8>)
    | BadMagic(rest: seq<u8>)
    | TooLong(id: u16, len: u32, rest: seq<u8>)
    | Short

  predicate Magic(h: seq<u8>)
    requires |h| == HEADER
  {
    h[0] == P && h[1] == S
  }

  function Parse(s: seq<u8>, limit: u32): Outcome {
    if |s| < HEADER then Short
    else
      var h, rest := s[..HEADER], s[HEADER..];
      if !Magic(h) then BadMagic(rest)
      else
        var id, len := FromBigEndian16(h[2..4]), FromBigEndian32(h[4..]);
        if len > limit then TooLong(id, len, rest)
        else if |rest| < len then Short
        else Whole(Msg(id, rest[..len]), rest[len..])
  }

  /** Messages in turn, until the stream yields no more. */
  function ParseAll(s: seq<u8>, limit: u32): (seq<Message>, seq<u8>)
    decreases |s|
  {
    match Parse(s, limit)
    case Whole(m, rest) =>
      var (ms, last) := ParseAll(rest, limit);
      ([m] + ms, last)
    case _ => ([], s)
  }

  lemma HeaderRead(id: u16, len: u32)
    ensures var h := Header(id, len);
            Magic(h) && FromBigEndian16(h[2..4]) == id && FromBigEndian32(h[4..]) == len
  {
    var h := Header(id, len);
    assert h[2..4] == Bytes(id, 2);
    assert h[4..] == Bytes(len, 4);
    BytesRead16(id);
    BytesRead32(len);
  }

  /** A whole message at the head of a stream is read back, and nothing after it is touched. */
  lemma ParseEncoded(m: Message, rest: seq<u8>, limit: u32)
    requires |m.body| <= limit
    ensures Parse(Encode(m) + rest, limit) == Whole(m, rest)
  {
    var s := Encode(m) + rest;
    HeaderRead(m.id, |m.body|);
    assert s[..HEADER] == Header(m.id, |m.body|);
    assert s[HEADER..] == m.body + rest;
    assert (m.body + rest)[..|m.body|] == m.body && (m.body + rest)[|m.body|..] == rest;
  }

  /** The converse: what is read is exactly an encoded message, byte for byte. */
  lemma WholeIsEncoded(s: seq<u8>, limit: u32)
    requires Parse(s, limit).Whole?
    ensures var w := Parse(s, limit);
            s == Encode(w.msg) + w.rest && |w.msg.body| <= limit
  {
    var h, rest := s[..HEADER], s[HEADER..];
    var len := FromBigEndian32(h[4..]);
    BytesWritten16(h[2..4]);
    BytesWritten32(h[4..]);
    assert h == h[..2] + h[2..4] + h[4..];
    assert h == Header(FromBigEndian16(h[2..4]), len);
    assert s == h + rest && rest == rest[..len] + rest[len..];
  }

  /** Part of a message is never taken for a message, nor for a fault. */
  lemma ParsePartial(m: Message, part: seq<u8>, limit: u32)
    requires |m.body| <= limit && part < Encode(m)
    ensures Parse(part, limit) == Short
  {
    if |part| >= HEADER {
      HeaderRead(m.id, |m.body|);
      assert part[..HEADER] == Encode(m)[..HEADER] == Header(m.id, |m.body|);
    }
  }

  predicate Within(ms: seq<Message>, limit: u32) {
    forall i :: 0 <= i < |ms| ==> |ms[i].body| <= limit
  }

  /** The messages that lie wholly in the first `n` bytes of the encoding. */
  function Complete(ms: seq<Message>, n: nat): (k: nat)
    ensures k <= |ms|
  {
    if ms == [] || n < |Encode(ms[0])| then 0 else 1 + Complete(ms[1..], n - |Encode(ms[0])|)
  }

  lemma ParseAllEncoded(m: Message, rest: seq<u8>, limit: u32, ms: seq<Message>, last: seq<u8>)
    requires |m.body| <= limit && ParseAll(rest, limit).0 == ms && ParseAll(rest, limit).1 == last
    ensures ParseAll(Encode(m) + rest, limit).0 == [m] + ms
    ensures ParseAll(Encode(m) + rest, limit).1 == last
  {
    ParseEncoded(m, rest, limit);
  }

  lemma EncodeAllFirst(m: Message, ms: seq<Message>)
    ensures EncodeAll([m] + ms) == Encode(m) + EncodeAll(ms)
  {
    assert ([m] + ms)[1..] == ms;
  }

  /** `part` is a beginning of the next message, but not all of it. */
  predicate Beginning(part: seq<u8>, todo: seq<Message>) {
    if todo == [] then part == [] else part < Encode(todo[0])
  }

  /** The first `n` bytes are the complete messages and a beginning of the next one. */
  lemma {:induction false} Arrived(ms: seq<Message>, n: nat) returns (part: seq<u8>)
    requires n <= |EncodeAll(ms)|
    ensures Beginning(part, ms[Complete(ms, n)..])
    ensures EncodeAll(ms)[..n] == EncodeAll(ms[..Complete(ms, n)]) + part
    decreases |ms|
  {
    if ms == [] || n < |Encode(ms[0])| {
      part := EncodeAll(ms)[..n];
    } else {
      var head, later := Encode(ms[0]), ms[1..];
      part := Arrived(later, n - |head|);
      var k := Complete(later, n - |head|);
      EncodeAllFirst(ms[0], later[..k]);
      assert ms[..k + 1] == [ms[0]] + later[..k];
      assert ms[k + 1..] == later[k..];
      assert EncodeAll(ms)[..n] == head + EncodeAll(later)[..n - |head|];
    }
  }

  lemma {:induction false} ParseArrived(done: seq<Message>, part: seq<u8>, todo: seq<Message>, limit: u32)
    requires Within(done, limit) && Within(todo, limit) && Beginning(part, todo)
    ensures ParseAll(EncodeAll(done) + part, limit).0 == done
    ensures ParseAll(EncodeAll(done) + part, limit).1 == part
    decreases |done|
  {
    if done != [] {
      var rest := EncodeAll(done[1..]) + part;
      ParseArrived(done[1..], part, todo, limit);
      assert EncodeAll(done) + part == Encode(done[0]) + rest;
      ParseAllEncoded(done[0], rest, limit, done[1..], part);
      assert [done[0]] + done[1..] == done;
    } else {
      assert EncodeAll(done) + part == part;
      if todo != [] {
        ParsePartial(todo[0], part, limit);
      }
    }
  }

  /** The framing theorem. However much of the encoding of a list has arrived, reading yields
      exactly those messages of the list that have arrived whole, in order and unchanged, and
      leaves a beginning of the next one. */
  lemma FramingPrefix(ms: seq<Message>, n: nat, limit: u32)
    requires Within(ms, limit) && n <= |EncodeAll(ms)|
    ensures var (got, left) := ParseAll(EncodeAll(ms)[..n], limit);
            && got == ms[..Complete(ms, n)]
            && Beginning(left, ms[Complete(ms, n)..])
            && EncodeAll(got) + left == EncodeAll(ms)[..n]
  {
    var part := Arrived(ms, n);
    ParseArrived(ms[..Complete(ms, n)], part, ms[Complete(ms, n)..], limit);
  }

  /** What a sender has sent after one more message. */
  lemma {:induction false} EncodeAllLast(ms: seq<Message>, m: Message)
    ensures EncodeAll(ms + [m]) == EncodeAll(ms) + Encode(m)
  {
    if ms == [] {
      assert [m][1..] == [];
    } else {
      EncodeAllLast(ms[1..], m);
      assert (ms + [m])[1..] == ms[1..] + [m];
      assert EncodeAll(ms + [m]) == Encode(ms[0]) + (EncodeAll(ms[1..]) + Encode(m));
    }
  }

  lemma {:induction false} CompleteAll(ms: seq<Message>)
    ensures Complete(ms, |EncodeAll(ms)|) == |ms|
  {
    if ms != [] {
      CompleteAll(ms[1..]);
    }
  }

  /** The round trip: any list of messages within the limit comes back unchanged. */
  lemma FramingRoundTrip(ms: seq<Message>, limit: u32)
    requires Within(ms, limit)
    ensures ParseAll(EncodeAll(ms), limit) == (ms, [])
  {
    var s := EncodeAll(ms);
    FramingPrefix(ms, |s|, limit);
    CompleteAll(ms);
    assert s[..|s|] == s && ms[..|ms|] == ms;
    assert |ParseAll(s, limit).1| == 0;
  }

  lemma {:induction false} EncodeAllPlus(a: seq<Message>, b: seq<Message>)
    ensures EncodeAll(a + b) == EncodeAll(a) + EncodeAll(b)
  {
    if a == [] {
      assert a + b == b;
    } else {
      EncodeAllPlus(a[1..], b);
      assert (a + b)[1..] == a[1..] + b;
      assert Encode(a[0]) + (EncodeAll(a[1..]) + EncodeAll(b)) == EncodeAll(a) + EncodeAll(b);
    }
  }

  lemma SentSoFar(before: seq<u8>, ms: seq<Message>, n: nat)
    requires n <= |ms|
    ensures before + EncodeAll(ms[..n]) <= before + EncodeAll(ms)
  {
    EncodeAllPlus(ms[..n], ms[n..]);
    assert ms[..n] + ms[n..] == ms;
  }

  /** What a beginning of a list of messages holds next: its first message, or too little. */
  lemma NextOutcome(ms: seq<Message>, s: seq<u8>, limit: u32)
    requires ms != [] && Within(ms, limit) && s <= EncodeAll(ms)
    ensures Parse(s, limit).Short? || (Parse(s, limit).Whole? && Parse(s, limit).msg == ms[0]
                                       && Parse(s, limit).rest <= EncodeAll(ms[1..]))
  {
    var e := Encode(ms[0]);
    if |s| < |e| {
      assert s == EncodeAll(ms)[..|s|] == e[..|s|];
      ParsePartial(ms[0], s, limit);
    } else {
      var rest := s[|e|..];
      assert s[..|e|] == EncodeAll(ms)[..|e|] == e && s == e + rest;
      assert rest == EncodeAll(ms)[|e|..|s|] == EncodeAll(ms[1..])[..|rest|];
      ParseEncoded(ms[0], rest, limit);
    }
  }

  /** A message with a register number before its data, as it goes out. */
  function Single(id: u16, reg: u32, body: seq<u8>): seq<u8>
    requires |body| < 0x1_0000_0000
  {
    Header(id, (|body| + 4) % 0x1_0000_0000) + (Bytes(reg, 4) + body)
  }

  /** Within the receiver's limit it is read back as one message. */
  lemma SingleIsMessage(id: u16, reg: u32, body: seq<u8>, limit: u32)
    requires |body| < 0x1_0000_0000 && |body| + 4 <= limit
    ensures Parse(Single(id, reg, body), limit) == Whole(Msg(id, Bytes(reg, 4) + body), [])
  {
    var m: Message := Msg(id, Bytes(reg, 4) + body);
    var e := Encode(m);
    assert e == Single(id, reg, body);
    ParseEncoded(m, [], limit);
    assert e + [] == e;
  }

  // ----- the socket -----

  datatype Status = Ok | Errno | NotConnected | BadHeader | MessageTooLong

  /** One end of a connection. `rx` holds what the peer has sent and is not yet read, `tx`
      what has been taken for sending; `failed` records that a call has moved no bytes. */
  class Socket {
    var rx: seq<u8>
    var tx: seq<u8>
    ghost var failed: bool

    /** `send`: takes any part of the buffer, or none. */
    method Send(buf: seq<u8>) returns (ret: int)
      modifies this`tx, this`failed
      ensures -1 <= ret <= |buf|
      ensures tx == old(tx) + buf[..Max(ret, 0)]
      ensures failed == (old(failed) || ret <= 0)
    {
      ret :| -1 <= ret <= |buf|;
      tx := tx + buf[..Max(ret, 0)];
      failed := failed || ret <= 0;
    }

    /** `recv`: gives any part of what is there and asked for, or nothing. */
    method Recv(n: nat) returns (ret: int, buf: seq<u8>)
      modifies this`rx, this`failed
      ensures -1 <= ret <= n && |buf| == Max(ret, 0)
      ensures old(rx) == buf + rx
      ensures failed == (old(failed) || ret <= 0)
    {
      var most := Min(n, |rx|);
      ret :| -1 <= ret <= most;
      buf, rx := rx[..Max(ret, 0)], rx[Max(ret, 0)..];
      failed := failed || ret <= 0;
    }

    method SendAll(buf: seq<u8>) returns (st: Status)
      modifies this`tx, this`failed
      ensures st in {Ok, Errno, NotConnected}
      ensures failed == (old(failed) || st != Ok)
      ensures old(tx) <= tx <= old(tx) + buf
      ensures st == Ok <==> tx == old(tx) + buf
    {
      var left := buf;
      while left != []
        invariant |left| <= |buf| && left == buf[|buf| - |left|..]
        invariant tx == old(tx) + buf[..|buf| - |left|]
        invariant failed == old(failed)
      {
        ghost var done := |buf| - |left|;
        var ret := Send(left);
        assert buf[..done] + left[..Max(ret, 0)] == buf[..done + Max(ret, 0)];
        if ret < 0 {
          return Errno;
        } else if ret == 0 {
          return NotConnected;
        }
        left := left[ret..];
      }
      return Ok;
    }

    method RecvAll(n: nat) returns (st: Status, buf: seq<u8>)
      modifies this`rx, this`failed
      ensures st in {Ok, Errno, NotConnected}
      ensures failed == (old(failed) || st != Ok)
      ensures old(rx) == buf + rx
      ensures |buf| <= n && (st == Ok <==> |buf| == n)
    {
      buf := [];
      while |buf| < n
        invariant |buf| <= n
        invariant old(rx) == buf + rx
        invariant failed == old(failed)
      {
        var ret, part := Recv(n - |buf|);
        if ret < 0 {
          return Errno, buf;
        } else if ret == 0 {
          return NotConnected, buf;
        }
        buf := buf + part;
      }
      return Ok, buf;
    }

    method SendHead(id: u16, len: u32) returns (st: Status)
      modifies this`tx, this`failed
      ensures st in {Ok, Errno, NotConnected}
      ensures failed == (old(failed) || st != Ok)
      ensures old(tx) <= tx <= old(tx) + Header(id, len)
      ensures st == Ok <==> tx == old(tx) + Header(id, len)
    {
      st := SendAll([P, S] + Bytes(id, 2) + Bytes(len, 4));
    }

    /** Sends a message whole, or fails having sent a proper beginning of it. */
    method SendMsg(id: u16, body: seq<u8>) returns (st: Status)
      requires |body| < 0x1_0000_0000
      modifies this`tx, this`failed
      ensures st in {Ok, Errno, NotConnected}
      ensures failed == (old(failed) || st != Ok)
      ensures old(tx) <= tx <= old(tx) + Encode(Msg(id, body))
      ensures body != [] ==> (st == Ok <==> tx == old(tx) + Encode(Msg(id, body)))
      ensures st == Ok ==> tx == old(tx) + Encode(Msg(id, body))
    {
      ghost var whole := old(tx) + Encode(Msg(id, body));
      assert whole == old(tx) + Header(id, |body|) + body;
      st := SendHead(id, |body|);
      if st == Ok {
        st := SendAll(body);
      } else {
        assert tx <= old(tx) + Header(id, |body|) <= whole;
      }
    }

    /** The same, with a 32-bit register number before the data. The length in the header is
        that of both, and wraps when they reach 32 bits. */
    method SendMsgSingle(id: u16, reg: u32, body: seq<u8>) returns (st: Status)
      requires |body| < 0x1_0000_0000
      modifies this`tx, this`failed
      ensures st in {Ok, Errno, NotConnected}
      ensures failed == (old(failed) || st != Ok)
      ensures old(tx) <= tx <= old(tx) + Single(id, reg, body)
      ensures st == Ok ==> tx == old(tx) + Single(id, reg, body)
    {
      var len := (|body| + 4) % 0x1_0000_0000;
      ghost var whole := old(tx) + Single(id, reg, body);
      assert whole == old(tx) + Header(id, len) + Bytes(reg, 4) + body;
      st := SendHead(id, len);
      if st != Ok {
        assert tx <= old(tx) + Header(id, len) <= whole;
        return;
      }
      st := SendAll(Bytes(reg, 4));
      if st != Ok {
        assert tx <= old(tx) + Header(id, len) + Bytes(reg, 4) <= whole;
        return;
      }
      st := SendAll(body);
    }

    method RecvHead() returns (st: Status, id: u16, len: u32)
      modifies this`rx, this`failed
      ensures st != MessageTooLong
      ensures failed == (old(failed) || st in {Errno, NotConnected})
      ensures |rx| <= |old(rx)| && rx == old(rx)[|old(rx)| - |rx|..]
      ensures st in {Ok, BadHeader} ==>
                |old(rx)| >= HEADER && rx == old(rx)[HEADER..] && (st == Ok <==> Magic(old(rx)[..HEADER]))
      ensures st == Ok ==>
                && id == FromBigEndian16(old(rx)[..HEADER][2..4])
                && len == FromBigEndian32(old(rx)[..HEADER][4..])
    {
      id, len := 0, 0;
      var buf;
      st, buf := RecvAll(HEADER);
      assert rx == old(rx)[|buf|..] && buf == old(rx)[..|buf|];
      if st == Ok {
        if buf[0] != P || buf[1] != S {
          return BadHeader, 0, 0;
        }
        id, len := FromBigEndian16(buf[2..4]), FromBigEndian32(buf[4..]);
      }
    }

    /** Reads one message: what it returns is what the bytes hold, unless the stream fails
        first. A bad magic or an oversized length takes the header and not a byte more. */
    method RecvMsg(limit: u32) returns (st: Status, id: u16, len: u32, body: seq<u8>)
      modifies this`rx, this`failed
      ensures failed == (old(failed) || st in {Errno, NotConnected})
      ensures |rx| <= |old(rx)| && rx == old(rx)[|old(rx)| - |rx|..]
      ensures st == Ok ==> |body| == len && Parse(old(rx), limit) == Whole(Msg(id, body), rx)
      ensures st == BadHeader ==> Parse(old(rx), limit) == BadMagic(rx)
      ensures st == MessageTooLong ==> Parse(old(rx), limit) == TooLong(id, len, rx)
      ensures Parse(old(rx), limit).Short? ==> st in {Errno, NotConnected}
    {
      body := [];
      st, id, len := RecvHead();
      if st != Ok {
        return;
      }
      if len > limit {
        return MessageTooLong, id, len, [];
      }
      ghost var rest := rx;
      st, body := RecvAll(len);
      assert rx == rest[|body|..] && body == rest[..|body|];
    }

    /** Messages in turn, until one fails. */
    method SendMsgs(ms: seq<Message>) returns (st: Status)
      modifies this`tx, this`failed
      ensures st in {Ok, Errno, NotConnected}
      ensures failed == (old(failed) || st != Ok)
      ensures old(tx) <= tx <= old(tx) + EncodeAll(ms)
      ensures st == Ok ==> tx == old(tx) + EncodeAll(ms)
    {
      st := Ok;
      var n := 0;
      while n < |ms|
        invariant 0 <= n <= |ms|
        invariant tx == old(tx) + EncodeAll(ms[..n])
        invariant failed == old(failed) && st == Ok
      {
        ghost var next := old(tx) + EncodeAll(ms[..n + 1]);
        EncodeAllLast(ms[..n], ms[n]);
        assert ms[..n + 1] == ms[..n] + [ms[n]];
        assert next == tx + Encode(ms[n]);
        SentSoFar(old(tx), ms, n + 1);
        st := SendMsg(ms[n].id, ms[n].body);
        if st != Ok {
          assert tx <= next <= old(tx) + EncodeAll(ms);
          return;
        }
        n := n + 1;
      }
      assert ms[..|ms|] == ms;
    }

    /** Receives up to `count` of the messages of which the stream holds a beginning. What is
        received is those messages, in order and unchanged; and all of them, unless the stream
        fails first. It never takes a message for a fault. */
    method RecvMsgs(limit: u32, count: nat, ghost ms: seq<Message>) returns (st: Status, got: seq<Message>)
      requires count <= |ms| && Within(ms, limit) && rx <= EncodeAll(ms)
      modifies this`rx, this`failed
      ensures st in {Ok, Errno, NotConnected}
      ensures failed == (old(failed) || st != Ok)
      ensures got <= ms && |got| <= count && (st == Ok <==> |got| == count)
    {
      st, got := Ok, [];
      while |got| < count
        invariant |got| <= count && got == ms[..|got|]
        invariant rx <= EncodeAll(ms[|got|..])
        invariant failed == old(failed) && st == Ok
      {
        ghost var k, stream := |got|, rx;
        NextOutcome(ms[k..], stream, limit);
        assert ms[k..][0] == ms[k] && ms[k..][1..] == ms[k + 1..];
        var id, len, body;
        st, id, len, body := RecvMsg(limit);
        if st != Ok {
          return;
        }
        got := got + [Msg(id, body)];
      }
    }
  }

  /** From one socket to another, over a connection that delivers some beginning of what was
      sent: the receiver holds a beginning of the list, and all of it when neither end failed. */
  method Deliver(sender: Socket, receiver: Socket, ms: seq<Message>, limit: u32)
    returns (got: seq<Message>)
    requires sender != receiver && sender.tx == [] && Within(ms, limit)
    modifies sender, receiver
    ensures got <= ms
    ensures !sender.failed && !receiver.failed ==> got == ms
  {
    var st := sender.SendMsgs(ms);
    var arrived :| 0 <= arrived <= |sender.tx|;
    receiver.rx := sender.tx[..arrived];
    assert receiver.rx <= EncodeAll(ms);
    st, got := receiver.RecvMsgs(limit, |ms|, ms);
  }
}
