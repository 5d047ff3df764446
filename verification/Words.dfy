/** Machine words, and the small helpers that several modules share. */
module Words {
  type u8 = x: int | 0 <= x < 0x100
  type u16 = x: int | 0 <= x < 0x1_0000
  type u32 = x: int | 0 <= x < 0x1_0000_0000

  datatype Option<+T> = None | Some(value: T)

  function Min(a: int, b: int): int {
    if a < b then a else b
  }

  function Max(a: int, b: int): int {
    if a < b then b else a
  }

  function Abs(x: int): nat {
    if x < 0 then -x else x
  }

  /** A 32-bit word read as two's complement. */
  function Signed32(w: u32): int {
    if w < 0x8000_0000 then w else w - 0x1_0000_0000
  }

  function FromBigEndian16(b: seq<u8>): u16
    requires |b| == 2
  {
    var hi: int, lo: int := b[0], b[1];
    hi * 0x100 + lo
  }

  function FromBigEndian32(b: seq<u8>): u32
    requires |b| == 4
  {
    var hi: int, lo: int := FromBigEndian16(b[..2]), FromBigEndian16(b[2..]);
    hi * 0x1_0000 + lo
  }

  /** A word shifted right by `i` bytes. */
  function Shr(w: nat, i: nat): nat {
    if i == 0 then w else Shr(w, i - 1) / 0x100
  }

  /** Byte `i` of a word, counted from the least significant. */
  function ByteOf(w: nat, i: nat): u8 {
    Shr(w, i) % 0x100
  }

  /** The low `n` bytes of a word, the highest first. */
  function Bytes(w: nat, n: nat): (b: seq<u8>)
    ensures |b| == n
  {
    seq(n, j requires 0 <= j < n => ByteOf(w, n - 1 - j))
  }

  lemma Digits(w: nat, w1: nat, w2: nat, w3: nat)
    requires w1 == w / 0x100 && w2 == w1 / 0x100 && w3 == w2 / 0x100
    ensures (w3 % 0x100 * 0x100 + w2 % 0x100) * 0x1_0000 + (w1 % 0x100 * 0x100 + w % 0x100) == w % 0x1_0000_0000
  {
    var q, d3, d2, d1, d0 := w3 / 0x100, w3 % 0x100, w2 % 0x100, w1 % 0x100, w % 0x100;
    assert w3 == q * 0x100 + d3;
    assert w2 == q * 0x1_0000 + d3 * 0x100 + d2;
    assert w1 == q * 0x100_0000 + d3 * 0x1_0000 + d2 * 0x100 + d1;
    var low := d3 * 0x100_0000 + d2 * 0x1_0000 + d1 * 0x100 + d0;
    assert w == q * 0x1_0000_0000 + low;
  }

  /** The last four of a word's bytes spell it up to 32 bits. */
  lemma LowBytes(w: nat, n: nat)
    requires n >= 4
    ensures FromBigEndian32(Bytes(w, n)[n - 4..]) == w % 0x1_0000_0000
  {
    var b := Bytes(w, n)[n - 4..];
    assert b[0] == ByteOf(w, 3) && b[1] == ByteOf(w, 2) && b[2] == ByteOf(w, 1) && b[3] == ByteOf(w, 0);
    assert FromBigEndian32(b)
           == (ByteOf(w, 3) * 0x100 + ByteOf(w, 2)) * 0x1_0000 + (ByteOf(w, 1) * 0x100 + ByteOf(w, 0));
    Digits(w, Shr(w, 1), Shr(w, 2), Shr(w, 3));
  }

  lemma BytesRead16(w: u16)
    ensures FromBigEndian16(Bytes(w, 2)) == w
  {
    assert Bytes(w, 2)[0] == ByteOf(w, 1) && Bytes(w, 2)[1] == ByteOf(w, 0);
    assert Shr(w, 1) == w / 0x100;
  }

  lemma BytesRead32(w: u32)
    ensures FromBigEndian32(Bytes(w, 4)) == w
  {
    LowBytes(w, 4);
  }

  /** The converse: a word's bytes are the bytes it was read from. */
  lemma BytesWritten16(b: seq<u8>)
    requires |b| == 2
    ensures Bytes(FromBigEndian16(b), 2) == b
  {
    var w := FromBigEndian16(b);
    assert Shr(w, 1) == w / 0x100 == b[0];
    assert ByteOf(w, 1) == b[0] && ByteOf(w, 0) == b[1];
  }

  lemma BytesWritten32(b: seq<u8>)
    requires |b| == 4
    ensures Bytes(FromBigEndian32(b), 4) == b
  {
    var w := FromBigEndian32(b);
    assert Shr(w, 1) == w / 0x100 == (b[0] as int * 0x100 + b[1]) * 0x100 + b[2];
    assert Shr(w, 2) == Shr(w, 1) / 0x100 == b[0] as int * 0x100 + b[1];
    assert Shr(w, 3) == Shr(w, 2) / 0x100 == b[0];
    assert ByteOf(w, 3) == b[0] && ByteOf(w, 2) == b[1] && ByteOf(w, 1) == b[2] && ByteOf(w, 0) == b[3];
  }
}
