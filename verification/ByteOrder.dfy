/** The conversion of a whole message to network order, in place, four bytes at a time. */
module ByteOrder {
  import opened Words

  /** Word `w` of `b` is word `w` of `a` with its bytes in the other order. */
  predicate Reversed(a: seq<u8>, b: seq<u8>, w: nat) {
    && 4 * w + 4 <= |a| && 4 * w + 4 <= |b|
    && b[4 * w] == a[4 * w + 3] && b[4 * w + 1] == a[4 * w + 2]
    && b[4 * w + 2] == a[4 * w + 1] && b[4 * w + 3] == a[4 * w]
  }

  /** So are the first `n` words, and the rest is the same. */
  ghost predicate Converted(a: seq<u8>, b: seq<u8>, n: nat) {
    && |a| == |b| && 4 * n <= |a|
    && (forall w :: 0 <= w < n ==> Reversed(a, b, w))
    && b[4 * n..] == a[4 * n..]
  }

  lemma ConvertedNext(a: seq<u8>, b: seq<u8>, c: seq<u8>, n: nat)
    requires Converted(a, b, n) && |b| == |c| && Reversed(b, c, n)
    requires c[..4 * n] == b[..4 * n] && c[4 * n + 4..] == b[4 * n + 4..]
    ensures Converted(a, c, n + 1)
  {
    forall w | 0 <= w < n + 1 ensures Reversed(a, c, w) {
      if w < n {
        assert Reversed(a, b, w);
        assert c[..4 * n][4 * w] == c[4 * w] && c[..4 * n][4 * w + 1] == c[4 * w + 1];
        assert c[..4 * n][4 * w + 2] == c[4 * w + 2] && c[..4 * n][4 * w + 3] == c[4 * w + 3];
      } else {
        assert b[4 * n..][0] == b[4 * n] && b[4 * n..][1] == b[4 * n + 1];
        assert b[4 * n..][2] == b[4 * n + 2] && b[4 * n..][3] == b[4 * n + 3];
      }
    }
    assert c[4 * n + 4..] == b[4 * n..][4..] == a[4 * n..][4..] == a[4 * n + 4..];
  }

  /** Reverses one word. */
  method SwapWord(buf: array<u8>, i: nat)
    requires i % 4 == 0 && i + 4 <= buf.Length
    modifies buf
    ensures Reversed(old(buf[..]), buf[..], i / 4)
    ensures buf[..i] == old(buf[..i]) && buf[i + 4..] == old(buf[i + 4..])
  {
    var temp := buf[i];
    buf[i] := buf[i + 3];
    buf[i + 3] := temp;
    temp := buf[i + 1];
    buf[i + 1] := buf[i + 2];
    buf[i + 2] := temp;
  }

  /** Swaps the order of the bytes in every word that begins below `len`. */
  method HtonConv(buf: array<u8>, len: nat)
    requires (len + 3) / 4 * 4 <= buf.Length
    modifies buf
    ensures Converted(old(buf[..]), buf[..], (len + 3) / 4)
  {
    var i := 0;
    ghost var n := 0;
    while i < len
      invariant i == 4 * n && n <= (len + 3) / 4
      invariant Converted(old(buf[..]), buf[..], n)
      decreases (len + 3) / 4 - n
    {
      ghost var before := buf[..];
      SwapWord(buf, i);
      ghost var after := buf[..];
      assert after[..i] == buf[..i] == before[..i] && after[i + 4..] == buf[i + 4..] == before[i + 4..];
      ConvertedNext(old(buf[..]), before, after, n);
      i := i + 4;
      n := n + 1;
    }
  }

  /** Converting twice gives the message back. */
  lemma ConvertedTwice(a: seq<u8>, b: seq<u8>, c: seq<u8>, n: nat)
    requires Converted(a, b, n) && Converted(b, c, n)
    ensures c == a
  {
    forall i | 0 <= i < |a| ensures c[i] == a[i] {
      if i < 4 * n {
        assert Reversed(a, b, i / 4) && Reversed(b, c, i / 4);
      } else {
        assert c[4 * n..][i - 4 * n] == b[4 * n..][i - 4 * n] == a[4 * n..][i - 4 * n];
      }
    }
  }

  /** Words one after another, as the processor keeps them (the low byte first) or in network
      order. */
  function Laid(ws: seq<u32>, network: bool): (b: seq<u8>)
    ensures |b| == 4 * |ws|
  {
    seq(4 * |ws|, i requires 0 <= i < 4 * |ws| => ByteOf(ws[i / 4], if network then 3 - i % 4 else i % 4))
  }

  lemma LaidReversed(ws: seq<u32>, w: nat)
    requires w < |ws|
    ensures Reversed(Laid(ws, false), Laid(ws, true), w)
  {
  }

  /** Whatever converts `a` is `c`, word by word. */
  lemma ReversedOnce(a: seq<u8>, b: seq<u8>, c: seq<u8>, n: nat)
    requires Converted(a, b, n) && |a| == |c| == 4 * n && forall w :: 0 <= w < n ==> Reversed(a, c, w)
    ensures b == c
  {
    forall i | 0 <= i < |b| ensures b[i] == c[i] {
      assert Reversed(a, b, i / 4) && Reversed(a, c, i / 4);
    }
  }

  lemma AllReversed(ws: seq<u32>, a: seq<u8>, c: seq<u8>)
    requires a == Laid(ws, false) && c == Laid(ws, true)
    ensures forall w :: 0 <= w < |ws| ==> Reversed(a, c, w)
  {
    forall w | 0 <= w < |ws| ensures Reversed(a, c, w) {
      LaidReversed(ws, w);
    }
  }

  /** In network order a word's high byte comes first; as the processor keeps it, last. */
  lemma LaidBytes(ws: seq<u32>, w: nat)
    requires w < |ws|
    ensures Laid(ws, true)[4 * w..4 * w + 4] == Bytes(ws[w], 4)
    ensures Laid(ws, false)[4 * w + 3] == Bytes(ws[w], 4)[0] && Laid(ws, false)[4 * w] == Bytes(ws[w], 4)[3]
    ensures Laid(ws, false)[4 * w + 2] == Bytes(ws[w], 4)[1] && Laid(ws, false)[4 * w + 1] == Bytes(ws[w], 4)[2]
  {
    assert Bytes(ws[w], 4) == [ByteOf(ws[w], 3), ByteOf(ws[w], 2), ByteOf(ws[w], 1), ByteOf(ws[w], 0)];
  }

  /** Words as the processor keeps them become words in network order. */
  lemma NetworkOrder(ws: seq<u32>, b: seq<u8>)
    requires Converted(Laid(ws, false), b, |ws|)
    ensures b == Laid(ws, true)
    ensures forall w :: 0 <= w < |ws| ==> b[4 * w..4 * w + 4] == Bytes(ws[w], 4)
  {
    var a, c := Laid(ws, false), Laid(ws, true);
    AllReversed(ws, a, c);
    ReversedOnce(a, b, c, |ws|);
    forall w | 0 <= w < |ws| ensures b[4 * w..4 * w + 4] == Bytes(ws[w], 4) {
      LaidBytes(ws, w);
    }
  }
}
