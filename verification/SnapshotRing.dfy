/** The 10 kHz waveform ring: the FPGA writes one 40-word record per trigger into a circular
    buffer of 200000 slots, for ever; the snapshot code copies the window around a trigger
    out of it. The ring is tied to the infinite record log it is a window on. */
module SnapshotRing {
  import opened Words

  const BASE := 0x1000_0000
  const MAX_ADDR := 0x11E8_4760
  const BUFLEN := 0x01E8_4800
  const SLOTS := 200000
  const STEP_BYTES := 160
  const STEP_WORDS := 40
  const COLUMNS := 10

  type Record = r: seq<u32> | |r| == STEP_WORDS witness seq(STEP_WORDS, _ => 0)

  function Wrap32(x: int): u32 {
    x % 0x1_0000_0000
  }

  type s32 = x: int | -0x8000_0000 <= x < 0x8000_0000

  /** What the converters of one channel read, sign-extended to a word. */
  datatype Reading = Reading(dcct1: s32, dcct2: s32, dacMonitor: s32, voltage: s32, ground: s32, spare: s32,
                             regulator: s32, error: s32)

  /** What is recorded at one trigger: four channels, and a word of digital bits for each. */
  datatype Samples = Samples(channels: seq<Reading>, digital: seq<u32>)

  type Sample = s: Samples | |s.channels| == |s.digital| == 4
    witness Samples(seq(4, _ => Reading(0, 0, 0, 0, 0, 0, 0, 0)), seq(4, _ => 0))

  function ChannelWords(c: Reading): (w: seq<u32>)
    ensures |w| == 8
  {
    [Wrap32(c.dcct1), Wrap32(c.dcct2), Wrap32(c.dacMonitor), Wrap32(c.voltage),
     Wrap32(c.ground), Wrap32(c.spare), Wrap32(c.regulator), Wrap32(c.error)]
  }

  /** One burst: header, slot counter, 4 x 8 converter readings, 4 digital words, and two tags. */
  function MakeRecord(datacnt: u32, s: Sample): Record {
    [0x8000_0000, datacnt] + Converters(s) + s.digital + [39, 40]
  }

  function Converters(s: Sample): (w: seq<u32>)
    ensures |w| == 32
  {
    var c := s.channels;
    ChannelWords(c[0]) + ChannelWords(c[1]) + ChannelWords(c[2]) + ChannelWords(c[3])
  }

  // ----- the ring and the log -----

  /** The record written last into slot `s` once `n` records are written; negative if none. */
  function Latest(n: nat, s: nat): int {
    n - 1 - (n - 1 - s) % SLOTS
  }

  /** The memory holds, in its slot, every record not yet overwritten. */
  ghost predicate Holds(mem: seq<u32>, log: seq<Record>) {
    && |mem| == SLOTS * STEP_WORDS
    && forall j :: 0 <= j < |log| && |log| - SLOTS <= j ==> SlotOf(mem, j % SLOTS) == log[j]
  }

  lemma LatestIs(n: nat, r: nat)
    ensures Latest(n, r % SLOTS) == r <==> n - SLOTS <= r < n
  {
    var k := (n - 1 - r % SLOTS) % SLOTS;
    assert (n - 1 - r) % SLOTS == k;
  }

  /** The ring still shows record `r` once `n` records are written. */
  predicate Shows(n: nat, r: nat) {
    Latest(n, r % SLOTS) == r
  }

  /** Exactly when the ring still shows a window of the log: all of it has been written, and
      none of it overwritten. */
  lemma WindowIntact(n: nat, t: nat, pre: nat, post: nat)
    requires pre <= t && 0 < pre + post
    ensures (forall r :: t - pre <= r < t + post ==> Shows(n, r)) <==> t + post <= n <= t - pre + SLOTS
  {
    forall r | t - pre <= r < t + post ensures Shows(n, r) <==> n - SLOTS <= r < n {
      LatestIs(n, r);
    }
    if forall r :: t - pre <= r < t + post ==> Shows(n, r) {
      assert Shows(n, t - pre) && Shows(n, t + post - 1);
    }
  }

  // ----- columns -----

  datatype ScaleFactor = ScaleFactor(dacDccts: real, vout: real, ignd: real, spare: real, regulator: real, error: real)

  datatype Calibration = Calibration(convDac: real, conv16: real, scale: ScaleFactor)

  /** Where column `col` of channel `chan` sits in a record. */
  function WordOf(chan: nat, col: nat): (w: nat)
    requires 1 <= chan <= 4 && col < COLUMNS
    ensures w < STEP_WORDS
  {
    if col < 2 then col else 8 * (chan - 1) + col
  }

  /** The value sent for a record word in column `col`. */
  function Cell(cal: Calibration, col: nat, word: u32): real
    requires col < COLUMNS
  {
    var v := Signed32(word) as real;
    match col
    case 0 => word as real
    case 1 => word as real
    case 2 => v * cal.convDac * cal.scale.dacDccts
    case 3 => v * cal.convDac * cal.scale.dacDccts
    case 4 => v * cal.conv16 * cal.scale.dacDccts
    case 5 => v * cal.conv16 * cal.scale.vout
    case 6 => v * cal.conv16 * cal.scale.ignd
    case 7 => v * cal.conv16 * cal.scale.spare
    case 8 => v * cal.conv16 * cal.scale.regulator
    case _ => v * cal.conv16 * cal.scale.error
  }

  /** The message row that shows one record. */
  function Cells(r: Record, chan: nat, cal: Calibration): (row: seq<real>)
    requires 1 <= chan <= 4
    ensures |row| == COLUMNS
  {
    seq(COLUMNS, c requires 0 <= c < COLUMNS => Cell(cal, c, r[WordOf(chan, c)]))
  }

  /** Row `j` of a message. */
  function Row(msg: seq<real>, j: nat): seq<real>
    requires COLUMNS * (j + 1) <= |msg|
  {
    msg[COLUMNS * j..COLUMNS * (j + 1)]
  }

  /** The record in slot `s`. */
  function SlotOf(mem: seq<u32>, s: nat): Record
    requires STEP_WORDS * (s + 1) <= |mem|
  {
    mem[STEP_WORDS * s..STEP_WORDS * (s + 1)]
  }

  // ----- a row by name -----

  /** A message row that shows a sample: the header and the slot counter, and the channel's readings,
      each in its own unit. */
  predicate Tells(row: seq<real>, datacnt: nat, c: Reading, cal: Calibration) {
    && |row| == COLUMNS
    && row[0] == 2147483648.0 && row[1] == datacnt as real
    && row[2] == c.dcct1 as real * cal.convDac * cal.scale.dacDccts
    && row[3] == c.dcct2 as real * cal.convDac * cal.scale.dacDccts
    && row[4] == c.dacMonitor as real * cal.conv16 * cal.scale.dacDccts
    && row[5] == c.voltage as real * cal.conv16 * cal.scale.vout
    && row[6] == c.ground as real * cal.conv16 * cal.scale.ignd
    && row[7] == c.spare as real * cal.conv16 * cal.scale.spare
    && row[8] == c.regulator as real * cal.conv16 * cal.scale.regulator
    && row[9] == c.error as real * cal.conv16 * cal.scale.error
  }

  /** Where the words of a channel are in a record. */
  lemma WordsOf(datacnt: u32, s: Sample, chan: nat, col: nat)
    requires 1 <= chan <= 4 && 2 <= col < COLUMNS
    ensures MakeRecord(datacnt, s)[WordOf(chan, col)] == ChannelWords(s.channels[chan - 1])[col - 2]
  {
    ConverterWord(s, chan - 1, col - 2);
    assert MakeRecord(datacnt, s)[2 + (WordOf(chan, col) - 2)] == Converters(s)[WordOf(chan, col) - 2];
  }

  lemma ConverterWord(s: Sample, c: nat, m: nat)
    requires c < 4 && m < 8
    ensures Converters(s)[8 * c + m] == ChannelWords(s.channels[c])[m]
  {
    var w0, w1, w2, w3 := ChannelWords(s.channels[0]), ChannelWords(s.channels[1]), ChannelWords(s.channels[2]),
                          ChannelWords(s.channels[3]);
    if c == 0 {
      assert (w0 + w1 + w2 + w3)[m] == w0[m];
    } else if c == 1 {
      assert (w0 + w1 + w2 + w3)[8 + m] == w1[m];
    } else if c == 2 {
      assert (w0 + w1 + w2 + w3)[16 + m] == w2[m];
    } else {
      assert (w0 + w1 + w2 + w3)[24 + m] == w3[m];
    }
  }

  /** And the words that belong to no channel. */
  lemma RecordFrame(datacnt: u32, s: Sample)
    ensures var r := MakeRecord(datacnt, s);
            && r[0] == 0x8000_0000 && r[1] == datacnt && r[38] == 39 && r[39] == 40
            && forall c :: 0 <= c < 4 ==> r[34 + c] == s.digital[c]
  {
  }

  /** A column's reading, in its unit. */
  lemma CellTells(cal: Calibration, x: s32)
    ensures Cell(cal, 2, Wrap32(x)) == Cell(cal, 3, Wrap32(x)) == x as real * cal.convDac * cal.scale.dacDccts
    ensures Cell(cal, 4, Wrap32(x)) == x as real * cal.conv16 * cal.scale.dacDccts
    ensures Cell(cal, 5, Wrap32(x)) == x as real * cal.conv16 * cal.scale.vout
    ensures Cell(cal, 6, Wrap32(x)) == x as real * cal.conv16 * cal.scale.ignd
    ensures Cell(cal, 7, Wrap32(x)) == x as real * cal.conv16 * cal.scale.spare
    ensures Cell(cal, 8, Wrap32(x)) == x as real * cal.conv16 * cal.scale.regulator
    ensures Cell(cal, 9, Wrap32(x)) == x as real * cal.conv16 * cal.scale.error
  {
    assert Signed32(Wrap32(x)) == x;
  }

  lemma ColumnIs(datacnt: u32, s: Sample, chan: nat, cal: Calibration, col: nat)
    requires 1 <= chan <= 4 && 2 <= col < COLUMNS
    ensures Cells(MakeRecord(datacnt, s), chan, cal)[col]
            == Cell(cal, col, ChannelWords(s.channels[chan - 1])[col - 2])
  {
    WordsOf(datacnt, s, chan, col);
  }

  /** The ten cells of a channel's row. */
  predicate CellsOf(row: seq<real>, datacnt: nat, c: Reading, cal: Calibration) {
    && |row| == COLUMNS && row[0] == 2147483648.0 && row[1] == datacnt as real
    && row[2] == Cell(cal, 2, Wrap32(c.dcct1)) && row[3] == Cell(cal, 3, Wrap32(c.dcct2))
    && row[4] == Cell(cal, 4, Wrap32(c.dacMonitor)) && row[5] == Cell(cal, 5, Wrap32(c.voltage))
    && row[6] == Cell(cal, 6, Wrap32(c.ground)) && row[7] == Cell(cal, 7, Wrap32(c.spare))
    && row[8] == Cell(cal, 8, Wrap32(c.regulator)) && row[9] == Cell(cal, 9, Wrap32(c.error))
  }

  lemma RowCells(datacnt: u32, s: Sample, chan: nat, cal: Calibration)
    requires 1 <= chan <= 4
    ensures CellsOf(Cells(MakeRecord(datacnt, s), chan, cal), datacnt, s.channels[chan - 1], cal)
  {
    var row := Cells(MakeRecord(datacnt, s), chan, cal);
    forall col | 2 <= col < COLUMNS
      ensures row[col] == Cell(cal, col, ChannelWords(s.channels[chan - 1])[col - 2])
    {
      ColumnIs(datacnt, s, chan, cal, col);
    }
  }

  lemma CellsTell(row: seq<real>, datacnt: nat, c: Reading, cal: Calibration)
    requires CellsOf(row, datacnt, c, cal)
    ensures Tells(row, datacnt, c, cal)
  {
    CellTells(cal, c.dcct1);
    CellTells(cal, c.dcct2);
    CellTells(cal, c.dacMonitor);
    CellTells(cal, c.voltage);
    CellTells(cal, c.ground);
    CellTells(cal, c.spare);
    CellTells(cal, c.regulator);
    CellTells(cal, c.error);
  }

  /** Every column of a channel's row is that channel's reading, with its converter's factor and its
      own scale factor. */
  lemma RowByName(datacnt: u32, s: Sample, chan: nat, cal: Calibration)
    requires 1 <= chan <= 4
    ensures Tells(Cells(MakeRecord(datacnt, s), chan, cal), datacnt, s.channels[chan - 1], cal)
  {
    RowCells(datacnt, s, chan, cal);
    CellsTell(Cells(MakeRecord(datacnt, s), chan, cal), datacnt, s.channels[chan - 1], cal);
  }

  // ----- the snapshot code -----

  /** The ten stores of one record. */
  method CopyRow(msg: array<real>, ptr: nat, mem: seq<u32>, i: nat, chan: nat, cal: Calibration)
    requires 1 <= chan <= 4 && i + STEP_WORDS <= |mem| && ptr + COLUMNS <= msg.Length
    modifies msg
    ensures forall c :: 0 <= c < COLUMNS ==> msg[ptr + c] == Cell(cal, c, mem[i + WordOf(chan, c)])
    ensures forall k :: 0 <= k < msg.Length && !(ptr <= k < ptr + COLUMNS) ==> msg[k] == old(msg[k])
  {
    var off := 8 * (chan - 1);
    msg[ptr] := Cell(cal, 0, mem[i]);
    msg[ptr + 1] := Cell(cal, 1, mem[i + 1]);
    msg[ptr + 2] := Cell(cal, 2, mem[i + off + 2]);
    msg[ptr + 3] := Cell(cal, 3, mem[i + off + 3]);
    msg[ptr + 4] := Cell(cal, 4, mem[i + off + 4]);
    msg[ptr + 5] := Cell(cal, 5, mem[i + off + 5]);
    msg[ptr + 6] := Cell(cal, 6, mem[i + off + 6]);
    msg[ptr + 7] := Cell(cal, 7, mem[i + off + 7]);
    msg[ptr + 8] := Cell(cal, 8, mem[i + off + 8]);
    msg[ptr + 9] := Cell(cal, 9, mem[i + off + 9]);
  }

  /** Rows `lo` to `hi` of a message show the records of consecutive slots from `s` on. */
  ghost predicate Shown(msg: seq<real>, lo: nat, hi: nat, mem: seq<u32>, s: nat, chan: nat, cal: Calibration)
    requires 1 <= chan <= 4
  {
    && (lo <= hi ==> COLUMNS * hi <= |msg| && STEP_WORDS * (s + hi - lo) <= |mem|)
    && forall j :: lo <= j < hi ==> Row(msg, j) == Cells(SlotOf(mem, s + j - lo), chan, cal)
  }

  lemma ShownStays(msg: seq<real>, msg': seq<real>, lo: nat, hi: nat, mem: seq<u32>, s: nat, chan: nat,
                   cal: Calibration)
    requires 1 <= chan <= 4 && lo <= hi && Shown(msg, lo, hi, mem, s, chan, cal)
    requires |msg| == |msg'| && msg[..COLUMNS * hi] == msg'[..COLUMNS * hi]
    ensures Shown(msg', lo, hi, mem, s, chan, cal)
  {
    forall j | lo <= j < hi ensures Row(msg', j) == Row(msg, j) {
      assert Row(msg', j) == msg'[..COLUMNS * hi][COLUMNS * j..COLUMNS * (j + 1)];
      assert Row(msg, j) == msg[..COLUMNS * hi][COLUMNS * j..COLUMNS * (j + 1)];
    }
  }

  lemma ShownExtends(msg: seq<real>, msg': seq<real>, lo: nat, hi: nat, mem: seq<u32>, s: nat, chan: nat,
                     cal: Calibration)
    requires 1 <= chan <= 4 && lo <= hi && Shown(msg, lo, hi, mem, s, chan, cal)
    requires |msg| == |msg'| && COLUMNS * (hi + 1) <= |msg| && STEP_WORDS * (s + hi - lo + 1) <= |mem|
    requires forall k :: 0 <= k < COLUMNS * hi ==> msg'[k] == msg[k]
    requires forall c :: 0 <= c < COLUMNS ==>
               msg'[COLUMNS * hi + c] == Cell(cal, c, mem[STEP_WORDS * (s + hi - lo) + WordOf(chan, c)])
    ensures Shown(msg', lo, hi + 1, mem, s, chan, cal)
  {
    ShownStays(msg, msg', lo, hi, mem, s, chan, cal);
    assert Row(msg', hi) == Cells(SlotOf(mem, s + hi - lo), chan, cal);
  }

  /** Nothing outside rows `lo` to `hi` differs. */
  ghost predicate OnlyRows(msg: seq<real>, msg': seq<real>, lo: nat, hi: nat) {
    && |msg| == |msg'|
    && forall k :: 0 <= k < |msg| && !(COLUMNS * lo <= k < COLUMNS * hi) ==> msg'[k] == msg[k]
  }

  /** Copies `numwords / 40` records of one channel, from word `src` on, to the message
      pointer, and returns the advanced pointer: rows `lo` to `hi`, for slots from `slot`. */
  method CopyDataChan(msg: array<real>, ptr: nat, mem: seq<u32>, src: nat, numwords: nat, chan: nat,
                      cal: Calibration, ghost lo: nat, ghost hi: nat, ghost slot: nat)
    returns (ptr': nat)
    requires 1 <= chan <= 4 && lo <= hi
    requires ptr == COLUMNS * lo && src == STEP_WORDS * slot && numwords == STEP_WORDS * (hi - lo)
    requires STEP_WORDS * (slot + hi - lo) <= |mem| && COLUMNS * hi <= msg.Length
    modifies msg
    ensures ptr' == COLUMNS * hi
    ensures Shown(msg[..], lo, hi, mem, slot, chan, cal)
    ensures OnlyRows(old(msg[..]), msg[..], lo, hi)
  {
    ptr' := ptr;
    var i := 0;
    ghost var row := lo;
    while i < numwords
      invariant lo <= row <= hi && i == STEP_WORDS * (row - lo) && ptr' == COLUMNS * row
      invariant Shown(msg[..], lo, row, mem, slot, chan, cal)
      invariant OnlyRows(old(msg[..]), msg[..], lo, row)
    {
      ghost var before := msg[..];
      CopyRow(msg, ptr', mem, src + i, chan, cal);
      ShownExtends(before, msg[..], lo, row, mem, slot, chan, cal);
      ptr' := ptr' + COLUMNS;
      i := i + STEP_WORDS;
      row := row + 1;
    }
  }

  /** Where an address points in the memory array. */
  function WordIndex(addr: nat): nat
    requires addr >= BASE
  {
    (addr - BASE) / 4
  }

  /** The slot of row `j` of a snapshot around slot `idx`. */
  function RowSlot(idx: nat, pre: nat, j: nat): (s: nat)
    ensures s < SLOTS
  {
    (idx - pre + j) % SLOTS
  }

  /** The message shows the circle around slot `idx`. */
  ghost predicate Linearised(msg: seq<real>, mem: seq<u32>, idx: nat, pre: nat, post: nat, chan: nat, cal: Calibration)
    requires 1 <= chan <= 4 && |mem| == SLOTS * STEP_WORDS && COLUMNS * (pre + post) <= |msg|
  {
    forall j :: 0 <= j < pre + post ==> Row(msg, j) == Cells(SlotOf(mem, RowSlot(idx, pre, j)), chan, cal)
  }

  lemma UnwrapNone(msg: seq<real>, mem: seq<u32>, idx: nat, pre: nat, post: nat, chan: nat, cal: Calibration)
    requires 1 <= chan <= 4 && |mem| == SLOTS * STEP_WORDS && COLUMNS * (pre + post) <= |msg|
    requires pre <= idx < SLOTS && idx + post <= SLOTS
    requires Shown(msg, 0, pre + post, mem, idx - pre, chan, cal)
    ensures Linearised(msg, mem, idx, pre, post, chan, cal)
  {
    forall j | 0 <= j < pre + post ensures RowSlot(idx, pre, j) == idx - pre + j {
    }
  }

  /** Three sections written one after the other all stand at the end, and nothing else is touched. */
  lemma SectionsStand(m0: seq<real>, m1: seq<real>, m2: seq<real>, m3: seq<real>, a: nat, b: nat, c: nat,
                      mem: seq<u32>, s1: nat, s2: nat, chan: nat, cal: Calibration)
    requires 1 <= chan <= 4 && a <= b <= c
    requires Shown(m1, 0, a, mem, s1, chan, cal) && OnlyRows(m0, m1, 0, a)
    requires Shown(m2, a, b, mem, s2, chan, cal) && OnlyRows(m1, m2, a, b)
    requires OnlyRows(m2, m3, b, c)
    ensures Shown(m3, 0, a, mem, s1, chan, cal) && Shown(m3, a, b, mem, s2, chan, cal)
    ensures OnlyRows(m0, m3, 0, c)
  {
    ShownStays(m1, m3, 0, a, mem, s1, chan, cal);
    ShownStays(m2, m3, a, b, mem, s2, chan, cal);
  }

  lemma UnwrapStart(m0: seq<real>, m1: seq<real>, m2: seq<real>, m3: seq<real>, mem: seq<u32>, idx: nat,
                    pre: nat, mid: nat, post: nat, chan: nat, cal: Calibration)
    requires 1 <= chan <= 4 && |mem| == SLOTS * STEP_WORDS && COLUMNS * (pre + post) <= |m3|
    requires idx < pre && pre + post <= SLOTS && mid == pre - idx
    requires Shown(m1, 0, mid, mem, SLOTS - mid, chan, cal) && OnlyRows(m0, m1, 0, mid)
    requires Shown(m2, mid, pre, mem, 0, chan, cal) && OnlyRows(m1, m2, mid, pre)
    requires Shown(m3, pre, pre + post, mem, idx, chan, cal) && OnlyRows(m2, m3, pre, pre + post)
    ensures Linearised(m3, mem, idx, pre, post, chan, cal) && OnlyRows(m0, m3, 0, pre + post)
  {
    SectionsStand(m0, m1, m2, m3, mid, pre, pre + post, mem, SLOTS - mid, 0, chan, cal);
    forall j | 0 <= j < pre + post
      ensures RowSlot(idx, pre, j) == if j < mid then SLOTS - mid + j else idx - pre + j
    {
    }
  }

  lemma UnwrapEnd(m0: seq<real>, m1: seq<real>, m2: seq<real>, m3: seq<real>, mem: seq<u32>, idx: nat,
                  pre: nat, mid: nat, post: nat, chan: nat, cal: Calibration)
    requires 1 <= chan <= 4 && |mem| == SLOTS * STEP_WORDS && COLUMNS * (pre + post) <= |m3|
    requires pre <= idx < SLOTS && pre + post <= SLOTS && idx + post > SLOTS && mid == pre + SLOTS - idx
    requires Shown(m1, 0, pre, mem, idx - pre, chan, cal) && OnlyRows(m0, m1, 0, pre)
    requires Shown(m2, pre, mid, mem, idx, chan, cal) && OnlyRows(m1, m2, pre, mid)
    requires Shown(m3, mid, pre + post, mem, 0, chan, cal) && OnlyRows(m2, m3, mid, pre + post)
    ensures Linearised(m3, mem, idx, pre, post, chan, cal) && OnlyRows(m0, m3, 0, pre + post)
  {
    SectionsStand(m0, m1, m2, m3, pre, mid, pre + post, mem, idx - pre, idx, chan, cal);
    forall j | 0 <= j < pre + post
      ensures RowSlot(idx, pre, j) == if j < mid then idx - pre + j else idx - pre + j - SLOTS
    {
    }
  }

  /** The branch of `ReadDMABuf` whose window starts before the ring does. */
  method ReadStartWrap(msg: array<real>, mem: seq<u32>, addr: u32, pre: u32, post: u32, chan: nat,
                       cal: Calibration, ghost idx: nat)
    requires 1 <= chan <= 4 && |mem| == SLOTS * STEP_WORDS
    requires idx < SLOTS && addr == BASE + STEP_BYTES * idx && idx < pre
    requires pre + post <= SLOTS && COLUMNS * (pre + post) <= msg.Length
    modifies msg
    ensures Linearised(msg[..], mem, idx, pre, post, chan, cal)
    ensures OnlyRows(old(msg[..]), msg[..], 0, pre + post)
  {
    ghost var start := msg[..];
    ghost var mid := pre - idx;
    var presecnumwords := (addr - BASE) / 4;
    var prefirstnumwords := Wrap32(pre * STEP_WORDS - presecnumwords);
    var startaddr := Wrap32(BASE + BUFLEN - prefirstnumwords * 4);
    assert presecnumwords == STEP_WORDS * idx && prefirstnumwords == STEP_WORDS * mid;
    var p := CopyDataChan(msg, 0, mem, WordIndex(startaddr), prefirstnumwords, chan, cal, 0, mid, SLOTS - mid);
    ghost var first := msg[..];
    p := CopyDataChan(msg, p, mem, WordIndex(BASE), presecnumwords, chan, cal, mid, pre, 0);
    ghost var second := msg[..];
    p := CopyDataChan(msg, p, mem, WordIndex(addr), Wrap32(post * STEP_WORDS), chan, cal, pre, pre + post, idx);
    UnwrapStart(start, first, second, msg[..], mem, idx, pre, mid, post, chan, cal);
  }

  /** The branch of `ReadDMABuf` whose window ends after the ring does. */
  method ReadEndWrap(msg: array<real>, mem: seq<u32>, addr: u32, pre: u32, post: u32, chan: nat,
                     cal: Calibration, ghost idx: nat)
    requires 1 <= chan <= 4 && |mem| == SLOTS * STEP_WORDS
    requires idx < SLOTS && addr == BASE + STEP_BYTES * idx && pre <= idx && idx + post > SLOTS
    requires pre + post <= SLOTS && COLUMNS * (pre + post) <= msg.Length
    modifies msg
    ensures Linearised(msg[..], mem, idx, pre, post, chan, cal)
    ensures OnlyRows(old(msg[..]), msg[..], 0, pre + post)
  {
    ghost var start := msg[..];
    ghost var mid := pre + SLOTS - idx;
    var startaddr := Wrap32(addr - pre * STEP_BYTES);
    var postfirstnumwords := (BASE + BUFLEN - addr) / 4;
    var postsecnumwords := Wrap32(post * STEP_WORDS - postfirstnumwords);
    assert postfirstnumwords == STEP_WORDS * (mid - pre);
    var p := CopyDataChan(msg, 0, mem, WordIndex(startaddr), Wrap32(pre * STEP_WORDS), chan, cal, 0, pre, idx - pre);
    ghost var first := msg[..];
    p := CopyDataChan(msg, p, mem, WordIndex(addr), postfirstnumwords, chan, cal, pre, mid, idx);
    ghost var second := msg[..];
    p := CopyDataChan(msg, p, mem, WordIndex(BASE), postsecnumwords, chan, cal, mid, pre + post, 0);
    UnwrapEnd(start, first, second, msg[..], mem, idx, pre, mid, post, chan, cal);
  }

  /** Linearises the window around the trigger address: `pre` records before it, `post` from
      it on. At most one end wraps, nothing outside the ring is read, row `j` of the message
      is slot `idx - pre + j` of the circle, and nothing after those rows is written. */
  method ReadDMABuf(msg: array<real>, mem: seq<u32>, addr: u32, pre: u32, post: u32, chan: nat, cal: Calibration,
                    ghost idx: nat)
    requires 1 <= chan <= 4 && |mem| == SLOTS * STEP_WORDS
    requires idx < SLOTS && addr == BASE + STEP_BYTES * idx
    requires pre + post <= SLOTS && COLUMNS * (pre + post) <= msg.Length
    modifies msg
    ensures Linearised(msg[..], mem, idx, pre, post, chan, cal)
    ensures OnlyRows(old(msg[..]), msg[..], 0, pre + post)
  {
    var startaddr := Wrap32(addr - pre * STEP_BYTES);
    var stopaddr := Wrap32(addr + post * STEP_BYTES);
    assert (startaddr < BASE <==> idx < pre) && (stopaddr > BASE + BUFLEN <==> idx + post > SLOTS);
    if startaddr < BASE {
      ReadStartWrap(msg, mem, addr, pre, post, chan, cal, idx);
    } else if stopaddr > BASE + BUFLEN {
      ReadEndWrap(msg, mem, addr, pre, post, chan, cal, idx);
    } else {
      var _ := CopyDataChan(msg, 0, mem, WordIndex(startaddr), Wrap32((pre + post) * STEP_WORDS), chan, cal,
                            0, pre + post, idx - pre);
      UnwrapNone(msg[..], mem, idx, pre, post, chan, cal);
    }
  }

  // ----- the writer, and the snapshot as history -----

  /** Writing the next record into its slot keeps the agreement with the log. */
  lemma HoldsNext(mem: seq<u32>, mem': seq<u32>, log: seq<Record>, r: Record)
    requires Holds(mem, log) && |mem'| == |mem|
    requires SlotOf(mem', |log| % SLOTS) == r
    requires forall k :: 0 <= k < |mem| && !(STEP_WORDS * (|log| % SLOTS) <= k < STEP_WORDS * (|log| % SLOTS + 1))
               ==> mem'[k] == mem[k]
    ensures Holds(mem', log + [r])
  {
    var log' := log + [r];
    forall j | 0 <= j < |log'| && |log'| - SLOTS <= j ensures SlotOf(mem', j % SLOTS) == log'[j] {
      if j < |log| {
        assert j % SLOTS != |log| % SLOTS;
        assert SlotOf(mem', j % SLOTS) == SlotOf(mem, j % SLOTS);
      }
    }
  }

  lemma NextSlot(n: nat)
    ensures (n + 1) % SLOTS == if n % SLOTS < SLOTS - 1 then n % SLOTS + 1 else 0
  {
  }

  /** A slot's first word, and whether it is the last slot. */
  lemma SlotWord(slot: nat)
    requires slot < SLOTS
    ensures WordIndex(BASE + STEP_BYTES * slot) == STEP_WORDS * slot
    ensures STEP_WORDS * slot + STEP_WORDS <= SLOTS * STEP_WORDS
    ensures BASE + STEP_BYTES * slot < MAX_ADDR <==> slot < SLOTS - 1
  {
  }

  /** The 40 data beats of one burst, to consecutive words. */
  method Burst(ddr: array<u32>, first: nat, beats: Record)
    requires first + STEP_WORDS <= ddr.Length
    modifies ddr
    ensures ddr[first..first + STEP_WORDS] == beats
    ensures forall k :: 0 <= k < ddr.Length && !(first <= k < first + STEP_WORDS) ==> ddr[k] == old(ddr[k])
  {
    for wordnum := 0 to STEP_WORDS
      invariant forall w :: 0 <= w < wordnum ==> ddr[first + w] == beats[w]
      invariant forall k :: 0 <= k < ddr.Length && !(first <= k < first + wordnum) ==> ddr[k] == old(ddr[k])
    {
      ddr[first + wordnum] := beats[wordnum];
    }
  }

  /** The log holds the records of the samples. */
  ghost predicate RecordOf(log: seq<Record>, samples: seq<Sample>) {
    |samples| == |log| && forall n :: 0 <= n < |log| ==> log[n] == MakeRecord(n % SLOTS, samples[n])
  }

  lemma RecordNext(log: seq<Record>, samples: seq<Sample>, s: Sample)
    requires RecordOf(log, samples)
    ensures RecordOf(log + [MakeRecord(|log| % SLOTS, s)], samples + [s])
  {
  }

  /** The burst writer. One record is written atomically; `log` is every record so far, and `samples`
      what was recorded in them. */
  class RingWriter {
    var mem: array<u32>
    var addrBase: u32
    var datacnt: u32
    var addrPtr: u32   // ss_buf_stat.addr_ptr, what a trigger latches
    var tenkhzcnt: u32
    ghost var log: seq<Record>
    ghost var samples: seq<Sample>

    ghost predicate Valid()
      reads this, mem
    {
      && datacnt == |log| % SLOTS
      && addrBase == BASE + STEP_BYTES * datacnt
      && (log != [] ==> addrPtr == BASE + STEP_BYTES * ((|log| - 1) % SLOTS))
      && Holds(mem[..], log)
      && RecordOf(log, samples)
    }

    constructor (ddr: array<u32>)
      requires ddr.Length == SLOTS * STEP_WORDS
      ensures Valid() && log == [] && mem == ddr && samples == []
    {
      mem := ddr;
      addrBase, datacnt, addrPtr, tenkhzcnt, log, samples := BASE, 0, 0, 0, [], [];
    }

    /** The burst to the slot of the next record. */
    method WriteBurst(first: nat, beats: Record)
      requires Holds(mem[..], log) && first == STEP_WORDS * (|log| % SLOTS)
      modifies mem
      ensures Holds(mem[..], log + [beats])
    {
      ghost var before := mem[..];
      Burst(mem, first, beats);
      assert SlotOf(mem[..], |log| % SLOTS) == beats;
      HoldsNext(before, mem[..], log, beats);
    }

    method WriteRecord(s: Sample)
      requires Valid()
      modifies this, mem
      ensures Valid() && mem == old(mem)
      ensures log == old(log) + [MakeRecord(|old(log)| % SLOTS, s)] && samples == old(samples) + [s]
      ensures addrPtr == BASE + STEP_BYTES * (|old(log)| % SLOTS) && tenkhzcnt == |old(log)| % SLOTS
    {
      SlotWord(datacnt);
      NextSlot(|log|);
      addrPtr := addrBase;
      tenkhzcnt := datacnt;
      var beats := MakeRecord(datacnt, s);
      var first := WordIndex(addrBase);
      WriteBurst(first, beats);
      RecordNext(log, samples, s);
      log, samples := log + [beats], samples + [s];
      if addrBase < MAX_ADDR {
        datacnt := datacnt + 1;
        addrBase := addrBase + STEP_BYTES;
      } else {
        datacnt := 0;
        addrBase := BASE;
      }
    }
  }

  /** What a snapshot around record `t` shows, row by row: always the latest record of the
      slot; and the log's own window exactly when that window is written and not overwritten. */
  lemma SnapshotShowsLatest(msg: seq<real>, mem: seq<u32>, log: seq<Record>, t: nat, pre: nat, post: nat, chan: nat,
                            cal: Calibration, j: nat)
    requires 1 <= chan <= 4 && Holds(mem, log) && COLUMNS * (pre + post) <= |msg|
    requires Linearised(msg, mem, t % SLOTS, pre, post, chan, cal)
    requires pre <= t && j < pre + post && 0 <= Latest(|log|, (t - pre + j) % SLOTS)
    ensures Row(msg, j) == Cells(log[Latest(|log|, (t - pre + j) % SLOTS)], chan, cal)
  {
    var s := (t - pre + j) % SLOTS;
    assert RowSlot(t % SLOTS, pre, j) == s;
    assert Latest(|log|, s) % SLOTS == s;
  }

  lemma RowIs(msg: seq<real>, mem: seq<u32>, log: seq<Record>, t: nat, pre: nat, post: nat, chan: nat,
              cal: Calibration, j: nat)
    requires 1 <= chan <= 4 && Holds(mem, log) && COLUMNS * (pre + post) <= |msg|
    requires Linearised(msg, mem, t % SLOTS, pre, post, chan, cal)
    requires pre <= t && j < pre + post && t + post <= |log| <= t - pre + SLOTS
    ensures Row(msg, j) == Cells(log[t - pre + j], chan, cal)
  {
    LatestIs(|log|, t - pre + j);
    SnapshotShowsLatest(msg, mem, log, t, pre, post, chan, cal, j);
  }

  /** Row `j` is the log's record `j` from `pre` before `t` on, and tells what was sampled then. */
  predicate RowHistory(msg: seq<real>, log: seq<Record>, samples: seq<Sample>, t: nat, pre: nat, chan: nat,
                       cal: Calibration, j: nat)
    requires 1 <= chan <= 4 && COLUMNS * (j + 1) <= |msg|
  {
    var n := t - pre + j;
    && 0 <= n < |log| == |samples| && Row(msg, j) == Cells(log[n], chan, cal)
    && Tells(Row(msg, j), n % SLOTS, samples[n].channels[chan - 1], cal)
  }

  lemma RowTells(msg: seq<real>, log: seq<Record>, samples: seq<Sample>, t: nat, pre: nat, chan: nat,
                 cal: Calibration, j: nat)
    requires 1 <= chan <= 4 && COLUMNS * (j + 1) <= |msg| && RecordOf(log, samples)
    requires pre <= t && t - pre + j < |log| && Row(msg, j) == Cells(log[t - pre + j], chan, cal)
    ensures RowHistory(msg, log, samples, t, pre, chan, cal, j)
  {
    RowByName((t - pre + j) % SLOTS, samples[t - pre + j], chan, cal);
  }

  /** The rows are the records of the log from `pre` before `t` to `post` from it on. */
  ghost predicate History(msg: seq<real>, log: seq<Record>, samples: seq<Sample>, t: nat, pre: nat, post: nat,
                          chan: nat, cal: Calibration)
    requires 1 <= chan <= 4 && COLUMNS * (pre + post) <= |msg|
  {
    forall j :: 0 <= j < pre + post ==> RowHistory(msg, log, samples, t, pre, chan, cal, j)
  }

  lemma HistoryShown(msg: seq<real>, mem: seq<u32>, log: seq<Record>, samples: seq<Sample>, t: nat, pre: nat,
                     post: nat, chan: nat, cal: Calibration)
    requires 1 <= chan <= 4 && Holds(mem, log) && RecordOf(log, samples) && COLUMNS * (pre + post) <= |msg|
    requires Linearised(msg, mem, t % SLOTS, pre, post, chan, cal)
    requires pre <= t && t + post <= |log| <= t - pre + SLOTS
    ensures History(msg, log, samples, t, pre, post, chan, cal)
  {
    forall j | 0 <= j < pre + post ensures RowHistory(msg, log, samples, t, pre, chan, cal, j) {
      RowIs(msg, mem, log, t, pre, post, chan, cal, j);
      RowTells(msg, log, samples, t, pre, chan, cal, j);
    }
  }

  /** The snapshot theorem: record `t` was latched by a trigger, the writer has finished record
      `t + post - 1`, and has not overwritten record `t - pre`; then the message is exactly
      records `t - pre` to `t + post - 1` of the infinite log, in the channel's ten columns: what
      its converters read at those triggers. */
  method Snapshot(ring: RingWriter, msg: array<real>, addr: u32, pre: u32, post: u32, chan: nat, cal: Calibration,
                  ghost t: nat)
    requires ring.Valid() && 1 <= chan <= 4 && COLUMNS * (pre + post) <= msg.Length
    requires addr == BASE + STEP_BYTES * (t % SLOTS)
    requires pre <= t && t + post <= |ring.log| <= t - pre + SLOTS
    modifies msg
    ensures History(msg[..], ring.log, ring.samples, t, pre, post, chan, cal)
  {
    ReadDMABuf(msg, ring.mem[..], addr, pre, post, chan, cal, t % SLOTS);
    HistoryShown(msg[..], ring.mem[..], ring.log, ring.samples, t, pre, post, chan, cal);
  }
}
