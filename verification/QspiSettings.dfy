/** Settings that survive a power cycle: each channel's registers and scale factors, written to
    and read from a sector of a NOR flash, through a page buffer whose first four bytes the
    flash commands overwrite. */
module QspiSettings {
  import opened Words

  const SECTOR := 0x1_0000
  const PAGE := 256
  const FLASH_SIZE := 0x100_0000
  const CHANNELS := 4
  const REGISTERS := 37
  const SETTINGS := 44 // the registers, and seven scale factors
  const CHWORDS := 0x80 // CHBASEADDR in words

  const WRITE_CMD := 0x02
  const READ_CMD := 0x03
  const READ_STATUS_CMD := 0x05
  const WRITE_ENABLE_CMD := 0x06
  const SECTOR_ERASE_CMD := 0xD8

  // ----- the flash -----

  /** Programming can only clear bits. */
  function And(a: u8, b: u8): u8 {
    (a as bv8 & b as bv8) as u8
  }

  lemma AndOnes(b: u8)
    ensures And(0xFF, b) == b
  {
    assert 0xFF as bv8 & b as bv8 == b as bv8;
  }

  function Erased(mem: seq<u8>, addr: nat): (m: seq<u8>)
    ensures |m| == |mem|
  {
    seq(|mem|, i requires 0 <= i < |mem| => if i / SECTOR == addr / SECTOR then 0xFF else mem[i])
  }

  /** A page program wraps inside its page. */
  function Programmed(mem: seq<u8>, addr: nat, data: seq<u8>): (m: seq<u8>)
    ensures |m| == |mem|
  {
    seq(|mem|, i requires 0 <= i < |mem| =>
      if i / PAGE == addr / PAGE && (i - addr) % PAGE < |data|
      then And(mem[i], data[(i - addr) % PAGE]) else mem[i])
  }

  function Address(cmd: seq<u8>): nat
    requires |cmd| >= 4
  {
    var hi: nat, mid: nat, lo: nat := cmd[1], cmd[2], cmd[3];
    hi * 0x1_0000 + mid * 0x100 + lo
  }

  lemma AddressBytes(addr: nat)
    requires addr < FLASH_SIZE
    ensures addr / 0x1_0000 % 0x100 * 0x1_0000 + addr / 0x100 % 0x100 * 0x100 + addr % 0x100 == addr
  {
    var mid := addr / 0x100;
    assert addr / 0x1_0000 == mid / 0x100 < 0x100;
  }

  /** The four command bytes for an address. */
  function Command(op: u8, addr: u32): (c: seq<u8>)
    requires addr < FLASH_SIZE
    ensures |c| == 4 && c[0] == op && Address(c) == addr
  {
    AddressBytes(addr);
    [op, addr / 0x1_0000 % 0x100, addr / 0x100 % 0x100, addr % 0x100]
  }

  /** The flash, as its SPI transfers show it. While it is busy it answers only to a status read. */
  class Flash {
    var mem: seq<u8>
    var enabled: bool
    var busy: nat // status reads until an erase or a program is complete

    predicate Valid()
      reads this
    {
      |mem| == FLASH_SIZE
    }

    predicate Idle()
      reads this
    {
      Valid() && busy == 0
    }

    method WriteEnable()
      requires Valid()
      modifies this`enabled
      ensures busy == 0 ==> enabled
    {
      if busy == 0 {
        enabled := true;
      }
    }

    method ReadStatus() returns (status: u8)
      requires Valid()
      modifies this`busy
      ensures status == (if old(busy) > 0 then 1 else 0)
      ensures busy == if old(busy) > 0 then old(busy) - 1 else 0
    {
      status := 0;
      if busy > 0 {
        status := 1;
        busy := busy - 1;
      }
    }

    /** An erase or a program command; anything else, or without a write enable, is ignored. */
    method Transfer(out: seq<u8>)
      requires Valid() && |out| >= 4 && Address(out) < FLASH_SIZE && |out| - 4 <= PAGE
      modifies this
      ensures Valid()
      ensures old(busy == 0 && enabled) && out[0] == SECTOR_ERASE_CMD ==> mem == Erased(old(mem), Address(out))
      ensures old(busy == 0 && enabled) && out[0] == WRITE_CMD ==> mem == Programmed(old(mem), Address(out), out[4..])
      ensures !(old(busy == 0 && enabled) && out[0] in {SECTOR_ERASE_CMD, WRITE_CMD}) ==> mem == old(mem)
    {
      var polls :| polls >= 0;
      if busy == 0 && enabled {
        if out[0] == SECTOR_ERASE_CMD {
          mem := Erased(mem, Address(out));
          busy := polls;
          enabled := false;
        } else if out[0] == WRITE_CMD {
          mem := Programmed(mem, Address(out), out[4..]);
          busy := polls;
          enabled := false;
        }
      }
    }

    /** A read: four bytes of no meaning come back with the command, then the contents. */
    method ReadTransfer(out: seq<u8>, n: nat) returns (back: seq<u8>)
      requires Idle() && |out| == 4 && out[0] == READ_CMD && n >= 4 && Address(out) + n - 4 <= FLASH_SIZE
      ensures |back| == n && back[4..] == mem[Address(out)..Address(out) + n - 4]
    {
      var noise: seq<u8> :| |noise| == 4;
      back := noise + mem[Address(out)..Address(out) + n - 4];
    }
  }

  // ----- words and bytes -----

  function WordAt(b: seq<u8>, i: nat): u32
    requires i + 4 <= |b|
  {
    var b0: nat, b1: nat, b2: nat, b3: nat := b[i], b[i + 1], b[i + 2], b[i + 3];
    b0 + b1 * 0x100 + b2 * 0x1_0000 + b3 * 0x100_0000
  }

  lemma WordRead(w: u32, b: seq<u8>, i: nat)
    requires i + 4 <= |b| && b[i] == ByteOf(w, 0) && b[i + 1] == ByteOf(w, 1)
    requires b[i + 2] == ByteOf(w, 2) && b[i + 3] == ByteOf(w, 3)
    ensures WordAt(b, i) == w
  {
    Digits(w, Shr(w, 1), Shr(w, 2), Shr(w, 3));
  }

  // ----- the registers -----

  /** The offset of register `k` of a channel, in the order of the saved structure. */
  function RegOffset(k: nat): nat
    requires k < REGISTERS
  {
    if k < 2 then 0x20 + 4 * k else if k < 35 then 0x50 + 4 * (k - 2) else if k == 35 then 0xDC else 0xD8
  }

  /** Where it is among all the words. */
  function RegIndex(chan: nat, k: nat): (i: nat)
    requires 1 <= chan <= CHANNELS && k < REGISTERS
    ensures chan * CHWORDS <= i < (chan + 1) * CHWORDS
  {
    chan * CHWORDS + RegOffset(k) / 4
  }

  lemma RegistersDistinct(chan: nat, j: nat, k: nat)
    requires 1 <= chan <= CHANNELS && j < REGISTERS && k < REGISTERS
    ensures RegIndex(chan, j) == RegIndex(chan, k) ==> j == k
  {
  }

  /** The words of a channel that hold settings. */
  predicate SettingWord(w: nat) {
    w == 8 || w == 9 || 20 <= w <= 52 || w == 54 || w == 55
  }

  /** The event numbers, which are no channel's. */
  const EVR_INJ_EVENTNUM := 0x20 / 4
  const EVR_PM_EVENTNUM := 0x24 / 4

  /** The words that are set at startup. */
  predicate Initialised(i: nat) {
    if i < CHWORDS then i == EVR_INJ_EVENTNUM || i == EVR_PM_EVENTNUM else SettingWord(i % CHWORDS)
  }

  /** A channel's scale factors, as the bit patterns of IEEE 754 numbers. */
  datatype Factors = Factors(ampsPerSec: u32, dacDccts: u32, vout: u32, ignd: u32, spare: u32, regulator: u32,
                             error: u32)

  function FactorWords(f: Factors): (l: seq<u32>)
    ensures |l| == SETTINGS - REGISTERS
  {
    [f.ampsPerSec, f.dacDccts, f.vout, f.ignd, f.spare, f.regulator, f.error]
  }

  predicate Sized(regs: seq<u32>, sf: seq<Factors>) {
    |regs| == (CHANNELS + 1) * CHWORDS && |sf| == CHANNELS
  }

  /** A channel's settings as they are in force. */
  function Live(regs: seq<u32>, sf: seq<Factors>, chan: nat): (l: seq<u32>)
    requires Sized(regs, sf) && 1 <= chan <= CHANNELS
    ensures |l| == SETTINGS
    ensures forall k :: 0 <= k < REGISTERS ==> l[k] == regs[RegIndex(chan, k)]
    ensures forall k :: REGISTERS <= k < SETTINGS ==> l[k] == FactorWords(sf[chan - 1])[k - REGISTERS]
  {
    seq(REGISTERS, k requires 0 <= k < REGISTERS => regs[RegIndex(chan, k)]) + FactorWords(sf[chan - 1])
  }

  /** A channel's settings as they are in the flash: the header's four bytes are not there. */
  function Saved(mem: seq<u8>, chan: nat): (l: seq<u32>)
    requires |mem| == FLASH_SIZE && 1 <= chan <= CHANNELS
    ensures |l| == SETTINGS
    ensures forall k :: 0 <= k < SETTINGS ==> l[k] == WordAt(mem, chan * SECTOR + 4 * k)
  {
    seq(SETTINGS, k requires 0 <= k < SETTINGS => WordAt(mem, chan * SECTOR + 4 * k))
  }

  /** Words laid out in a sector, the low byte first. */
  ghost predicate LaidOut(mem: seq<u8>, chan: nat, ws: seq<u32>)
    requires |mem| == FLASH_SIZE && 1 <= chan <= CHANNELS && |ws| == SETTINGS
  {
    forall i :: 0 <= i < 4 * SETTINGS ==> mem[chan * SECTOR + i] == ByteOf(ws[i / 4], i % 4)
  }

  lemma ByteIs(mem: seq<u8>, chan: nat, ws: seq<u32>, k: nat, j: nat)
    requires |mem| == FLASH_SIZE && 1 <= chan <= CHANNELS && |ws| == SETTINGS && k < SETTINGS && j < 4
    requires LaidOut(mem, chan, ws)
    ensures mem[chan * SECTOR + 4 * k + j] == ByteOf(ws[k], j)
  {
    var i := 4 * k + j;
    assert mem[chan * SECTOR + i] == ByteOf(ws[i / 4], i % 4);
  }

  /** A sector that holds settings. */
  lemma SavedIs(mem: seq<u8>, chan: nat, ws: seq<u32>)
    requires |mem| == FLASH_SIZE && 1 <= chan <= CHANNELS && |ws| == SETTINGS && LaidOut(mem, chan, ws)
    ensures Saved(mem, chan) == ws
  {
    forall k | 0 <= k < SETTINGS ensures Saved(mem, chan)[k] == ws[k] {
      var a := chan * SECTOR + 4 * k;
      ByteIs(mem, chan, ws, k, 0);
      ByteIs(mem, chan, ws, k, 1);
      ByteIs(mem, chan, ws, k, 2);
      ByteIs(mem, chan, ws, k, 3);
      WordRead(ws[k], mem, a);
    }
  }

  /** A page read from a sector, behind its four bytes of no meaning. */
  lemma PageHolds(mem: seq<u8>, page: seq<u8>, chan: nat)
    requires |mem| == FLASH_SIZE && 1 <= chan <= CHANNELS && |page| == PAGE
    requires page[4..] == mem[chan * SECTOR..chan * SECTOR + PAGE - 4]
    ensures forall k :: 0 <= k < SETTINGS ==> WordAt(page, 4 + 4 * k) == Saved(mem, chan)[k]
  {
    forall k | 0 <= k < SETTINGS ensures WordAt(page, 4 + 4 * k) == Saved(mem, chan)[k] {
      var a, b := chan * SECTOR + 4 * k, 4 * k;
      assert page[4..][b] == mem[a] && page[4..][b + 1] == mem[a + 1];
      assert page[4..][b + 2] == mem[a + 2] && page[4..][b + 3] == mem[a + 3];
    }
  }

  /** The settings in a sector depend on nothing else. */
  lemma SavedSame(mem: seq<u8>, mem': seq<u8>, chan: nat)
    requires |mem| == |mem'| == FLASH_SIZE && 1 <= chan <= CHANNELS
    requires forall i :: 0 <= i < FLASH_SIZE && i / SECTOR == chan ==> mem'[i] == mem[i]
    ensures Saved(mem', chan) == Saved(mem, chan)
  {
    forall k | 0 <= k < SETTINGS ensures Saved(mem', chan)[k] == Saved(mem, chan)[k] {
      var a := chan * SECTOR + 4 * k;
      assert mem'[a] == mem[a] && mem'[a + 1] == mem[a + 1] && mem'[a + 2] == mem[a + 2] && mem'[a + 3] == mem[a + 3];
    }
  }

  lemma PageAt(chan: nat, i: nat)
    requires i < PAGE
    ensures var a := chan * SECTOR;
            (a + i) / PAGE == a / PAGE == chan * 0x100 && (a + i) / SECTOR == a / SECTOR == chan
  {
  }

  lemma PageInside(chan: nat, i: nat)
    requires i / PAGE == chan * 0x100
    ensures i / SECTOR == chan
  {
  }

  lemma PageByte(mem: seq<u8>, chan: nat, data: seq<u8>, i: nat)
    requires |mem| == FLASH_SIZE && 1 <= chan <= CHANNELS && |data| <= PAGE && i < |data|
    ensures Programmed(Erased(mem, chan * SECTOR), chan * SECTOR, data)[chan * SECTOR + i] == data[i]
  {
    PageAt(chan, i);
    var a := chan * SECTOR;
    assert (a + i - a) % PAGE == i;
    assert Erased(mem, a)[a + i] == 0xFF;
    AndOnes(data[i]);
  }

  lemma OtherByte(mem: seq<u8>, chan: nat, data: seq<u8>, i: nat)
    requires |mem| == FLASH_SIZE && 1 <= chan <= CHANNELS && i < FLASH_SIZE && i / SECTOR != chan
    ensures Programmed(Erased(mem, chan * SECTOR), chan * SECTOR, data)[i] == mem[i]
  {
    PageAt(chan, 0);
    if i / PAGE == chan * 0x100 {
      PageInside(chan, i);
    }
    assert Erased(mem, chan * SECTOR)[i] == mem[i];
  }

  /** A page written to an erased sector is the page. */
  lemma PageWritten(mem: seq<u8>, chan: nat, data: seq<u8>)
    requires |mem| == FLASH_SIZE && 1 <= chan <= CHANNELS && |data| <= PAGE
    ensures var m := Programmed(Erased(mem, chan * SECTOR), chan * SECTOR, data);
            && (forall i :: 0 <= i < |data| ==> m[chan * SECTOR + i] == data[i])
            && (forall i :: 0 <= i < FLASH_SIZE && i / SECTOR != chan ==> m[i] == mem[i])
  {
    var a := chan * SECTOR;
    var m := Programmed(Erased(mem, a), a, data);
    forall i | 0 <= i < |data| ensures m[a + i] == data[i] {
      PageByte(mem, chan, data, i);
    }
    forall i | 0 <= i < FLASH_SIZE && i / SECTOR != chan ensures m[i] == mem[i] {
      OtherByte(mem, chan, data, i);
    }
  }

  /** Every setting's word is some register's. */
  lemma RegisterOf(w: nat) returns (k: nat)
    requires SettingWord(w)
    ensures k < REGISTERS && RegOffset(k) / 4 == w
  {
    k := if w <= 9 then w - 8 else if w <= 52 then w - 18 else if w == 55 then 35 else 36;
  }

  /** Writing back the settings that are in force changes nothing. */
  lemma SameInForce(regs: seq<u32>, sf: seq<Factors>, regs': seq<u32>, sf': seq<Factors>, chan: nat)
    requires Sized(regs, sf) && Sized(regs', sf') && 1 <= chan <= CHANNELS
    requires Live(regs', sf', chan) == Live(regs, sf, chan)
    requires forall i :: 0 <= i < |regs| && !(i / CHWORDS == chan && SettingWord(i % CHWORDS)) ==> regs'[i] == regs[i]
    requires forall c :: 0 <= c < CHANNELS && c != chan - 1 ==> sf'[c] == sf[c]
    ensures regs' == regs && sf' == sf
  {
    forall i | 0 <= i < |regs| && i / CHWORDS == chan && SettingWord(i % CHWORDS) ensures regs'[i] == regs[i] {
      var k := RegisterOf(i % CHWORDS);
      assert RegIndex(chan, k) == i;
      assert Live(regs', sf', chan)[k] == Live(regs, sf, chan)[k];
    }
    var f, f' := FactorWords(sf[chan - 1]), FactorWords(sf'[chan - 1]);
    forall j | 0 <= j < 7 ensures f'[j] == f[j] {
      assert Live(regs', sf', chan)[REGISTERS + j] == Live(regs, sf, chan)[REGISTERS + j];
    }
    assert f'[0] == f[0] && f'[1] == f[1] && f'[2] == f[2] && f'[3] == f[3] && f'[4] == f[4] && f'[5] == f[5];
    assert f'[6] == f[6] && sf'[chan - 1] == sf[chan - 1];
    assert forall c :: 0 <= c < CHANNELS ==> sf'[c] == sf[c];
  }

  /** A channel's settings lie apart from another's. */
  lemma OtherChannel(regs: seq<u32>, sf: seq<Factors>, regs': seq<u32>, sf': seq<Factors>, c: nat, chan: nat)
    requires Sized(regs, sf) && Sized(regs', sf') && 1 <= chan <= CHANNELS && 1 <= c <= CHANNELS && c != chan
    requires forall i :: 0 <= i < |regs| && !(i / CHWORDS == chan && SettingWord(i % CHWORDS)) ==> regs'[i] == regs[i]
    requires forall d :: 0 <= d < CHANNELS && d != chan - 1 ==> sf'[d] == sf[d]
    ensures Live(regs', sf', c) == Live(regs, sf, c)
  {
    forall k | 0 <= k < SETTINGS ensures Live(regs', sf', c)[k] == Live(regs, sf, c)[k] {
      if k < REGISTERS {
        assert RegIndex(c, k) / CHWORDS == c;
      } else {
        assert sf'[c - 1] == sf[c - 1];
      }
    }
    assert Live(regs', sf', c) == Live(regs, sf, c);
  }

  // ----- a saved sector, by name -----

  const DAC_SETPT_OFFSET := 0x20
  const DAC_SETPT_GAIN := 0x24
  const DCCT1_OFFSET := 0x50
  const DCCT1_GAIN := 0x54
  const DCCT2_OFFSET := 0x58
  const DCCT2_GAIN := 0x5C
  const DACMON_OFFSET := 0x60
  const DACMON_GAIN := 0x64
  const VOLT_OFFSET := 0x68
  const VOLT_GAIN := 0x6C
  const GND_OFFSET := 0x70
  const GND_GAIN := 0x74
  const SPARE_OFFSET := 0x78
  const SPARE_GAIN := 0x7C
  const REG_OFFSET := 0x80
  const REG_GAIN := 0x84
  const ERR_OFFSET := 0x88
  const ERR_GAIN := 0x8C
  const OVC1_THRESH := 0x90
  const OVC2_THRESH := 0x94
  const OVV_THRESH := 0x98
  const ERR1_THRESH := 0x9C
  const ERR2_THRESH := 0xA0
  const IGND_THRESH := 0xA4
  const OVC1_CNTLIM := 0xA8
  const OVC2_CNTLIM := 0xAC
  const OVV_CNTLIM := 0xB0
  const ERR1_CNTLIM := 0xB4
  const ERR2_CNTLIM := 0xB8
  const IGND_CNTLIM := 0xBC
  const DCCT_CNTLIM := 0xC0
  const FLT1_CNTLIM := 0xC4
  const FLT2_CNTLIM := 0xC8
  const FLT3_CNTLIM := 0xCC
  const ON_CNTLIM := 0xD0
  const HEARTBEAT_CNTLIM := 0xDC
  const FAULT_MASK := 0xD8

  /** A channel's register, by its offset. */
  function Reg(regs: seq<u32>, chan: nat, offset: nat): u32
    requires |regs| == (CHANNELS + 1) * CHWORDS && 1 <= chan <= CHANNELS && offset < 4 * CHWORDS
  {
    regs[(chan * 0x200 + offset) / 4]
  }

  /** What a sector holds at a byte offset. */
  function SectorWord(mem: seq<u8>, chan: nat, offset: nat): u32
    requires |mem| == FLASH_SIZE && 1 <= chan <= CHANNELS && offset + 4 <= SECTOR
  {
    WordAt(mem, chan * SECTOR + offset)
  }

  lemma WordSaved(mem: seq<u8>, regs: seq<u32>, sf: seq<Factors>, chan: nat, k: nat)
    requires |mem| == FLASH_SIZE && Sized(regs, sf) && 1 <= chan <= CHANNELS && k < SETTINGS
    requires Saved(mem, chan) == Live(regs, sf, chan)
    ensures SectorWord(mem, chan, 4 * k)
            == if k < REGISTERS then Reg(regs, chan, RegOffset(k)) else FactorWords(sf[chan - 1])[k - REGISTERS]
  {
    assert Saved(mem, chan)[k] == Live(regs, sf, chan)[k];
  }

  /** The registers in the order in which a sector holds them: the DAC's and the converters' offsets
      and gains, the fault thresholds, the limits of the fault counters, and the mask. */
  const SAVED: seq<nat> := [
    DAC_SETPT_OFFSET, DAC_SETPT_GAIN, DCCT1_OFFSET, DCCT1_GAIN, DCCT2_OFFSET, DCCT2_GAIN, DACMON_OFFSET,
    DACMON_GAIN, VOLT_OFFSET, VOLT_GAIN, GND_OFFSET, GND_GAIN, SPARE_OFFSET, SPARE_GAIN, REG_OFFSET, REG_GAIN,
    ERR_OFFSET, ERR_GAIN, OVC1_THRESH, OVC2_THRESH, OVV_THRESH, ERR1_THRESH, ERR2_THRESH, IGND_THRESH,
    OVC1_CNTLIM, OVC2_CNTLIM, OVV_CNTLIM, ERR1_CNTLIM, ERR2_CNTLIM, IGND_CNTLIM, DCCT_CNTLIM, FLT1_CNTLIM,
    FLT2_CNTLIM, FLT3_CNTLIM, ON_CNTLIM, HEARTBEAT_CNTLIM, FAULT_MASK]

  lemma OffsetIs(k: nat)
    requires k < REGISTERS
    ensures |SAVED| == REGISTERS && RegOffset(k) == SAVED[k]
  {
  }

  /** A sector that holds a channel's settings, word by word. */
  lemma SectorLayout(mem: seq<u8>, regs: seq<u32>, sf: seq<Factors>, chan: nat, k: nat)
    requires |mem| == FLASH_SIZE && Sized(regs, sf) && 1 <= chan <= CHANNELS && k < SETTINGS
    requires Saved(mem, chan) == Live(regs, sf, chan)
    ensures k < |SAVED| == REGISTERS ==> SectorWord(mem, chan, 4 * k) == Reg(regs, chan, SAVED[k])
    ensures k == 37 ==> SectorWord(mem, chan, 4 * k) == sf[chan - 1].ampsPerSec
    ensures k == 38 ==> SectorWord(mem, chan, 4 * k) == sf[chan - 1].dacDccts
    ensures k == 39 ==> SectorWord(mem, chan, 4 * k) == sf[chan - 1].vout
    ensures k == 40 ==> SectorWord(mem, chan, 4 * k) == sf[chan - 1].ignd
    ensures k == 41 ==> SectorWord(mem, chan, 4 * k) == sf[chan - 1].spare
    ensures k == 42 ==> SectorWord(mem, chan, 4 * k) == sf[chan - 1].regulator
    ensures k == 43 ==> SectorWord(mem, chan, 4 * k) == sf[chan - 1].error
  {
    WordSaved(mem, regs, sf, chan, k);
    if k < REGISTERS {
      OffsetIs(k);
    }
  }

  // ----- over any run -----

  /** What a run of messages sees of a board: the settings saved and in force, by channel. */
  datatype Memo = Memo(saved: seq<seq<u32>>, live: seq<seq<u32>>)

  /** Messages, and any change of registers and scale factors: by other messages, or by a power
      cycle. */
  datatype Op = WriteQspi(chan: nat) | ReadQspi(chan: nat) | Change(regs: seq<u32>, sf: seq<Factors>)

  predicate Sound(o: Op) {
    if o.Change? then Sized(o.regs, o.sf) else 1 <= o.chan <= CHANNELS
  }

  type Message = o: Op | Sound(o) witness ReadQspi(1)

  predicate Shaped(m: Memo) {
    |m.saved| == |m.live| == CHANNELS + 1
  }

  type Settings = m: Memo | Shaped(m) witness Memo(seq(CHANNELS + 1, _ => []), seq(CHANNELS + 1, _ => []))

  /** What is in force in every channel; there is no channel 0. */
  function InForce(regs: seq<u32>, sf: seq<Factors>): (l: seq<seq<u32>>)
    requires Sized(regs, sf)
    ensures |l| == CHANNELS + 1 && forall c :: 1 <= c <= CHANNELS ==> l[c] == Live(regs, sf, c)
  {
    [[], Live(regs, sf, 1), Live(regs, sf, 2), Live(regs, sf, 3), Live(regs, sf, 4)]
  }

  function Apply(m: Settings, o: Message): Settings {
    match o
    case WriteQspi(c) => m.(saved := m.saved[c := m.live[c]])
    case ReadQspi(c) => m.(live := m.live[c := m.saved[c]])
    case Change(regs, sf) => m.(live := InForce(regs, sf))
  }

  function Run(m: Settings, ops: seq<Message>): Settings {
    if ops == [] then m else Apply(Run(m, ops[..|ops| - 1]), ops[|ops| - 1])
  }

  lemma {:induction false} SavedKept(m: Settings, ops: seq<Message>, c: nat)
    requires 1 <= c <= CHANNELS && WriteQspi(c) !in ops
    ensures Run(m, ops).saved[c] == m.saved[c]
    decreases |ops|
  {
    if ops != [] {
      var last := ops[|ops| - 1];
      assert last in ops;
      SavedKept(m, ops[..|ops| - 1], c);
    }
  }

  /** The persistence theorem: what a channel had in force when it was written is back in force
      after a read, whatever else happened in between but another write of that channel. */
  lemma {:induction false} SettingsPersist(m: Settings, c: nat, between: seq<Message>)
    requires 1 <= c <= CHANNELS && WriteQspi(c) !in between
    ensures Apply(Run(Apply(m, WriteQspi(c)), between), ReadQspi(c)).live[c] == m.live[c]
  {
    SavedKept(Apply(m, WriteQspi(c)), between, c);
  }

  /** What a board holds, as a run of messages sees it. */
  function View(mem: seq<u8>, regs: seq<u32>, sf: seq<Factors>): (m: Settings)
    requires |mem| == FLASH_SIZE && Sized(regs, sf)
    ensures forall c :: 1 <= c <= CHANNELS ==> m.saved[c] == Saved(mem, c) && m.live[c] == Live(regs, sf, c)
  {
    Memo([[], Saved(mem, 1), Saved(mem, 2), Saved(mem, 3), Saved(mem, 4)], InForce(regs, sf))
  }

  lemma ViewWritten(mem: seq<u8>, mem': seq<u8>, regs: seq<u32>, sf: seq<Factors>, chan: nat)
    requires |mem| == |mem'| == FLASH_SIZE && Sized(regs, sf) && 1 <= chan <= CHANNELS
    requires Saved(mem', chan) == Live(regs, sf, chan)
    requires forall i :: 0 <= i < FLASH_SIZE && i / SECTOR != chan ==> mem'[i] == mem[i]
    ensures View(mem', regs, sf) == Apply(View(mem, regs, sf), WriteQspi(chan))
  {
    var before, after := View(mem, regs, sf), View(mem', regs, sf);
    forall c | 1 <= c <= CHANNELS && c != chan ensures after.saved[c] == before.saved[c] {
      SavedSame(mem, mem', c);
    }
    assert after.saved == before.saved[chan := before.live[chan]];
  }

  lemma ViewRead(mem: seq<u8>, regs: seq<u32>, sf: seq<Factors>, regs': seq<u32>, sf': seq<Factors>, chan: nat)
    requires |mem| == FLASH_SIZE && Sized(regs, sf) && Sized(regs', sf') && 1 <= chan <= CHANNELS
    requires Live(regs', sf', chan) == Saved(mem, chan)
    requires forall i :: 0 <= i < |regs| && !(i / CHWORDS == chan && SettingWord(i % CHWORDS)) ==> regs'[i] == regs[i]
    requires forall c :: 0 <= c < CHANNELS && c != chan - 1 ==> sf'[c] == sf[c]
    ensures View(mem, regs', sf') == Apply(View(mem, regs, sf), ReadQspi(chan))
  {
    var before, after := View(mem, regs, sf), View(mem, regs', sf');
    forall c | 1 <= c <= CHANNELS && c != chan ensures after.live[c] == before.live[c] {
      OtherChannel(regs, sf, regs', sf', c, chan);
    }
    assert after.live == before.live[chan := before.saved[chan]];
  }

  // ----- the settings code -----

  class Board {
    const flash: Flash
    var regs: seq<u32>
    var sf: seq<Factors> // bit patterns of the scale factors, by channel

    predicate Valid()
      reads this, flash
    {
      Sized(regs, sf) && flash.Idle()
    }

    constructor (chip: Flash, r: seq<u32>, s: seq<Factors>)
      requires Sized(r, s) && chip.Idle()
      ensures Valid() && flash == chip && regs == r && sf == s
    {
      flash, regs, sf := chip, r, s;
    }

    method EraseSect(sector: nat)
      requires Valid() && 1 <= sector <= CHANNELS
      modifies flash
      ensures Valid() && flash.mem == Erased(old(flash.mem), sector * SECTOR)
    {
      flash.WriteEnable();
      var addr: u32 := sector * SECTOR;
      flash.Transfer(Command(SECTOR_ERASE_CMD, addr));
      WaitUntilDone();
    }

    /** Polls the status register until the flash has finished. */
    method WaitUntilDone()
      requires flash.Valid()
      modifies flash`busy
      ensures flash.Idle()
    {
      while true
        invariant flash.Valid()
        decreases flash.busy
      {
        var status := flash.ReadStatus();
        if status == 0 {
          break;
        }
      }
    }

    /** Writes the page buffer but for its first four bytes, which the command replaces. */
    method FlashWrite(addr: u32, buf: array<u8>)
      requires Valid() && addr < FLASH_SIZE && buf.Length == PAGE
      modifies flash, buf
      ensures Valid() && flash.mem == Programmed(old(flash.mem), addr, old(buf[4..]))
      ensures buf[4..] == old(buf[4..])
    {
      ghost var data := buf[4..];
      flash.WriteEnable();
      var c := Command(WRITE_CMD, addr);
      buf[0], buf[1], buf[2], buf[3] := c[0], c[1], c[2], c[3];
      var out := buf[..];
      assert out[4..] == data && out[..4] == c;
      flash.Transfer(out);
      WaitUntilDone();
    }

    method FlashRead(addr: u32, buf: array<u8>)
      requires Valid() && buf.Length == PAGE && addr + PAGE - 4 <= FLASH_SIZE
      modifies buf
      ensures buf[4..] == flash.mem[addr..addr + PAGE - 4]
    {
      var back := flash.ReadTransfer(Command(READ_CMD, addr), PAGE);
      forall i | 0 <= i < PAGE {
        buf[i] := back[i];
      }
      assert buf[..] == back;
    }

    /** Lays the structure out in the buffer: a header of no meaning, then the settings. */
    method GatherData(chan: nat, buf: array<u8>)
      requires Valid() && 1 <= chan <= CHANNELS && buf.Length == PAGE
      modifies buf
      ensures forall i :: 0 <= i < 4 * SETTINGS ==>
                buf[4 + i] == ByteOf(Live(regs, sf, chan)[i / 4], i % 4)
    {
      var header :| 0 <= header < 0x1_0000_0000;
      var data: seq<u32> := [header] + Live(regs, sf, chan);
      forall i | 0 <= i < 4 * |data| {
        buf[i] := ByteOf(data[i / 4], i % 4);
      }
      forall i | 0 <= i < 4 * SETTINGS
        ensures buf[4 + i] == ByteOf(Live(regs, sf, chan)[i / 4], i % 4)
      {
        assert (4 + i) / 4 == 1 + i / 4 && (4 + i) % 4 == i % 4;
      }
    }

    /** Writes the registers, one by one, and the scale factors from the structure in the buffer. */
    method DisperseData(chan: nat, buf: array<u8>)
      requires Valid() && 1 <= chan <= CHANNELS && buf.Length == PAGE
      modifies this`regs, this`sf
      ensures Valid()
      ensures forall k :: 0 <= k < SETTINGS ==> Live(regs, sf, chan)[k] == WordAt(buf[..], 4 + 4 * k)
      ensures forall i :: 0 <= i < |regs| && !(i / CHWORDS == chan && SettingWord(i % CHWORDS)) ==>
                regs[i] == old(regs)[i]
      ensures forall c :: 0 <= c < CHANNELS && c != chan - 1 ==> sf[c] == old(sf)[c]
    {
      var data := buf[..];
      var k := 0;
      while k < REGISTERS
        invariant 0 <= k <= REGISTERS && Valid() && sf == old(sf)
        invariant forall j :: 0 <= j < k ==> regs[RegIndex(chan, j)] == WordAt(data, 4 + 4 * j)
        invariant forall i :: 0 <= i < |regs| && !(i / CHWORDS == chan && SettingWord(i % CHWORDS)) ==>
                    regs[i] == old(regs)[i]
      {
        forall j | 0 <= j < k ensures RegIndex(chan, j) != RegIndex(chan, k) {
          RegistersDistinct(chan, j, k);
        }
        regs := regs[RegIndex(chan, k) := WordAt(data, 4 + 4 * k)];
        k := k + 1;
      }
      var factors := Factors(WordAt(data, 152), WordAt(data, 156), WordAt(data, 160), WordAt(data, 164),
                             WordAt(data, 168), WordAt(data, 172), WordAt(data, 176));
      sf := sf[chan - 1 := factors];
    }

    /** Erases a channel's sector and writes its settings there. */
    method Store(chan: nat, buf: array<u8>)
      requires Valid() && 1 <= chan <= CHANNELS && buf.Length == PAGE
      modifies flash, buf
      ensures Valid() && LaidOut(flash.mem, chan, Live(regs, sf, chan))
      ensures forall i :: 0 <= i < FLASH_SIZE && i / SECTOR != chan ==> flash.mem[i] == old(flash.mem)[i]
    {
      ghost var mem := flash.mem;
      EraseSect(chan);
      GatherData(chan, buf);
      ghost var data, ws := buf[4..], Live(regs, sf, chan);
      assert forall i :: 0 <= i < 4 * SETTINGS ==> data[i] == ByteOf(ws[i / 4], i % 4);
      FlashWrite(chan * SECTOR, buf);
      PageWritten(mem, chan, data);
      assert LaidOut(flash.mem, chan, ws);
    }

    /** The `READ_QSPI` message. */
    method ReadQspi(chan: nat)
      requires Valid() && 1 <= chan <= CHANNELS
      modifies this`regs, this`sf
      ensures Valid()
      ensures View(flash.mem, regs, sf) == Apply(old(View(flash.mem, regs, sf)), Op.ReadQspi(chan))
      ensures Live(regs, sf, chan) == Saved(flash.mem, chan)
      ensures forall i :: 0 <= i < |regs| && !(i / CHWORDS == chan && SettingWord(i % CHWORDS)) ==>
                regs[i] == old(regs)[i]
      ensures forall c :: 0 <= c < CHANNELS && c != chan - 1 ==> sf[c] == old(sf)[c]
    {
      var buf := new u8[PAGE](_ => 0);
      FlashRead(chan * SECTOR, buf);
      ghost var page := buf[..];
      assert page[4..] == buf[4..];
      PageHolds(flash.mem, page, chan);
      DisperseData(chan, buf);
      assert Live(regs, sf, chan) == Saved(flash.mem, chan);
      ViewRead(flash.mem, old(regs), old(sf), regs, sf, chan);
    }

    /** The `WRITE_QSPI` message. The channel's settings are then in its sector, what is in force
        has not changed by the reading back, and no other sector has changed. */
    method WriteQspi(chan: nat)
      requires Valid() && 1 <= chan <= CHANNELS
      modifies this, flash
      ensures Valid()
      ensures View(flash.mem, regs, sf) == Apply(old(View(flash.mem, regs, sf)), Op.WriteQspi(chan))
      ensures Saved(flash.mem, chan) == old(Live(regs, sf, chan))
      ensures forall i :: 0 <= i < FLASH_SIZE && i / SECTOR != chan ==> flash.mem[i] == old(flash.mem)[i]
      ensures regs == old(regs) && sf == old(sf)
    {
      var buf := new u8[PAGE](_ => 0);
      ghost var live := Live(regs, sf, chan);
      Store(chan, buf);
      SavedIs(flash.mem, chan, live);
      ReadQspi(chan);
      SameInForce(old(regs), old(sf), regs, sf, chan);
      ViewWritten(old(flash.mem), flash.mem, regs, sf, chan);
    }

    /** At startup the two event numbers are set, every channel takes what its sector holds, and
        no other register changes. */
    method InitSettings()
      requires Valid()
      modifies this`regs, this`sf
      ensures Valid()
      ensures regs[EVR_INJ_EVENTNUM] == regs[EVR_PM_EVENTNUM] == 10
      ensures forall c :: 1 <= c <= CHANNELS ==> Live(regs, sf, c) == Saved(flash.mem, c)
      ensures forall i :: 0 <= i < |regs| && !Initialised(i) ==> regs[i] == old(regs)[i]
    {
      regs := regs[EVR_INJ_EVENTNUM := 10][EVR_PM_EVENTNUM := 10];
      var chan := 1;
      while chan <= CHANNELS
        invariant 1 <= chan <= CHANNELS + 1 && Valid()
        invariant regs[EVR_INJ_EVENTNUM] == regs[EVR_PM_EVENTNUM] == 10
        invariant forall c :: 1 <= c < chan ==> Live(regs, sf, c) == Saved(flash.mem, c)
        invariant forall i :: 0 <= i < |regs| && !Initialised(i) ==> regs[i] == old(regs)[i]
      {
        ghost var r, s := regs, sf;
        ReadQspi(chan);
        forall c | 1 <= c < chan ensures Live(regs, sf, c) == Saved(flash.mem, c) {
          OtherChannel(r, s, regs, sf, c, chan);
        }
        chan := chan + 1;
      }
    }

    /** Any run of messages and changes. */
    method Perform(ops: seq<Message>)
      requires Valid()
      modifies this, flash
      ensures Valid()
      ensures View(flash.mem, regs, sf) == Run(old(View(flash.mem, regs, sf)), ops)
    {
      var n := 0;
      while n < |ops|
        invariant 0 <= n <= |ops| && Valid()
        invariant View(flash.mem, regs, sf) == Run(old(View(flash.mem, regs, sf)), ops[..n])
      {
        assert ops[..n + 1][..n] == ops[..n];
        match ops[n] {
          case WriteQspi(c) => WriteQspi(c);
          case ReadQspi(c) => ReadQspi(c);
          case Change(r, s) => regs, sf := r, s;
        }
        n := n + 1;
      }
      assert ops[..|ops|] == ops;
    }

    /** The persistence theorem, of the board itself: a channel is written, anything happens but
        another write of it, and it is read; then its settings are as they were. */
    method SaveAndRestore(chan: nat, between: seq<Message>)
      requires Valid() && 1 <= chan <= CHANNELS && Op.WriteQspi(chan) !in between
      modifies this, flash
      ensures Valid() && Live(regs, sf, chan) == old(Live(regs, sf, chan))
    {
      ghost var before := View(flash.mem, regs, sf);
      WriteQspi(chan);
      Perform(between);
      ReadQspi(chan);
      SettingsPersist(before, chan, between);
    }
  }
}
