/** The two frame types of the HT1621-style 3-wire interface of the
    DM8BA10 module, as `lcd_sendcmd` and `lcd_writemode` build them
    (code.py:103-130), and the traces they produce. */
module Frames {
  import opened Wire

  // Command opcodes sent by lcd_init, lcd_off and lcd_on (code.py:121-130).
  const SysEn := 0x02
  const Rc32k := 0x30
  const LcdOn := 0x06
  const LcdOff := 0x04

  /** `lcd_sendcmd(cmd)`: csn low, the 4-bit prefix 1000, the 8 command
      bits, csn high. */
  function CommandTrace(cmd: int): seq<Event>
  {
    [Set(Csn, false)] + BitsTrace(0x08, 4) + BitsTrace(cmd, 8) + [Set(Csn, true)]
  }

  /** `(data << (i * 4)) >> 12` in Python (arbitrary-precision shifts; `>>`
      floors, as Dafny's `/` by a positive number does). Only its low four
      bits reach the wire. */
  function Nibble(data: int, i: nat): int
  {
    (data * Pow2(4 * i)) / 4096
  }

  /** One write-mode sub-transaction: csn low, the 3-bit prefix 101, a 6-bit
      address, 4 data bits, csn high. */
  function SubWriteTrace(address: int, nibble: int): seq<Event>
  {
    [Set(Csn, false)] + BitsTrace(0x05, 3) + BitsTrace(address, 6)
      + BitsTrace(nibble, 4) + [Set(Csn, true)]
  }

  /** The five sub-writes of `lcd_writemode(addr, data)`, i = 0..4: address
      `(addr << 2) + i`, nibble `(data << (i * 4)) >> 12`. */
  function SubWriteTraces(addr: int, data: int): (ts: seq<seq<Event>>)
    ensures |ts| == 5
  {
    seq(5, i requires 0 <= i < 5 => SubWriteTrace(addr * 4 + i, Nibble(data, i)))
  }

  /** Sub-write i of `lcd_writemode(addr, data)`, for the address and
      nibble the loop computes. */
  lemma SubWriteTracesAt(addr: int, data: int, i: nat, address: int, nibble: int)
    requires i < 5 && address == addr * 4 + i && nibble == (data * Pow2(i * 4)) / 4096
    ensures SubWriteTraces(addr, data)[i] == SubWriteTrace(address, nibble)
  {
    assert 4 * i == i * 4;
  }

  /** The five line changes of one sub-write, made one after another. */
  lemma SubWriteChain(t0: seq<Event>, t1: seq<Event>, t2: seq<Event>, t3: seq<Event>, t4: seq<Event>,
                      t5: seq<Event>, address: int, nibble: int)
    requires t1 == t0 + [Set(Csn, false)] && t2 == t1 + BitsTrace(0x05, 3)
    requires t3 == t2 + BitsTrace(address, 6) && t4 == t3 + BitsTrace(nibble, 4)
    requires t5 == t4 + [Set(Csn, true)]
    ensures t5 == t0 + SubWriteTrace(address, nibble)
  {
    AppendFive(t0, [Set(Csn, false)], BitsTrace(0x05, 3), BitsTrace(address, 6), BitsTrace(nibble, 4), [Set(Csn, true)]);
  }

  /** `lcd_writemode(addr, data)`. */
  function WriteTrace(addr: int, data: int): seq<Event>
  {
    Concat(SubWriteTraces(addr, data))
  }

  /** One call of `lcd_writemode`: a 16-bit segment pattern for a register. */
  datatype RegWrite = RegWrite(reg: int, pattern: int)

  /** The trace of `lcd_writemode` called on each write of ws in turn. */
  function WritesTrace(ws: seq<RegWrite>): seq<Event>
  {
    Concat(seq(|ws|, i requires 0 <= i < |ws| => WriteTrace(ws[i].reg, ws[i].pattern)))
  }

  /** `io_init`: csn high, wr low, data low. */
  function IoInitTrace(): seq<Event>
  {
    [Set(Csn, true), Set(Wr, false), Set(Data, false)]
  }

  /** `lcd_init`: system enable, 32 kHz RC clock, display on. */
  function InitTrace(): seq<Event>
  {
    CommandTrace(SysEn) + CommandTrace(Rc32k) + CommandTrace(LcdOn)
  }

  // ---------------------------------------------------------------------

  lemma WritesTraceAppend(a: seq<RegWrite>, b: seq<RegWrite>)
    ensures WritesTrace(a + b) == WritesTrace(a) + WritesTrace(b)
  {
    var ta := seq(|a|, i requires 0 <= i < |a| => WriteTrace(a[i].reg, a[i].pattern));
    var tb := seq(|b|, i requires 0 <= i < |b| => WriteTrace(b[i].reg, b[i].pattern));
    var ab := a + b;
    assert seq(|ab|, i requires 0 <= i < |ab| => WriteTrace(ab[i].reg, ab[i].pattern)) == ta + tb;
    ConcatAppend(ta, tb);
  }

  lemma WritesTraceOne(w: RegWrite)
    ensures WritesTrace([w]) == WriteTrace(w.reg, w.pattern)
  {
    var t := WriteTrace(w.reg, w.pattern);
    assert seq(1, i requires 0 <= i < 1 => WriteTrace([w][i].reg, [w][i].pattern)) == [t];
    ConcatOne(t);
  }

  /** One more `lcd_writemode` call on the end of a prefix of writes. */
  lemma WritesTraceStep(ws: seq<RegWrite>, k: nat)
    requires k < |ws|
    ensures WritesTrace(ws[..k + 1]) == WritesTrace(ws[..k]) + WriteTrace(ws[k].reg, ws[k].pattern)
  {
    assert ws[..k + 1] == ws[..k] + [ws[k]];
    WritesTraceAppend(ws[..k], [ws[k]]);
    WritesTraceOne(ws[k]);
  }

  /** The invariant of a loop making the writes ws one call at a time. */
  lemma WritesStep(t0: seq<Event>, ws: seq<RegWrite>, k: nat)
    requires k < |ws|
    ensures t0 + WritesTrace(ws[..k]) + WriteTrace(ws[k].reg, ws[k].pattern) == t0 + WritesTrace(ws[..k + 1])
  {
    WritesTraceStep(ws, k);
    AppendAssoc(t0, WritesTrace(ws[..k]), WriteTrace(ws[k].reg, ws[k].pattern));
  }

  lemma Pow2Table()
    ensures Pow2(4) == 16 && Pow2(8) == 256 && Pow2(12) == 4096 && Pow2(16) == 65536
  {
    assert Pow2(2) == 4;
    assert Pow2(4) == 16;
    assert Pow2(6) == 64;
    assert Pow2(8) == 256;
    assert Pow2(10) == 1024;
    assert Pow2(12) == 4096;
    assert Pow2(14) == 16384;
  }

  /** For a 16-bit pattern, sub-write i (i < 4) carries bits 15-4i .. 12-4i;
      the fifth sub-write carries 0000 whatever the data, because
      `(data << 16) >> 12` is `data << 4`. */
  lemma NibbleSlices(data: int)
    ensures 0 <= data < 0x10000 ==> Nibble(data, 0) % 16 == data / 4096
    ensures Nibble(data, 1) % 16 == (data / 256) % 16
    ensures Nibble(data, 2) % 16 == (data / 16) % 16
    ensures Nibble(data, 3) % 16 == data % 16
    ensures Nibble(data, 4) % 16 == 0
  {
    Pow2Table();
    ModUnique(data * 16, 4096, data / 256, 16 * (data % 256));
    ModUnique(data * 256, 4096, data / 16, 256 * (data % 16));
    ModUnique(data * 4096, 4096, data, 0);
    ModUnique(data * 65536, 4096, data * 16, 0);
    ModUnique(data * 16, 16, data, 0);
    if 0 <= data < 0x10000 {
      ModUnique(data / 4096, 16, 0, data / 4096);
    }
  }

  /** Reassembling the nibbles of sub-writes 0..3 MSB-first gives back the
      16-bit pattern. */
  lemma NibbleRoundTrip(data: int)
    requires 0 <= data < 0x10000
    ensures (Nibble(data, 0) % 16) * 4096 + (Nibble(data, 1) % 16) * 256
      + (Nibble(data, 2) % 16) * 16 + Nibble(data, 3) % 16 == data
  {
    NibbleSlices(data);
    var d1 := data / 16;
    var d2 := d1 / 16;
    var d3 := d2 / 16;
    assert data == 256 * d2 + (16 * (d1 % 16) + data % 16);
    ModUnique(data, 256, d2, 16 * (d1 % 16) + data % 16);
    assert data == 4096 * d3 + (256 * (d2 % 16) + 16 * (d1 % 16) + data % 16);
    ModUnique(data, 4096, d3, 256 * (d2 % 16) + 16 * (d1 % 16) + data % 16);
  }
}
