/** What the write-mode frames mean to the display controller: a RAM of
    64 four-bit cells (one per 6-bit address); sub-write i of
    `lcd_writemode(addr, data)` stores its nibble at address 4*addr + i
    (code.py:111-119). A display register r (0..11) is the four cells
    4r..4r+3 read MSB-first. */
module Ram {
  import opened Wire
  import opened Frames

  ghost predicate IsRam(ram: seq<int>)
  {
    |ram| == 64 && forall k :: 0 <= k < 64 ==> 0 <= ram[k] < 16
  }

  /** The RAM after the first k sub-writes of `lcd_writemode(r, d)`; the
      address is truncated to the 6 bits that go on the wire. */
  function SubWritesRam(ram: seq<int>, r: int, d: int, k: nat): (m: seq<int>)
    requires |ram| == 64
    ensures |m| == 64
  {
    if k == 0 then ram
    else SubWritesRam(ram, r, d, k - 1)[(4 * r + (k - 1)) % 64 := Nibble(d, k - 1) % 16]
  }

  function ApplyWrite(ram: seq<int>, w: RegWrite): (m: seq<int>)
    requires |ram| == 64
    ensures |m| == 64
  {
    SubWritesRam(ram, w.reg, w.pattern, 5)
  }

  function ApplyWrites(ram: seq<int>, ws: seq<RegWrite>): (m: seq<int>)
    requires |ram| == 64
    ensures |m| == 64
  {
    if ws == [] then ram else ApplyWrite(ApplyWrites(ram, ws[..|ws| - 1]), ws[|ws| - 1])
  }

  /** The 16-bit pattern register r holds. */
  function Register(ram: seq<int>, r: int): int
    requires |ram| == 64 && 0 <= r <= 15
  {
    ram[4 * r] * 4096 + ram[4 * r + 1] * 256 + ram[4 * r + 2] * 16 + ram[4 * r + 3]
  }

  /** The twelve registers of the DM8BA10: 0-9 digits (0 rightmost), 10-11
      decimal points. */
  function Shown(ram: seq<int>): (s: seq<int>)
    requires |ram| == 64
    ensures |s| == 12
  {
    seq(12, j requires 0 <= j < 12 => Register(ram, j))
  }

  // ---------------------------------------------------------------------

  lemma {:induction false} ApplyWritesAppend(ram: seq<int>, a: seq<RegWrite>, b: seq<RegWrite>)
    requires |ram| == 64
    ensures ApplyWrites(ram, a + b) == ApplyWrites(ApplyWrites(ram, a), b)
    decreases |b|
  {
    if b == [] {
      assert a + b == a;
    } else {
      var ab := a + b;
      assert ab[..|ab| - 1] == a + b[..|b| - 1];
      assert ab[|ab| - 1] == b[|b| - 1];
      ApplyWritesAppend(ram, a, b[..|b| - 1]);
    }
  }

  /** Cell by cell: the first k sub-writes to register r (which cannot wrap
      around the 6-bit address space for r <= 11) store nibbles 0..k-1. */
  lemma {:induction false} SubWritesCells(ram: seq<int>, r: int, d: int, k: nat)
    requires |ram| == 64 && 0 <= r <= 11 && k <= 5
    ensures forall c :: 0 <= c < 64 ==>
      SubWritesRam(ram, r, d, k)[c] ==
        if 4 * r <= c < 4 * r + k then Nibble(d, c - 4 * r) % 16 else ram[c]
  {
    if k > 0 {
      SubWritesCells(ram, r, d, k - 1);
      assert (4 * r + (k - 1)) % 64 == 4 * r + (k - 1);
    }
  }

  lemma LowTwelveBits(a: int, b: int, c: int, e: int)
    requires 0 <= b < 16 && 0 <= c < 16 && 0 <= e < 16
    ensures (a * 4096 + b * 256 + c * 16 + e) % 4096 == b * 256 + c * 16 + e
  {
    ModUnique(a * 4096 + b * 256 + c * 16 + e, 4096, a, b * 256 + c * 16 + e);
  }

  /** One `lcd_writemode(r, d)` with a 16-bit pattern: register r then holds
      d; the fifth sub-write clears the top nibble of register r+1; every
      other register is unchanged. */
  lemma WriteRegister(ram: seq<int>, w: RegWrite)
    requires IsRam(ram) && 0 <= w.reg <= 11 && 0 <= w.pattern < 0x10000
    ensures IsRam(ApplyWrite(ram, w))
    ensures Register(ApplyWrite(ram, w), w.reg) == w.pattern
    ensures Register(ApplyWrite(ram, w), w.reg + 1) == Register(ram, w.reg + 1) % 4096
    ensures forall j :: 0 <= j <= 15 && j != w.reg && j != w.reg + 1 ==>
      Register(ApplyWrite(ram, w), j) == Register(ram, j)
  {
    var r, d := w.reg, w.pattern;
    var m := ApplyWrite(ram, w);
    SubWritesCells(ram, r, d, 5);
    NibbleSlices(d);
    NibbleRoundTrip(d);
    assert m[4 * r] == Nibble(d, 0) % 16;
    assert m[4 * r + 1] == Nibble(d, 1) % 16;
    assert m[4 * r + 2] == Nibble(d, 2) % 16;
    assert m[4 * r + 3] == Nibble(d, 3) % 16;
    assert m[4 * r + 4] == 0;
    LowTwelveBits(ram[4 * r + 4], ram[4 * r + 5], ram[4 * r + 6], ram[4 * r + 7]);
    forall j | 0 <= j <= 15 && j != r && j != r + 1
      ensures Register(m, j) == Register(ram, j)
    {
      assert m[4 * j] == ram[4 * j] && m[4 * j + 1] == ram[4 * j + 1];
      assert m[4 * j + 2] == ram[4 * j + 2] && m[4 * j + 3] == ram[4 * j + 3];
    }
  }

  /** Writes to consecutive registers base, base+1, ... in increasing order
      (the shape of lcd_clear, lcd_allon, lcd_printint and lcd_printtext):
      each written register holds its pattern, the register just above the
      last one written loses its top nibble, the rest are unchanged. */
  lemma {:induction false} AscendingWrites(ram: seq<int>, ws: seq<RegWrite>, base: int)
    requires IsRam(ram) && 0 <= base && base + |ws| <= 12
    requires forall k :: 0 <= k < |ws| ==> ws[k].reg == base + k && 0 <= ws[k].pattern < 0x10000
    ensures IsRam(ApplyWrites(ram, ws))
    ensures forall j :: 0 <= j < 12 ==>
      Register(ApplyWrites(ram, ws), j) ==
        if base <= j < base + |ws| then ws[j - base].pattern
        else if j == base + |ws| && ws != [] then Register(ram, j) % 4096
        else Register(ram, j)
    decreases |ws|
  {
    if ws != [] {
      var n := |ws|;
      var front := ws[..n - 1];
      AscendingWrites(ram, front, base);
      var m1 := ApplyWrites(ram, front);
      WriteRegister(m1, ws[n - 1]);
    }
  }
}
