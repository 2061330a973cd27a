/** The DM8BA10 driver of code.py (lines 90-179) as the program runs it:
    every function drives the data, wr and csn lines one assignment at a
    time. The lines are observed through `trace`, the sequence of every
    level the driver has set so far; each method appends to it exactly the
    events its trace function in Wire, Frames and Display describes. */
module LcdDriver {
  import opened Wire
  import opened Frames
  import opened Glyphs
  import opened Display

  class Lcd {
    /** Every `lcd_data.value = ...`, `lcd_wr.value = ...` and
        `lcd_csn.value = ...` executed so far, in order. */
    var trace: seq<Event>

    constructor ()
      ensures trace == []
    {
      trace := [];
    }

    /** One assignment to an output line. */
    method Drive(line: Line, level: bool)
      modifies this
      ensures trace == old(trace) + [Set(line, level)]
    {
      trace := trace + [Set(line, level)];
    }

    /** `io_init`. */
    method IoInit()
      modifies this
      ensures trace == old(trace) + IoInitTrace()
    {
      Drive(Csn, true);
      Drive(Wr, false);
      Drive(Data, false);
    }

    /** `lcd_sendbits(value, n)`: bits n-1 down to 0 of value, each put on
        the data line and clocked with a wr pulse; data left low. */
    method SendBits(value: int, n: nat)
      modifies this
      ensures trace == old(trace) + BitsTrace(value, n)
    {
      ghost var bs := MsbBits(value, n);
      var i: int := n - 1;
      while i >= 0
        invariant -1 <= i <= n - 1
        invariant trace == old(trace) + Pulses(bs[..n - 1 - i])
        decreases i
      {
        Drive(Data, Bit(value, i));
        Drive(Wr, true);
        Drive(Wr, false);
        MsbBitsAt(value, n, n - 1 - i);
        PulsesStep(bs, n - 1 - i);
        i := i - 1;
      }
      Drive(Data, false);
      assert bs[..n] == bs;
    }

    /** `lcd_sendcmd(cmd)`. */
    method SendCmd(cmd: int)
      modifies this
      ensures trace == old(trace) + CommandTrace(cmd)
    {
      ghost var t0 := trace;
      Drive(Csn, false);
      SendBits(0x08, 4);
      SendBits(cmd, 8);
      Drive(Csn, true);
      AppendFour(t0, [Set(Csn, false)], BitsTrace(0x08, 4), BitsTrace(cmd, 8), [Set(Csn, true)]);
    }

    /** `lcd_writemode(addr, data)`: five csn-framed sub-writes. */
    method WriteMode(addr: int, data: int)
      modifies this
      ensures trace == old(trace) + WriteTrace(addr, data)
    {
      ghost var ts := SubWriteTraces(addr, data);
      var aval := addr * 4;
      var i := 0;
      while i < 5
        invariant 0 <= i <= 5
        invariant trace == old(trace) + Concat(ts[..i])
      {
        var dval := (data * Pow2(i * 4)) / 4096;
        SubWrite(aval + i, dval);
        SubWriteTracesAt(addr, data, i, aval + i, dval);
        ConcatLoopStep(old(trace), ts, i);
        i := i + 1;
      }
      assert ts[..5] == ts;
    }

    /** The body of the loop in `lcd_writemode`: csn low, prefix 101, the
        6-bit address, the 4-bit nibble, csn high. */
    method SubWrite(address: int, nibble: int)
      modifies this
      ensures trace == old(trace) + SubWriteTrace(address, nibble)
    {
      ghost var t0 := trace;
      Drive(Csn, false);
      ghost var t1 := trace;
      SendBits(0x05, 3);
      ghost var t2 := trace;
      SendBits(address, 6);
      ghost var t3 := trace;
      SendBits(nibble, 4);
      ghost var t4 := trace;
      Drive(Csn, true);
      SubWriteChain(t0, t1, t2, t3, t4, trace, address, nibble);
    }

    /** `lcd_init`: SYS_EN, RC_32K, LCD_ON. */
    method Init()
      modifies this
      ensures trace == old(trace) + InitTrace()
    {
      ghost var t0 := trace;
      SendCmd(SysEn);
      SendCmd(Rc32k);
      SendCmd(LcdOn);
      AppendThree(t0, CommandTrace(SysEn), CommandTrace(Rc32k), CommandTrace(LcdOn));
    }

    /** `lcd_off`. */
    method Off()
      modifies this
      ensures trace == old(trace) + CommandTrace(LcdOff)
    {
      SendCmd(LcdOff);
    }

    /** `lcd_on`. */
    method On()
      modifies this
      ensures trace == old(trace) + CommandTrace(LcdOn)
    {
      SendCmd(LcdOn);
    }

    /** `lcd_clear`. */
    method Clear()
      modifies this
      ensures trace == old(trace) + WritesTrace(ClearWrites())
    {
      ghost var ws := ClearWrites();
      var i := 0;
      while i < 12
        invariant 0 <= i <= 12
        invariant trace == old(trace) + WritesTrace(ws[..i])
      {
        WriteMode(i, 0x0000);
        WritesStep(old(trace), ws, i);
        i := i + 1;
      }
      assert ws[..12] == ws;
    }

    /** `lcd_allon`. */
    method AllOn()
      modifies this
      ensures trace == old(trace) + WritesTrace(AllOnWrites())
    {
      ghost var ws := AllOnWrites();
      var i := 0;
      while i < 12
        invariant 0 <= i <= 12
        invariant trace == old(trace) + WritesTrace(ws[..i])
      {
        WriteMode(i, 0xFFFF);
        WritesStep(old(trace), ws, i);
        i := i + 1;
      }
      assert ws[..12] == ws;
    }

    /** `lcd_dp_insert(i)`. */
    method DpInsert(i: int)
      modifies this
      ensures trace == old(trace) + WritesTrace(DpWrites(i))
    {
      if i < 1 {
      } else if i < 4 {
        WriteMode(11, DpBits[i - 1]);
        WritesTraceOne(RegWrite(11, DpBits[i - 1]));
      } else if i < 10 {
        WriteMode(10, DpBits[i - 1]);
        WritesTraceOne(RegWrite(10, DpBits[i - 1]));
      }
    }

    /** `lcd_dp_clear`. */
    method DpClear()
      modifies this
      ensures trace == old(trace) + WritesTrace(DpClearWrites())
    {
      ghost var t0 := trace;
      WriteMode(10, 0x0000);
      WriteMode(11, 0x0000);
      AppendAssoc(t0, WriteTrace(10, 0x0000), WriteTrace(11, 0x0000));
      WritesTraceAppend([RegWrite(10, 0x0000)], [RegWrite(11, 0x0000)]);
      WritesTraceOne(RegWrite(10, 0x0000));
      WritesTraceOne(RegWrite(11, 0x0000));
      assert [RegWrite(10, 0x0000)] + [RegWrite(11, 0x0000)] == DpClearWrites();
    }

    /** `lcd_printint(n)`: clear, then the characters of str(n) from the
        last to the first into registers 0, 1, ... */
    method PrintInt(n: int)
      modifies this
      ensures trace == old(trace) + WritesTrace(IntWrites(n))
    {
      Clear();
      var s := DecimalString(n);
      IntCharsIndexable(n);
      PrintDigits(s);
      WritesTraceAppend(ClearWrites(), DigitWrites(s));
      AppendAssoc(old(trace), WritesTrace(ClearWrites()), WritesTrace(DigitWrites(s)));
    }

    /** The loop of `lcd_printint` over `reversed(s)`, idx counting up
        from 0. */
    method PrintDigits(s: string)
      requires forall k :: 0 <= k < |s| ==> 0 <= s[k] as int - 42 < |CharBits|
      modifies this
      ensures trace == old(trace) + WritesTrace(DigitWrites(s))
    {
      ghost var ws := DigitWrites(s);
      var idx := 0;
      while idx < |s|
        invariant 0 <= idx <= |s|
        invariant trace == old(trace) + WritesTrace(ws[..idx])
      {
        PrintDigit(s, idx);
        WritesStep(old(trace), ws, idx);
        idx := idx + 1;
      }
      assert ws[..|s|] == ws;
    }

    /** The body of that loop: character idx from the right of s, looked
        up at ord(c) - ord("*"), into register idx. */
    method PrintDigit(s: string, idx: nat)
      requires forall k :: 0 <= k < |s| ==> 0 <= s[k] as int - 42 < |CharBits|
      requires idx < |s|
      modifies this
      ensures trace == old(trace) + WriteTrace(DigitWrites(s)[idx].reg, DigitWrites(s)[idx].pattern)
    {
      var c := s[|s| - 1 - idx];
      WriteMode(idx, CharBits[c as int - '*' as int]);
      DigitWritesAt(s, idx);
    }

    /** `lcd_printchar(idx, c)`; the caller must not pass a character whose
        lookup raises IndexError. */
    method PrintChar(idx: int, c: char)
      requires Glyph(c).Some?
      modifies this
      ensures trace == old(trace) + WriteTrace(idx, Glyph(c).value)
    {
      if c as int == 32 {
        WriteMode(idx, 0x0000);
      } else if c as int <= '9' as int {
        WriteMode(idx, PyIndex(CharBits, c as int - '*' as int).value);
      } else {
        WriteMode(idx, PyIndex(CharBits, c as int - 'A' as int + 16).value);
      }
    }

    /** `lcd_printtext(s)`: the characters from the last to the first into
        registers 10 - len(s), 10 - len(s) + 1, ... */
    method PrintText(s: string)
      requires forall k :: 0 <= k < |s| ==> Glyph(s[k]).Some?
      modifies this
      ensures trace == old(trace) + WritesTrace(TextWrites(s))
    {
      ghost var ws := TextWrites(s);
      var idx := 10 - |s|;
      var j := 0;
      while j < |s|
        invariant 0 <= j <= |s| && idx == 10 - |s| + j
        invariant trace == old(trace) + WritesTrace(ws[..j])
      {
        PrintChar(idx, s[|s| - 1 - j]);
        TextWritesAt(s, j);
        WritesStep(old(trace), ws, j);
        idx := idx + 1;
        j := j + 1;
      }
      assert ws[..|s|] == ws;
    }
  }
}
