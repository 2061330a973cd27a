/** The display layer (code.py:132-179): the `lcd_writemode` calls each
    display function makes, as a list of register writes, and what the
    twelve registers of the DM8BA10 show once the controller has executed
    them. */
module Display {
  import opened Frames
  import opened Ram
  import opened Glyphs

  /** `lcd_clear`: registers 0..11 in increasing order, all 0x0000. */
  function ClearWrites(): (ws: seq<RegWrite>)
    ensures |ws| == 12
  {
    seq(12, i requires 0 <= i < 12 => RegWrite(i, 0x0000))
  }

  /** `lcd_allon`: registers 0..11 in increasing order, all 0xFFFF. */
  function AllOnWrites(): (ws: seq<RegWrite>)
    ensures |ws| == 12
  {
    seq(12, i requires 0 <= i < 12 => RegWrite(i, 0xFFFF))
  }

  /** `lcd_dp_insert(i)`: positions 1-3 live in register 11, 4-9 in
      register 10; anything else writes nothing. */
  function DpWrites(i: int): (ws: seq<RegWrite>)
    ensures |ws| <= 1
  {
    if i < 1 then []
    else if i < 4 then [RegWrite(11, DpBits[i - 1])]
    else if i < 10 then [RegWrite(10, DpBits[i - 1])]
    else []
  }

  /** `lcd_dp_clear`: register 10, then register 11, both 0x0000. */
  function DpClearWrites(): seq<RegWrite>
  {
    [RegWrite(10, 0x0000), RegWrite(11, 0x0000)]
  }

  /** The digit loop of `lcd_printint`: the characters of s from the last
      to the first, to registers 0, 1, ..., each looked up directly at
      ord(c) - ord("*"). */
  function DigitWrites(s: string): (ws: seq<RegWrite>)
    requires forall k :: 0 <= k < |s| ==> 0 <= s[k] as int - 42 < |CharBits|
    ensures |ws| == |s|
  {
    seq(|s|, j requires 0 <= j < |s| => RegWrite(j, CharBits[s[|s| - 1 - j] as int - 42]))
  }

  lemma DigitWritesAt(s: string, j: nat)
    requires forall k :: 0 <= k < |s| ==> 0 <= s[k] as int - 42 < |CharBits|
    requires j < |s|
    ensures DigitWrites(s)[j].reg == j
    ensures DigitWrites(s)[j].pattern == CharBits[s[|s| - 1 - j] as int - '*' as int]
  {
  }

  /** `lcd_printint(n)`: a full clear, then the digits of str(n). */
  function IntWrites(n: int): seq<RegWrite>
  {
    IntCharsIndexable(n);
    ClearWrites() + DigitWrites(DecimalString(n))
  }

  /** `lcd_printchar(idx, c)`. */
  function CharWrite(idx: int, c: char): RegWrite
    requires Glyph(c).Some?
  {
    RegWrite(idx, Glyph(c).value)
  }

  /** `lcd_printtext(s)`: the characters from the last to the first, to
      registers 10 - len(s), 10 - len(s) + 1, ... */
  function TextWrites(s: string): (ws: seq<RegWrite>)
    requires forall k :: 0 <= k < |s| ==> Glyph(s[k]).Some?
    ensures |ws| == |s|
  {
    seq(|s|, j requires 0 <= j < |s| => CharWrite(10 - |s| + j, s[|s| - 1 - j]))
  }

  lemma TextWritesAt(s: string, j: nat)
    requires forall k :: 0 <= k < |s| ==> Glyph(s[k]).Some?
    requires j < |s|
    ensures TextWrites(s)[j].reg == 10 - |s| + j
    ensures TextWrites(s)[j].pattern == Glyph(s[|s| - 1 - j]).value
  {
  }

  // ---------------------------------------------------------------------
  // What the display shows afterwards

  /** `lcd_clear` blanks all twelve registers. */
  lemma ClearShown(ram: seq<int>)
    requires IsRam(ram)
    ensures IsRam(ApplyWrites(ram, ClearWrites()))
    ensures forall j :: 0 <= j < 12 ==> Register(ApplyWrites(ram, ClearWrites()), j) == 0
  {
    AscendingWrites(ram, ClearWrites(), 0);
  }

  /** `lcd_allon` lights every segment of all twelve registers. */
  lemma AllOnShown(ram: seq<int>)
    requires IsRam(ram)
    ensures IsRam(ApplyWrites(ram, AllOnWrites()))
    ensures forall j :: 0 <= j < 12 ==> Register(ApplyWrites(ram, AllOnWrites()), j) == 0xFFFF
  {
    AscendingWrites(ram, AllOnWrites(), 0);
  }

  /** Each of the nine decimal-point positions has its own segment: a single
      bit, and no two positions share register and bit. */
  lemma DpPositions(i: int, k: int)
    requires 1 <= i <= 9 && 1 <= k <= 9 && i != k
    ensures |DpWrites(i)| == 1 && |DpWrites(k)| == 1
    ensures DpWrites(i)[0].pattern in {0x0001, 0x0002, 0x0004, 0x0100, 0x0200, 0x0400}
    ensures DpWrites(i)[0] != DpWrites(k)[0]
  {
  }

  /** `lcd_dp_insert(i)` overwrites its register with the one bit (it does
      not OR into it, so a point already shown in that register goes
      away); positions 4..9 also clear the top nibble of register 11 (the
      fifth sub-write), while positions 1..3 leave register 10 alone;
      positions outside 1..9 change nothing; the ten character registers
      are never touched. */
  lemma DpInsertShown(ram: seq<int>, i: int)
    requires IsRam(ram)
    ensures IsRam(ApplyWrites(ram, DpWrites(i)))
    ensures 1 <= i <= 3 ==> Register(ApplyWrites(ram, DpWrites(i)), 11) == DpBits[i - 1]
    ensures 4 <= i <= 9 ==> Register(ApplyWrites(ram, DpWrites(i)), 10) == DpBits[i - 1]
    ensures 1 <= i <= 3 ==> Register(ApplyWrites(ram, DpWrites(i)), 10) == Register(ram, 10)
    ensures 4 <= i <= 9 ==> Register(ApplyWrites(ram, DpWrites(i)), 11) == Register(ram, 11) % 4096
    ensures !(1 <= i <= 9) ==> ApplyWrites(ram, DpWrites(i)) == ram
    ensures forall j :: 0 <= j < 10 ==> Register(ApplyWrites(ram, DpWrites(i)), j) == Register(ram, j)
  {
    if 1 <= i <= 9 {
      TablesFit();
      AscendingWrites(ram, DpWrites(i), DpWrites(i)[0].reg);
    }
  }

  /** `lcd_dp_clear` blanks registers 10 and 11 and leaves the ten
      character registers alone. */
  lemma DpClearShown(ram: seq<int>)
    requires IsRam(ram)
    ensures IsRam(ApplyWrites(ram, DpClearWrites()))
    ensures Register(ApplyWrites(ram, DpClearWrites()), 10) == 0
    ensures Register(ApplyWrites(ram, DpClearWrites()), 11) == 0
    ensures forall j :: 0 <= j < 10 ==> Register(ApplyWrites(ram, DpClearWrites()), j) == Register(ram, j)
  {
    AscendingWrites(ram, DpClearWrites(), 10);
  }

  /** A clear followed by the digit loop over s: register j shows the
      pattern of character j from the right of s, every register above is
      blank, whatever was shown before. */
  lemma ClearThenDigits(ram: seq<int>, s: string)
    requires IsRam(ram) && |s| <= 12
    requires forall k :: 0 <= k < |s| ==> 0 <= s[k] as int - 42 < 16
    ensures IsRam(ApplyWrites(ram, ClearWrites() + DigitWrites(s)))
    ensures forall j :: 0 <= j < |s| ==>
      Register(ApplyWrites(ram, ClearWrites() + DigitWrites(s)), j) == CharBits[s[|s| - 1 - j] as int - 42]
    ensures forall j :: |s| <= j < 12 ==>
      Register(ApplyWrites(ram, ClearWrites() + DigitWrites(s)), j) == 0
  {
    var ds := DigitWrites(s);
    var m1 := ApplyWrites(ram, ClearWrites());
    ApplyWritesAppend(ram, ClearWrites(), ds);
    ClearShown(ram);
    DigitWritesFit(s);
    AscendingWrites(m1, ds, 0);
    var m := ApplyWrites(m1, ds);
    forall j | 0 <= j < |s|
      ensures Register(m, j) == CharBits[s[|s| - 1 - j] as int - 42]
    {
      DigitWritesAt(s, j);
    }
    forall j | |s| <= j < 12
      ensures Register(m, j) == 0
    {
      assert Register(m1, j) == 0;
    }
  }

  lemma DigitWritesFit(s: string)
    requires forall k :: 0 <= k < |s| ==> 0 <= s[k] as int - 42 < 16
    ensures forall k :: 0 <= k < |s| ==>
      DigitWrites(s)[k].reg == k && 0 <= DigitWrites(s)[k].pattern < 0x10000
  {
    TablesFit();
  }

  /** The registers show the characters of s right-aligned, one per
      register from register 0 up, looked up as `lcd_printint` does, and
      every register above them is blank. */
  ghost predicate ShowsRightAligned(m: seq<int>, s: string)
  {
    |m| == 64 && |s| <= 12 &&
    (forall j :: 0 <= j < |s| ==>
      0 <= s[|s| - 1 - j] as int - 42 < 16 && Register(m, j) == CharBits[s[|s| - 1 - j] as int - 42]) &&
    (forall j :: |s| <= j < 12 ==> Register(m, j) == 0)
  }

  /** `lcd_printint(n)`, when str(n) fits the twelve registers: register j
      shows character j from the right of str(n), every register above is
      blank, whatever was shown before. */
  lemma PrintIntShown(ram: seq<int>, n: int)
    requires IsRam(ram) && |DecimalString(n)| <= 12
    ensures IsRam(ApplyWrites(ram, IntWrites(n)))
    ensures ShowsRightAligned(ApplyWrites(ram, IntWrites(n)), DecimalString(n))
  {
    IntCharsIndexable(n);
    ClearThenDigits(ram, DecimalString(n));
  }

  /** The registers show n in decimal: |n| has at most ten digits,
      register j holds the glyph of the digit (|n| / 10^j) % 10 for each
      digit of |n|, the dash 0x1008 sits just left of the leading digit
      when n < 0, and every register above is blank. */
  ghost predicate ShowsNumber(m: seq<int>, n: int)
    requires |m| == 64
  {
    ShowsMagnitude(m, if n < 0 then -n else n, n < 0)
  }

  /** The digits of a, right-aligned from register 0, the dash left of
      them when neg, blanks above. */
  ghost predicate ShowsMagnitude(m: seq<int>, a: nat, neg: bool)
    requires |m| == 64
  {
    var len := |NatString(a)|;
    len <= 10 &&
    (forall j :: 0 <= j < len ==> Register(m, j) == CharBits[6 + (a / Pow10(j)) % 10]) &&
    (neg ==> Register(m, len) == 0x1008) &&
    (forall j :: (if neg then len + 1 else len) <= j < 12 ==> Register(m, j) == 0)
  }

  /** In digits: when str(n) fits the ten character positions (for
      -10^9 < n < 10^10, by NatStringLength), register j shows the glyph of
      the decimal digit (|n| / 10^j) % 10, and a negative number has the
      dash 0x1008 just left of its leading digit. */
  lemma PrintIntDigits(ram: seq<int>, n: int)
    requires IsRam(ram) && |DecimalString(n)| <= 10
    ensures ShowsNumber(ApplyWrites(ram, IntWrites(n)), n)
  {
    PrintIntShown(ram, n);
    ShownDigits(ApplyWrites(ram, IntWrites(n)), n);
  }

  /** From characters of str(n) in the registers to decimal digits. */
  lemma ShownDigits(m: seq<int>, n: int)
    requires |DecimalString(n)| <= 10 && ShowsRightAligned(m, DecimalString(n))
    ensures ShowsNumber(m, n)
  {
    var a := if n < 0 then -n else n;
    var s := DecimalString(n);
    var len := |NatString(a)|;
    assert |s| == if n < 0 then len + 1 else len;
    forall j | 0 <= j < len
      ensures Register(m, j) == CharBits[6 + (a / Pow10(j)) % 10]
    {
      DecimalDigitAt(n, j);
    }
    if n < 0 {
      IntGlyphs(n);
      assert Register(m, len) == CharBits[s[0] as int - 42];
    }
    forall j | |s| <= j < 12
      ensures Register(m, j) == 0
    {
    }
    assert ShowsMagnitude(m, a, n < 0);
  }

  /** `lcd_printtext(s)` for up to ten characters: character s[k] goes to
      register 9 - k, so s[0] is in register 9 and s[len(s) - 1] in
      register 10 - len(s); the registers to the right of the text
      and register 11 keep what they showed; the fifth sub-write of the
      last call clears the top nibble of register 10. */
  lemma PrintTextShown(ram: seq<int>, s: string)
    requires IsRam(ram) && |s| <= 10
    requires forall k :: 0 <= k < |s| ==> Glyph(s[k]).Some?
    ensures IsRam(ApplyWrites(ram, TextWrites(s)))
    ensures forall k :: 0 <= k < |s| ==> Register(ApplyWrites(ram, TextWrites(s)), 9 - k) == Glyph(s[k]).value
    ensures forall j :: 0 <= j < 10 - |s| ==> Register(ApplyWrites(ram, TextWrites(s)), j) == Register(ram, j)
    ensures Register(ApplyWrites(ram, TextWrites(s)), 11) == Register(ram, 11)
    ensures Register(ApplyWrites(ram, TextWrites(s)), 10) ==
      if s == [] then Register(ram, 10) else Register(ram, 10) % 4096
  {
    var ws := TextWrites(s);
    forall k | 0 <= k < |s|
      ensures ws[k].reg == 10 - |s| + k && 0 <= ws[k].pattern < 0x10000
    {
      TextWritesAt(s, k);
      GlyphFits(s[|s| - 1 - k]);
    }
    AscendingWrites(ram, ws, 10 - |s|);
    var m := ApplyWrites(ram, ws);
    forall k | 0 <= k < |s|
      ensures Register(m, 9 - k) == Glyph(s[k]).value
    {
      TextWritesAt(s, |s| - 1 - k);
    }
  }

  /** "HI" ends up with 'H' in register 9 and 'I' in register 8. */
  lemma PrintTextHi(ram: seq<int>)
    requires IsRam(ram)
    ensures Register(ApplyWrites(ram, TextWrites("HI")), 9) == 0x322A
    ensures Register(ApplyWrites(ram, TextWrites("HI")), 8) == 0x85C1
  {
    PrintTextShown(ram, "HI");
  }
}
