/** The segment tables of the DM8BA10 and the two ways the driver looks
    characters up in them: `lcd_printchar` (code.py:166-172) and the digit
    loop of `lcd_printint` (code.py:157-163), which renders `str(n)`. */
module Glyphs {
  import opened Options
  import opened Wire

  /** LCD_DPBITS (code.py:39): the bit to set for a decimal point at
      positions 1..9 from the right. */
  const DpBits: seq<int> := [0x0100, 0x0200, 0x0400, 0x0001, 0x0002, 0x0004, 0x0100, 0x0200, 0x0400]

  /** LCD_CHARBITS (code.py:41-85): segment patterns for '*' .. 'Z' as laid
      out in the source (the first 16 in ASCII order from '*', then A-Z),
      and a final blank entry. */
  const CharBits: seq<int> := [
    0x5C5C, 0x1448, 0x0800, 0x1008, 0x0000, 0x0810,
    0xABB3, 0x0032, 0x93A9, 0x81AB, 0x302A, 0xB18B, 0xB30B, 0x80A2, 0xB3AB, 0xB0AB,
    0xB2AA, 0x85EB, 0xA381, 0x85E3, 0xB381, 0xB280, 0xA38B, 0x322A, 0x85C1, 0x0323,
    0x3214, 0x2301, 0x6232, 0x6226, 0xA3A3, 0xB2A8, 0xA3A7, 0xB2AC, 0xB18B, 0x84C0,
    0x2323, 0x2A10, 0x2A26, 0x4814, 0x3428, 0x8991,
    0x0000]

  /** Python's `table[i]`: a negative index counts from the end, and an
      index outside -len..len-1 raises IndexError (None). */
  function PyIndex(table: seq<int>, i: int): (r: Option<int>)
    ensures r.Some? <==> -|table| <= i < |table|
    ensures r.Some? ==> r == Some(table[i % |table|])
  {
    if 0 <= i < |table| then Some(table[i])
    else if -|table| <= i < 0 then Some(table[|table| + i])
    else None
  }

  /** The index `lcd_printchar` computes for a character other than space:
      `ord(c) - ord("*")` up to '9', `ord(c) - ord("A") + 16` above. */
  function CharIndex(c: char): int
  {
    if c as int <= '9' as int then c as int - '*' as int else c as int - 'A' as int + 16
  }

  /** The pattern `lcd_printchar` writes for c; None where the lookup
      raises IndexError. */
  function Glyph(c: char): Option<int>
  {
    if c as int == 32 then Some(0x0000) else PyIndex(CharBits, CharIndex(c))
  }

  /** The characters the table was laid out for. */
  predicate Supported(c: char)
  {
    c == ' ' || '*' <= c <= '9' || 'A' <= c <= 'Z'
  }

  // ---------------------------------------------------------------------
  // Decimal rendering, Python's str(n)

  function DigitChar(d: int): (c: char)
    requires 0 <= d < 10
    ensures '0' <= c <= '9' && c as int - '0' as int == d
  {
    ('0' as int + d) as char
  }

  /** str(n) for n >= 0: decimal digits, most significant first. */
  function NatString(n: nat): (s: string)
    ensures |s| >= 1
    decreases n
  {
    if n < 10 then [DigitChar(n)] else NatString(n / 10) + [DigitChar(n % 10)]
  }

  /** str(n): a '-' in front of the digits of -n when n < 0. */
  function DecimalString(n: int): string
  {
    if n < 0 then "-" + NatString(-n) else NatString(n)
  }

  /** Reading a digit string back as a number, most significant first. */
  function DigitsValue(s: string): int
  {
    if s == [] then 0 else 10 * DigitsValue(s[..|s| - 1]) + (s[|s| - 1] as int - '0' as int)
  }

  function Pow10(k: nat): (p: nat)
    ensures p >= 1
  {
    if k == 0 then 1 else 10 * Pow10(k - 1)
  }

  // ---------------------------------------------------------------------
  // Properties of the tables and lookups

  /** The table's layout: '*' is entry 0, '-' entry 3, '0' entry 6, 'A'
      entry 16, 'Z' entry 41, the blank entry 42. */
  lemma GlyphIndices()
    ensures CharIndex('*') == 0 && CharIndex('-') == 3 && CharIndex('0') == 6
    ensures CharIndex('9') == 15 && CharIndex('A') == 16 && CharIndex('Z') == 41
    ensures |CharBits| == 43 && CharBits[42] == 0
  {
  }

  /** Every character of the intended alphabet finds an entry inside the
      table (no wrap-around from the end): digits and '*'..'/' at
      ord(c) - 42, letters at ord(c) - 49, space blank. */
  lemma SupportedGlyph(c: char)
    requires Supported(c)
    ensures c != ' ' ==> 0 <= CharIndex(c) < 42 && Glyph(c) == Some(CharBits[CharIndex(c)])
    ensures c == ' ' ==> Glyph(c) == Some(0)
    ensures '0' <= c <= '9' ==> CharIndex(c) == 6 + (c as int - '0' as int)
    ensures 'A' <= c <= 'Z' ==> CharIndex(c) == 16 + (c as int - 'A' as int)
  {
  }

  /** The table is in character order: distinct supported characters get
      distinct entries, in increasing order. */
  lemma {:induction false} CharIndexOrdered(c: char, d: char)
    requires Supported(c) && Supported(d) && c != ' ' && d != ' ' && c < d
    ensures CharIndex(c) < CharIndex(d)
  {
  }

  /** `lcd_printchar` raises IndexError exactly for the characters from '\'
      (ord 92) upwards, lower case included; every character below it,
      supported or not, finds some entry (control characters and '!'..')'
      through Python's negative indexing, ':'..'@' landing on '3'..'9'). */
  lemma GlyphDefined(c: char)
    ensures Glyph(c).Some? <==> c as int < 92
  {
  }

  /** Every pattern either table holds fits the 16-bit register. */
  lemma TablesFit()
    ensures forall k :: 0 <= k < |CharBits| ==> 0 <= CharBits[k] < 0x10000
    ensures forall k :: 0 <= k < |DpBits| ==> 0 <= DpBits[k] < 0x10000
  {
  }

  /** So does every pattern `lcd_printchar` can write. */
  lemma GlyphFits(c: char)
    requires Glyph(c).Some?
    ensures 0 <= Glyph(c).value < 0x10000
  {
    TablesFit();
  }

  /** The characters of str(n). */
  lemma {:induction false} NatStringDigits(n: nat)
    ensures forall k :: 0 <= k < |NatString(n)| ==> '0' <= NatString(n)[k] <= '9'
    decreases n
  {
    if n >= 10 {
      NatStringDigits(n / 10);
    }
  }

  lemma DecimalStringChars(n: int)
    ensures forall k :: 0 <= k < |DecimalString(n)| ==>
      ('0' <= DecimalString(n)[k] <= '9') || (k == 0 && n < 0 && DecimalString(n)[k] == '-')
    ensures |DecimalString(n)| >= 1 && (DecimalString(n)[0] == '-' <==> n < 0)
  {
    if n < 0 {
      NatStringDigits(-n);
    } else {
      NatStringDigits(n);
    }
  }

  /** str(n) reads back as n: the decimal rendering is faithful. */
  lemma {:induction false} NatStringValue(n: nat)
    ensures DigitsValue(NatString(n)) == n
    decreases n
  {
    if n >= 10 {
      var s := NatString(n);
      assert s[..|s| - 1] == NatString(n / 10);
      NatStringValue(n / 10);
    }
  }

  /** No leading zeros: only 0 itself is written with a leading '0'. */
  lemma {:induction false} NatStringCanonical(n: nat)
    ensures NatString(n)[0] == '0' <==> n == 0
    decreases n
  {
    if n >= 10 {
      NatStringCanonical(n / 10);
    }
  }

  /** Character j from the right of str(n) is the digit (n / 10^j) % 10. */
  lemma {:induction false} NatStringDigitAt(n: nat, j: nat)
    requires j < |NatString(n)|
    ensures NatString(n)[|NatString(n)| - 1 - j] == DigitChar((n / Pow10(j)) % 10)
    decreases n
  {
    if n >= 10 && j > 0 {
      NatStringDigitAt(n / 10, j - 1);
      DivDiv(n, 10, Pow10(j - 1));
    }
  }

  lemma DivDiv(n: nat, a: nat, b: nat)
    requires a > 0 && b > 0
    ensures n / a / b == n / (a * b)
  {
    var q := n / a / b;
    var r := n / a % b;
    assert n / a == b * q + r;
    assert n == a * (n / a) + n % a;
    assert n == (a * b) * q + (a * r + n % a) by {
      assert a * (b * q + r) == (a * b) * q + a * r;
    }
    assert a * r + n % a < a * b by {
      assert r <= b - 1;
      assert a * r <= a * (b - 1);
    }
    ModUnique(n, a * b, q, a * r + n % a);
  }

  /** str(n) has at most k digits exactly when n < 10^k: the test for
      whether a number fits the ten character positions. */
  lemma {:induction false} NatStringLength(n: nat, k: nat)
    requires k >= 1
    ensures |NatString(n)| <= k <==> n < Pow10(k)
    decreases n
  {
    if n >= 10 {
      if k == 1 {
        NatStringLength(n / 10, 1);
      } else {
        NatStringLength(n / 10, k - 1);
        assert n / 10 < Pow10(k - 1) <==> n < Pow10(k);
      }
    }
  }

  /** Character j from the right of str(n) is the decimal digit
      (|n| / 10^j) % 10, for j inside the digits of |n|. */
  lemma DecimalDigitAt(n: int, j: nat)
    requires j < |NatString(if n < 0 then -n else n)|
    ensures var s := DecimalString(n);
      j < |s| && s[|s| - 1 - j] as int - 42 == 6 + ((if n < 0 then -n else n) / Pow10(j)) % 10
  {
    var a := if n < 0 then -n else n;
    var s := DecimalString(n);
    NatStringDigitAt(a, j);
    if n < 0 {
      assert s[|s| - 1 - j] == NatString(a)[|NatString(a)| - 1 - j];
    }
  }

  /** Every character of str(n) indexes the first sixteen entries of
      LCD_CHARBITS at ord(c) - ord("*"). */
  lemma IntCharsIndexable(n: int)
    ensures forall k :: 0 <= k < |DecimalString(n)| ==> 0 <= DecimalString(n)[k] as int - 42 < 16
  {
    DecimalStringChars(n);
  }

  /** `lcd_printint` indexes LCD_CHARBITS directly with ord(c) - 42; for
      the characters of str(n) that agrees with `lcd_printchar`'s lookup,
      and '-' is the dash pattern 0x1008. */
  lemma IntGlyphs(n: int)
    ensures forall k :: 0 <= k < |DecimalString(n)| ==>
      0 <= DecimalString(n)[k] as int - 42 < 16 &&
      Glyph(DecimalString(n)[k]) == Some(CharBits[DecimalString(n)[k] as int - 42])
    ensures n < 0 ==> CharBits[DecimalString(n)[0] as int - 42] == 0x1008
  {
    var s := DecimalString(n);
    DecimalStringChars(n);
    forall k | 0 <= k < |s|
      ensures 0 <= s[k] as int - 42 < 16 && Glyph(s[k]) == Some(CharBits[s[k] as int - 42])
    {
      DigitGlyph(s[k]);
    }
    if n < 0 {
      DashGlyph(n);
    }
  }

  /** str(n) of a negative n starts with '-', entry 3, the dash 0x1008. */
  lemma DashGlyph(n: int)
    requires n < 0
    ensures CharBits[DecimalString(n)[0] as int - 42] == 0x1008
  {
    assert DecimalString(n)[0] == '-';
  }

  /** For '*' .. '9' the two lookups agree. */
  lemma DigitGlyph(c: char)
    requires '*' <= c <= '9'
    ensures 0 <= c as int - 42 < 16 && Glyph(c) == Some(CharBits[c as int - 42])
  {
  }
}
