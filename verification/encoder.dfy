/** The rotary-encoder front end of code.py (lines 182-217): the value
    quantiser `update_rotval`, which turns a change of encoder position and
    the number of edges counted since the last update into a new value, and
    the range selector `update_speedrange`, which steps the multiplier
    1 -> 1000 -> 1000000 -> 1 and shows the unit on the display. */
module Encoder {
  import opened Options
  import opened Wire
  import opened Frames
  import opened Ram
  import opened Glyphs
  import opened Display
  import opened LcdDriver

  /** The acceleration factor for a given number of counted edges. */
  function Multiplier(rotspeed: int): (m: int)
    ensures m in {1, 50, 100, 500}
  {
    if rotspeed <= 8 then 1
    else if rotspeed <= 10 then 50
    else if rotspeed <= 14 then 100
    else 500
  }

  /** The value after one update: the old value moved by the rotation times
      the speed factor and the range, and held at 0 from below. */
  function NextValue(rotval: int, diff: int, rotspeed: int, speedrange: int): (v: int)
    ensures v >= 0 && v >= rotval + diff * Multiplier(rotspeed) * speedrange
    ensures v == 0 || v == rotval + diff * Multiplier(rotspeed) * speedrange
  {
    var r := rotval + diff * Multiplier(rotspeed) * speedrange;
    if r < 0 then 0 else r
  }

  /** The three ranges the button cycles through: Hz, kHz, MHz. */
  const Ranges: set<int> := {1, 1000, 1000000}

  /** The range after one button press. */
  function NextRange(speedrange: int): (r: int)
    ensures r in Ranges
  {
    if speedrange == 1 then 1000
    else if speedrange == 1000 then 1000000
    else 1
  }

  /** The `lcd_printchar` calls of `update_speedrange`, chosen by the range
      before the press, that show the range it selects. */
  function UnitWrites(speedrange: int): (ws: seq<RegWrite>)
    ensures 1 <= |ws| <= 2
  {
    GlyphDefined('K');
    GlyphDefined('M');
    GlyphDefined('Z');
    GlyphDefined('H');
    if speedrange == 1 then [CharWrite(9, 'K')]
    else if speedrange == 1000 then [CharWrite(9, 'M')]
    else [CharWrite(8, 'Z'), CharWrite(9, 'H')]
  }

  /** The unit letter of a range: 'H' (of "HZ") for Hz, 'K' and 'M' for
      the prefixes. */
  function UnitLetter(speedrange: int): (c: char)
    ensures Supported(c) && 'A' <= c <= 'Z'
  {
    if speedrange == 1000 then 'K' else if speedrange == 1000000 then 'M' else 'H'
  }

  // ---------------------------------------------------------------------
  // The quantiser

  /** The thresholds: 1 up to 8 edges, 50 up to 10, 100 up to 14, 500
      beyond. */
  lemma MultiplierBands(rotspeed: int)
    ensures Multiplier(rotspeed) == 1 <==> rotspeed <= 8
    ensures Multiplier(rotspeed) == 50 <==> 8 < rotspeed <= 10
    ensures Multiplier(rotspeed) == 100 <==> 10 < rotspeed <= 14
    ensures Multiplier(rotspeed) == 500 <==> 14 < rotspeed
  {
  }

  /** Turning faster never gives a smaller step. */
  lemma MultiplierMonotone(a: int, b: int)
    requires a <= b
    ensures 1 <= Multiplier(a) <= Multiplier(b) <= 500
  {
  }

  /** With a positive range, turning one way never moves the value the
      other way: up is up, no rotation keeps the value, and down lowers a
      positive value (to 0 at the least). */
  lemma NextValueDirection(rotval: int, diff: int, rotspeed: int, speedrange: int)
    requires rotval >= 0 && speedrange >= 1
    ensures diff > 0 ==> NextValue(rotval, diff, rotspeed, speedrange) > rotval
    ensures diff == 0 ==> NextValue(rotval, diff, rotspeed, speedrange) == rotval
    ensures diff < 0 ==> NextValue(rotval, diff, rotspeed, speedrange) <= rotval
    ensures diff < 0 && rotval > 0 ==> NextValue(rotval, diff, rotspeed, speedrange) < rotval
  {
    var m := Multiplier(rotspeed);
    if diff > 0 {
      assert diff * m >= 1;
      assert diff * m * speedrange >= 1 by {
        MulPositive(diff * m, speedrange);
      }
    } else if diff < 0 {
      assert -diff * m >= 1;
      assert (-diff * m) * speedrange >= 1 by {
        MulPositive(-diff * m, speedrange);
      }
      assert diff * m * speedrange == -((-diff * m) * speedrange);
    }
  }

  lemma MulPositive(a: int, b: int)
    requires a >= 1 && b >= 1
    ensures a * b >= 1
  {
  }

  /** One update moves the value by at most the full step, and by exactly
      the full step whenever the result does not reach below 0. */
  lemma NextValueStep(rotval: int, diff: int, rotspeed: int, speedrange: int)
    requires rotval >= 0
    ensures var step := diff * Multiplier(rotspeed) * speedrange;
      var v := NextValue(rotval, diff, rotspeed, speedrange);
      (rotval + step >= 0 ==> v == rotval + step) &&
      (step >= 0 ==> v - rotval == step) &&
      (step < 0 ==> step <= v - rotval <= 0)
  {
  }

  /** A run of encoder readings, each with the edge count seen since the
      previous reading, replayed through `update_rotval` from the value
      rotval and last position last. */
  datatype Reading = Reading(pos: int, edges: nat)

  function Replay(rotval: int, last: int, rs: seq<Reading>, speedrange: int): (v: int)
    ensures rs != [] ==> v >= 0
    decreases |rs|
  {
    if rs == [] then rotval
    else Replay(NextValue(rotval, rs[0].pos - last, rs[0].edges, speedrange), rs[0].pos, rs[1..], speedrange)
  }

  /** Readings that each see at most 8 edges (the unaccelerated band) and
      never go back from the position before them. */
  ghost predicate SlowForward(last: int, rs: seq<Reading>)
    decreases |rs|
  {
    rs == [] || (rs[0].edges <= 8 && last <= rs[0].pos && SlowForward(rs[0].pos, rs[1..]))
  }

  /** The position after the readings: the last one's, or last if none. */
  function EndPos(last: int, rs: seq<Reading>): (e: int)
    ensures rs != [] ==> e == rs[|rs| - 1].pos
    decreases |rs|
  {
    if rs == [] then last else EndPos(rs[0].pos, rs[1..])
  }

  /** Slow rotation in one direction adds up: when no reading sees more
      than 8 edges and the position never goes back, the value moves by
      exactly the distance turned times the range, however the turn was
      split into readings. */
  lemma {:induction false} SlowTurnsAddUp(rotval: int, last: int, rs: seq<Reading>, speedrange: int)
    requires rotval >= 0 && speedrange >= 0 && SlowForward(last, rs)
    ensures Replay(rotval, last, rs, speedrange) == rotval + (EndPos(last, rs) - last) * speedrange
    decreases |rs|
  {
    if rs != [] {
      var p := rs[0].pos;
      SlowStep(rotval, p - last, rs[0].edges, speedrange);
      var v := NextValue(rotval, p - last, rs[0].edges, speedrange);
      SlowTurnsAddUp(v, p, rs[1..], speedrange);
      SlowCombine(rotval, last, p, EndPos(p, rs[1..]), speedrange, v, Replay(v, p, rs[1..], speedrange));
    }
  }

  /** A slow forward step is never clamped. */
  lemma SlowStep(rotval: int, diff: int, rotspeed: int, speedrange: int)
    requires rotval >= 0 && diff >= 0 && speedrange >= 0 && rotspeed <= 8
    ensures NextValue(rotval, diff, rotspeed, speedrange) == rotval + diff * speedrange
  {
    MulNonNegative(diff, speedrange);
  }

  /** Two legs of a turn, last to p and p to e, add up to one. */
  lemma SlowCombine(rotval: int, last: int, p: int, e: int, speedrange: int, v: int, rest: int)
    requires v == rotval + (p - last) * speedrange && rest == v + (e - p) * speedrange
    ensures rest == rotval + (e - last) * speedrange
  {
    MulSplit(e, p, last, speedrange);
  }

  lemma MulNonNegative(a: int, b: int)
    requires a >= 0 && b >= 0
    ensures a * b >= 0
  {
  }

  lemma MulSplit(a: int, b: int, e: int, c: int)
    ensures (a - b) * c + (b - e) * c == (a - e) * c
  {
  }

  // ---------------------------------------------------------------------
  // The range selector

  /** Each press leaves the three ranges and moves to a different one;
      three presses come back to the start. */
  lemma RangeCycle(speedrange: int)
    requires speedrange in Ranges
    ensures NextRange(speedrange) != speedrange
    ensures NextRange(NextRange(NextRange(speedrange))) == speedrange
  {
  }

  /** A range outside the three is reset to Hz by the next press. */
  lemma RangeRecovers(speedrange: int)
    ensures speedrange !in Ranges ==> NextRange(speedrange) == 1
    ensures NextRange(speedrange) == 1 <==> speedrange != 1 && speedrange != 1000
  {
  }

  /** What the unit letters do to the display: the leftmost character
      position (register 9) shows the unit letter of the range just
      selected, and Hz also puts 'Z' in register 8 to read "HZ"; positions
      0..7 are untouched; the decimal points of register 11 stay, and the
      fifth sub-write of the register-9 write clears the top nibble of
      register 10. */
  lemma UnitShown(ram: seq<int>, speedrange: int)
    requires IsRam(ram)
    ensures var m := ApplyWrites(ram, UnitWrites(speedrange));
      IsRam(m) &&
      Register(m, 9) == Glyph(UnitLetter(NextRange(speedrange))).value &&
      (NextRange(speedrange) == 1 ==> Register(m, 8) == Glyph('Z').value) &&
      (NextRange(speedrange) != 1 ==> Register(m, 8) == Register(ram, 8)) &&
      (forall j :: 0 <= j < 8 ==> Register(m, j) == Register(ram, j)) &&
      Register(m, 10) == Register(ram, 10) % 4096 &&
      Register(m, 11) == Register(ram, 11)
  {
    var ws := UnitWrites(speedrange);
    var base := if speedrange == 1 || speedrange == 1000 then 9 else 8;
    forall k | 0 <= k < |ws|
      ensures ws[k].reg == base + k && 0 <= ws[k].pattern < 0x10000
    {
      GlyphFits(UnitLetter(NextRange(speedrange)));
      GlyphFits('Z');
    }
    AscendingWrites(ram, ws, base);
  }

  /** The patterns themselves: K 0x3214, M 0x6232, H 0x322A, Z 0x8991. */
  lemma UnitGlyphs()
    ensures Glyph('K') == Some(0x3214) && Glyph('M') == Some(0x6232)
    ensures Glyph('H') == Some(0x322A) && Glyph('Z') == Some(0x8991)
  {
  }

  /** The unit letters as the `lcd_printchar` calls that make them. */
  lemma UnitTraces(t0: seq<Event>, speedrange: int)
    ensures Glyph('K').Some? && Glyph('M').Some? && Glyph('Z').Some? && Glyph('H').Some?
    ensures speedrange == 1 ==>
      t0 + WriteTrace(9, Glyph('K').value) == t0 + WritesTrace(UnitWrites(speedrange))
    ensures speedrange == 1000 ==>
      t0 + WriteTrace(9, Glyph('M').value) == t0 + WritesTrace(UnitWrites(speedrange))
    ensures speedrange != 1 && speedrange != 1000 ==>
      t0 + WriteTrace(8, Glyph('Z').value) + WriteTrace(9, Glyph('H').value) == t0 + WritesTrace(UnitWrites(speedrange))
  {
    UnitGlyphs();
    var ws := UnitWrites(speedrange);
    if speedrange == 1 || speedrange == 1000 {
      WritesTraceOne(ws[0]);
    } else {
      assert ws == [ws[0]] + [ws[1]];
      WritesTraceAppend([ws[0]], [ws[1]]);
      WritesTraceOne(ws[0]);
      WritesTraceOne(ws[1]);
      AppendAssoc(t0, WriteTrace(8, Glyph('Z').value), WriteTrace(9, Glyph('H').value));
    }
  }

  // ---------------------------------------------------------------------
  // The controller

  /** The globals `enc_last_pos`, `rotval` and `speedrange`, the count of
      the edge counter `rot_edge`, and the display the selector writes to. */
  class Controller {
    var encLastPos: int
    var rotval: int
    var speedrange: int
    var edgeCount: nat
    const lcd: Lcd

    /** The value is never negative and the range is one of the three. */
    ghost predicate Valid()
      reads this
    {
      rotval >= 0 && speedrange in Ranges
    }

    /** The start-up values of the globals (code.py:20-27). */
    constructor (display: Lcd)
      ensures encLastPos == 0 && rotval == 100000 && speedrange == 1 && edgeCount == 0
      ensures lcd == display
      ensures Valid()
    {
      encLastPos := 0;
      rotval := 100000;
      speedrange := 1;
      edgeCount := 0;
      lcd := display;
    }

    /** The counter seeing one more edge. */
    method CountEdge()
      modifies this
      ensures edgeCount == old(edgeCount) + 1
      ensures encLastPos == old(encLastPos) && rotval == old(rotval) && speedrange == old(speedrange)
      ensures old(Valid()) ==> Valid()
    {
      edgeCount := edgeCount + 1;
    }

    /** `update_rotval(curr_pos)`. */
    method UpdateRotval(currPos: int)
      modifies this
      ensures rotval == NextValue(old(rotval), currPos - old(encLastPos), old(edgeCount), old(speedrange))
      ensures encLastPos == currPos && edgeCount == 0 && speedrange == old(speedrange)
      ensures rotval >= 0 && (old(Valid()) ==> Valid())
    {
      var diff := currPos - encLastPos;
      encLastPos := currPos;
      var rotspeed := edgeCount;
      edgeCount := 0;
      var mult;
      if rotspeed <= 8 {
        mult := 1;
      } else if rotspeed <= 10 {
        mult := 50;
      } else if rotspeed <= 14 {
        mult := 100;
      } else {
        mult := 500;
      }
      diff := diff * mult;
      diff := diff * speedrange;
      rotval := rotval + diff;
      if rotval < 0 {
        rotval := 0;
      }
    }

    /** `update_speedrange()` up to the wait for the button's release. */
    method UpdateSpeedrange()
      modifies this`speedrange, lcd
      ensures speedrange == NextRange(old(speedrange))
      ensures lcd.trace == old(lcd.trace) + WritesTrace(UnitWrites(old(speedrange)))
      ensures old(Valid()) ==> Valid()
    {
      ghost var t0 := lcd.trace;
      UnitTraces(t0, speedrange);
      if speedrange == 1 {
        speedrange := 1000;
        lcd.PrintChar(9, 'K');
      } else if speedrange == 1000 {
        speedrange := 1000000;
        lcd.PrintChar(9, 'M');
      } else {
        speedrange := 1;
        lcd.PrintChar(8, 'Z');
        lcd.PrintChar(9, 'H');
      }
    }
  }
}
