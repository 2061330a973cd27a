# DM8BA10 display driver and rotary-encoder front end

A Dafny model of `code.py` from PiPicoDisplayAndEncoder. That program runs on
a Raspberry Pi Pico. It reads a rotary encoder and a push-button, keeps a
value and a range (Hz, kHz or MHz), and shows them on a DM8BA10 10-character
LCD. The LCD is driven bit by bit over a 3-wire serial interface (data, wr,
csn).

The model has three layers.

- **The serial driver** (`lcd.dfy`, class `LcdDriver.Lcd`).
  - It covers `io_init`, `lcd_sendbits`, `lcd_sendcmd`, `lcd_writemode`,
    `lcd_init`, `lcd_off` and `lcd_on`, plus the display functions
    `lcd_clear`, `lcd_allon`, `lcd_dp_insert`, `lcd_dp_clear`,
    `lcd_printint`, `lcd_printchar` and `lcd_printtext`.
  - They are written as the source writes them, as imperative methods with
    loops.
  - The only state they change is `trace`: the sequence of every level
    assigned to a line so far.
  - Each method is proved to append exactly the events of a specification
    function: `BitsTrace`, `CommandTrace`, `WriteTrace` and `WritesTrace`
    in `wire.dfy` and `frames.dfy`.
  - The display functions are specified as the list of `lcd_writemode`
    calls they make (`display.dfy`).
- **An independent reading of the wire** (`receiver.dfy`, `ram.dfy`).
  - This is a model of the controller chip on the other end.
  - While csn is low it samples data on each rising edge of wr. csn going
    high ends a frame.
  - A frame with prefix `1000` is a command. A frame with prefix `101`
    stores a nibble at a 6-bit address of a 64-cell RAM.
  - Register r of the display is cells 4r..4r+3.
  - The lemmas run this receiver over the driver's traces. They show:
    - what frames arrive;
    - what the twelve registers hold afterwards;
    - what each display function therefore shows.
- **The encoder front end** (`encoder.dfy`, class `Encoder.Controller`).
  - The class holds the globals `enc_last_pos`, `rotval` and `speedrange`,
    and the count of the edge counter.
  - `update_rotval` is an imperative method, proved equal to the
    quantiser function `NextValue`.
  - `update_speedrange` cycles the range and writes the unit letters to the
    display.

Some behaviours of `code.py` that the model keeps as they are:

- `lcd_printtext(s)` walks `reversed(s)` from register `10 - len(s)` upwards,
  so s[k] lands in register 9 - k. "HI" shows 'H' in register 9 and 'I' in
  register 8.
- `lcd_printint` of a negative number does not fail. `str(n)` starts with
  '-', and `ord('-') - ord('*')` is entry 3 of `LCD_CHARBITS`, the dash
  pattern 0x1008.
- `lcd_printtext` has no length check. The model accepts any length, as the
  code does.
- `lcd_writemode` sends five sub-writes, and the fifth always carries 0000.
  The model keeps the five writes. It proves their effect: register
  `addr + 1` loses its top nibble (`Ram.WriteRegister`).

## Model

| member | source | states |
|---|---|---|
| Wire.MsbBitsAt | code.py:96-98 | position k of what `lcd_sendbits(v, n)` puts on the data line is bit n-1-k of v, as `v & (1 << i)` computes it (MSB first) |
| Wire.MsbBitsValue | code.py:96-101 | the n bits sent, read back MSB-first, are v mod 2^n, and exactly v when v fits in n bits |
| Wire.MsbBitsLow | code.py:96-98 | two values with the same low n bits put the same bits on the wire |
| Wire.BitsTraceShape | code.py:96-101 | `lcd_sendbits` makes n pulses (data = bit, wr high, wr low), then one final data-low event, 3n+1 events in all, and never touches csn |
| Frames.NibbleSlices | code.py:113-114 | the nibble of sub-write i < 4 is bits 15-4i..12-4i of a 16-bit pattern; the fifth always carries 0000 |
| Frames.NibbleRoundTrip | code.py:113-118 | the four nibbles of sub-writes 0..3, reassembled MSB-first, give the 16-bit pattern back |
| Ram.SubWritesCells | code.py:111-119 | after the first k sub-writes to register r ≤ 11, cells 4r..4r+k-1 hold the nibbles and every other cell is unchanged |
| Ram.WriteRegister | code.py:111-119 | one `lcd_writemode(r, d)` with a 16-bit d: register r holds d, register r+1 loses its top nibble, every other register is unchanged |
| Ram.AscendingWrites | code.py:132-134 | writes to registers base, base+1, ... in increasing order leave each written register holding its pattern; the register above the last loses its top nibble; the rest are unchanged |
| Receiver.RunBits | code.py:96-101 | inside a frame, `lcd_sendbits(v, n)` appends the n bits MSB-first to the frame being received and leaves data low |
| Receiver.IoInitQuiet | code.py:90-93 | `io_init` brings the lines to idle (csn high, wr and data low) from any state outside a frame |
| Receiver.CommandReceived | code.py:104-108 | `lcd_sendcmd(cmd)` is received from idle lines as exactly one frame, which decodes to the command cmd mod 256; the lines end idle |
| Receiver.CommandParse | code.py:104-108 | the frame `1000` followed by the 8 bits of cmd decodes to the command cmd mod 256 |
| Receiver.SubWriteFrameParse | code.py:115-119 | a sub-write frame decodes to "store nibble mod 16 at address mod 64" |
| Receiver.SubWriteReceived | code.py:115-119 | one csn-framed sub-write (prefix 101, 6 address bits, 4 data bits) is received as exactly one frame |
| Receiver.WriteReceived | code.py:111-119 | `lcd_writemode(addr, data)` is received as exactly its five sub-write frames, in order |
| Receiver.WritesReceived | code.py:111-119 | any sequence of `lcd_writemode` calls is received as five frames per call, in call order |
| Receiver.WriteFramesExecute | code.py:111-119 | executing the five frames of one register write updates the RAM exactly as `ApplyWrite` describes |
| Receiver.WireToRam | code.py:111-119 | for any sequence of register writes from idle lines: the receiver ends idle with the frames of the writes appended, and executing them gives the RAM `ApplyWrites` describes |
| Receiver.CommandsReceived | code.py:121-124 | three byte commands sent from idle lines arrive as three frames decoding to those commands, in order, and leave the RAM unchanged |
| Receiver.InitReceived | code.py:121-124 | `lcd_init` is received as SYS_EN (0x02), RC_32K (0x30) and LCD_ON (0x06), in that order, and leaves the RAM unchanged |
| Glyphs.PyIndex | code.py:170-172 | Python list indexing: defined exactly for -len ≤ i < len, and then the entry at i mod len, so a negative index counts from the end |
| Glyphs.GlyphIndices | code.py:41-85 | table layout: '*' is entry 0, '-' 3, '0' 6, '9' 15, 'A' 16, 'Z' 41; the table has 43 entries and the last is blank |
| Glyphs.SupportedGlyph | code.py:166-172 | a space, '*'..'9' and 'A'..'Z' each find their own entry inside the table: digits at 6 + d, letters at 16 + (c - 'A'); a space is blank |
| Glyphs.CharIndexOrdered | code.py:41-85 | distinct supported characters get distinct table entries, in character order |
| Glyphs.GlyphDefined | code.py:166-172 | `lcd_printchar`'s lookup raises IndexError exactly for characters from '\' (ord 92) upwards |
| Glyphs.TablesFit | code.py:39-85 | every entry of LCD_DPBITS and LCD_CHARBITS is a 16-bit pattern |
| Glyphs.GlyphFits | code.py:166-172 | every pattern `lcd_printchar` can write is a 16-bit pattern |
| Glyphs.NatStringValue | code.py:159 | `str(n)` for n ≥ 0, read back as decimal, is n |
| Glyphs.NatStringCanonical | code.py:159 | `str(n)` has a leading '0' exactly when n = 0 |
| Glyphs.NatStringDigitAt | code.py:159-161 | character j from the right of `str(n)` is the digit (n / 10^j) mod 10 |
| Glyphs.NatStringLength | code.py:159 | `str(n)` has at most k digits exactly when n < 10^k |
| Glyphs.DecimalStringChars | code.py:159 | `str(n)` is non-empty and consists of digits, except that it starts with '-' exactly when n < 0 |
| Glyphs.DecimalDigitAt | code.py:159-162 | character j from the right of `str(n)` indexes LCD_CHARBITS at 6 + (abs(n) / 10^j) mod 10 |
| Glyphs.IntCharsIndexable | code.py:161-162 | every character of `str(n)` indexes one of the first 16 entries of LCD_CHARBITS at ord(c) - ord('*'), so `lcd_printint` never raises |
| Glyphs.IntGlyphs | code.py:161-162 | for the characters of `str(n)`, the direct lookup of `lcd_printint` agrees with `lcd_printchar`'s; a negative number's '-' is the dash 0x1008 |
| Glyphs.DigitGlyph | code.py:169-170 | for '*'..'9', `lcd_printchar` looks up entry ord(c) - ord('*') |
| Glyphs.DashGlyph | code.py:159-162 | `str(n)` of a negative n starts with '-', whose entry is the dash 0x1008 |
| Display.ClearShown | code.py:132-134 | after `lcd_clear` all twelve registers are blank, whatever they showed before |
| Display.AllOnShown | code.py:136-138 | after `lcd_allon` all twelve registers are 0xFFFF |
| Display.DpPositions | code.py:141-149 | each decimal-point position 1..9 makes exactly one write, whose pattern has a single bit set, and no two positions make the same write |
| Display.DpInsertShown | code.py:141-149 | positions 1-3 set register 11 and positions 4-9 set register 10 to the LCD_DPBITS bit (overwriting, not OR-ing); positions 1-3 leave register 10 as it was, positions 4-9 clear the top nibble of register 11; any other position changes nothing; registers 0-9 are never touched |
| Display.DpClearShown | code.py:152-154 | `lcd_dp_clear` blanks registers 10 and 11 and leaves registers 0-9 as they were |
| Display.ClearThenDigits | code.py:157-163 | clearing, then the digit loop over s: register j shows character j from the right of s, every register above is blank |
| Display.PrintIntShown | code.py:157-163 | after `lcd_printint(n)` (when `str(n)` fits 12 registers), `str(n)` is right-aligned from register 0 and everything above is blank, whatever was shown before |
| Display.ShownDigits | code.py:159-163 | right-aligned characters of `str(n)` are the glyphs of the decimal digits of abs(n), with the dash left of them for negative n |
| Display.PrintIntDigits | code.py:157-163 | for n whose `str(n)` fits ten positions: register j shows the glyph of digit (abs(n) / 10^j) mod 10, the dash sits left of the leading digit when n < 0, and the rest are blank |
| Display.PrintTextShown | code.py:175-179 | for up to ten characters: s[k] is in register 9-k; registers below the text and register 11 are unchanged; register 10 loses its top nibble when s is non-empty |
| Display.PrintTextHi | code.py:175-179 | `lcd_printtext("HI")` puts 'H' (0x322A) in register 9 and 'I' (0x85C1) in register 8 |
| LcdDriver.Lcd.IoInit | code.py:90-93 | appends csn high, wr low, data low |
| LcdDriver.Lcd.SendBits | code.py:96-101 | appends `BitsTrace(value, n)`: the loop from bit n-1 down to 0, then data low |
| LcdDriver.Lcd.SendCmd | code.py:104-108 | appends csn low, prefix 1000, the 8 command bits, csn high |
| LcdDriver.Lcd.WriteMode | code.py:111-119 | appends the five sub-writes of `lcd_writemode(addr, data)` in order |
| LcdDriver.Lcd.SubWrite | code.py:115-119 | one pass of the `lcd_writemode` loop: csn low, 101, 6 address bits, 4 data bits, csn high |
| LcdDriver.Lcd.Init | code.py:121-124 | appends the commands SYS_EN, RC_32K, LCD_ON |
| LcdDriver.Lcd.Off | code.py:126-127 | appends the command LCD_OFF (0x04) |
| LcdDriver.Lcd.On | code.py:129-130 | appends the command LCD_ON (0x06) |
| LcdDriver.Lcd.Clear | code.py:132-134 | appends `lcd_writemode(i, 0x0000)` for i = 0..11, in order |
| LcdDriver.Lcd.AllOn | code.py:136-138 | appends `lcd_writemode(i, 0xFFFF)` for i = 0..11, in order |
| LcdDriver.Lcd.DpInsert | code.py:141-149 | appends one write to register 11 (positions 1-3) or 10 (positions 4-9) with the LCD_DPBITS entry; nothing otherwise |
| LcdDriver.Lcd.DpClear | code.py:152-154 | appends 0x0000 to register 10, then to register 11 |
| LcdDriver.Lcd.PrintInt | code.py:157-163 | appends a full clear, then the digit writes of `str(n)` |
| LcdDriver.Lcd.PrintDigits | code.py:160-163 | the loop over `reversed(s)`: appends, for idx = 0, 1, ..., the pattern of character idx from the right into register idx |
| LcdDriver.Lcd.PrintDigit | code.py:161-162 | one pass of that loop, the write `DigitWritesAt` describes |
| LcdDriver.Lcd.PrintChar | code.py:166-172 | appends one `lcd_writemode(idx, p)`, where p is 0 for a space, else entry ord(c) - ord('*') up to '9', else entry ord(c) - ord('A') + 16 |
| LcdDriver.Lcd.PrintText | code.py:175-179 | appends, for the characters from last to first, `lcd_printchar` into registers 10 - len(s), 10 - len(s) + 1, ... |
| Encoder.MultiplierBands | code.py:189-196 | the multiplier is 1 exactly for at most 8 edges, 50 for 9-10, 100 for 11-14, and 500 beyond |
| Encoder.MultiplierMonotone | code.py:189-196 | more edges never give a smaller multiplier |
| Encoder.NextValue | code.py:197-202 | the new value is never negative; it is the old value plus diff × mult × speedrange, or 0 when that sum is negative |
| Encoder.NextValueDirection | code.py:185-202 | with a positive range: turning up raises the value, no turn keeps it, turning down never raises it and strictly lowers a positive value |
| Encoder.NextValueStep | code.py:197-202 | the value moves by exactly the full step unless the step would take it below 0, and then by less |
| Encoder.SlowTurnsAddUp | code.py:182-202 | slow forward turns add up: split into any readings of at most 8 edges that never go back, the value moves by exactly (end - start) × speedrange |
| Encoder.NextRange | code.py:208-215 | the next range is always one of 1, 1000, 1000000 |
| Encoder.RangeCycle | code.py:208-215 | each press moves to a different range, and three presses come back to the start |
| Encoder.RangeRecovers | code.py:208-215 | a press resets to 1 exactly when the range is neither 1 nor 1000, so an out-of-range value recovers |
| Encoder.UnitShown | code.py:208-217 | after a press, register 9 shows the letter of the new range (K, M, or H); Hz also puts 'Z' in register 8; registers 0-7 and 11 are untouched, and register 10 loses its top nibble |
| Encoder.UnitGlyphs | code.py:41-85 | the unit letters' patterns: K 0x3214, M 0x6232, H 0x322A, Z 0x8991 |
| Encoder.Controller.constructor | code.py:20-27 | start-up values: enc_last_pos 0, rotval 100000, speedrange 1, no edges counted |
| Encoder.Controller.CountEdge | code.py:22 | the edge counter counts one more edge; nothing else changes, so `Valid` (rotval ≥ 0, range one of the three) is kept |
| Encoder.Controller.UpdateRotval | code.py:182-202 | rotval becomes `NextValue` of the old value, the position change, the edge count and the range; enc_last_pos becomes curr_pos; the counter is reset; the range is unchanged; rotval ≥ 0 |
| Encoder.Controller.UpdateSpeedrange | code.py:205-217 | the range becomes `NextRange` of the old one, and the display receives exactly the `lcd_printchar` writes for K, M or Z-then-H; `Valid` is kept |

## Left out

- GPIO setup, the board LED heartbeat, `time.sleep`, and `main()` with its
  forever loop (code.py:14-35, 87, 223 onwards). These are hardware
  configuration and scheduling, with no logic of their own.
- Encoder.Controller.UpdateSpeedrange: the wait for the button's release
  (code.py:218-221) is left out. It is a busy-wait on an input pin, with
  sleeps.
- The `rotaryio.IncrementalEncoder` position is a parameter of
  `UpdateRotval`. The `countio.Counter` becomes the `edgeCount` field, with
  `CountEdge` and the reset. Their hardware behaviour is foreign code.
- LcdDriver.Lcd.PrintChar: the IndexError that Python raises for
  characters from '\' upwards (lower-case letters included) is excluded by
  a precondition. `Glyphs.GlyphDefined` states exactly when it is raised.
- LcdDriver.Lcd.PrintText: for the same reason, it requires every
  character of s to have a glyph. The partial output before an IndexError
  is not modelled.
- Encoder.Controller.UpdateSpeedrange: its frame is `this`speedrange` and
  the display, which says the other fields stay as they were without
  listing them.
- The helper methods `SubWrite`, `PrintDigits` and `PrintDigit` are the
  bodies of loops in `lcd_writemode` and `lcd_printint`. They are not
  separate functions in the source.
- Display.PrintTextShown and Display.PrintIntDigits are stated for text
  that fits the ten character positions. The driver methods themselves
  accept any length, as the code does, and their traces are proved for
  every length.
- Pin levels are modelled as events in order. The timing of the wr pulses
  is not modelled.
