/** The controller chip's side of the 3-wire interface, used as an
    independent reading of the traces the driver emits: while csn is low,
    the data line is sampled on each rising edge of wr; csn going high ends
    the frame, which is then decoded (prefix 1000: command, prefix 101:
    write a nibble to RAM). */
module Receiver {
  import opened Wire
  import opened Frames
  import opened Options
  import opened Ram

  datatype Op = Command(code: nat) | Write(address: nat, nibble: nat)

  /** The receiver's view of the lines: csn asserted, the last wr and data
      levels, the bits of the frame in progress, the frames completed. */
  datatype Rx = Rx(selected: bool, wr: bool, data: bool, bits: seq<bool>, frames: seq<seq<bool>>)

  /** Idle lines between frames: csn high, wr low, data low. */
  predicate Quiet(rx: Rx)
  {
    !rx.selected && !rx.wr && !rx.data && rx.bits == []
  }

  function ParseFrame(f: seq<bool>): (op: Option<Op>)
    ensures op.Some? && op.value.Command? ==> op.value.code < 256
    ensures op.Some? && op.value.Write? ==> op.value.address < 64 && op.value.nibble < 16
  {
    Pow2Table();
    assert Pow2(6) == 64;
    if |f| == 12 && f[0] && !f[1] && !f[2] && !f[3] then
      Some(Command(BitsValue(f[4..])))
    else if |f| == 13 && f[0] && !f[1] && f[2] then
      Some(Write(BitsValue(f[3..9]), BitsValue(f[9..])))
    else None
  }

  function Execute(ram: seq<int>, f: seq<bool>): seq<int>
  {
    match ParseFrame(f)
    case Some(Write(a, n)) => if a < |ram| then ram[a := n] else ram
    case _ => ram
  }

  /** The RAM after executing the frames fs in order. */
  function ExecuteAll(ram: seq<int>, fs: seq<seq<bool>>): (m: seq<int>)
    ensures |m| == |ram|
  {
    if fs == [] then ram else Execute(ExecuteAll(ram, fs[..|fs| - 1]), fs[|fs| - 1])
  }

  function Step(rx: Rx, e: Event): Rx
  {
    match e.line
    case Csn =>
      if !e.level then rx.(selected := true, bits := [])
      else if rx.selected then
        rx.(selected := false, bits := [], frames := rx.frames + [rx.bits])
      else rx
    case Data => rx.(data := e.level)
    case Wr =>
      if e.level && !rx.wr && rx.selected then rx.(wr := true, bits := rx.bits + [rx.data])
      else rx.(wr := e.level)
  }

  function Run(rx: Rx, t: seq<Event>): Rx
  {
    if t == [] then rx else Step(Run(rx, t[..|t| - 1]), t[|t| - 1])
  }

  /** The frames a command and a sub-write put on the wire. */
  function CommandFrame(cmd: int): seq<bool>
  {
    MsbBits(0x08, 4) + MsbBits(cmd, 8)
  }

  function SubWriteFrame(address: int, nibble: int): seq<bool>
  {
    MsbBits(0x05, 3) + MsbBits(address, 6) + MsbBits(nibble, 4)
  }

  // ---------------------------------------------------------------------
  // Running the receiver over the driver's traces

  lemma {:induction false} RunAppend(rx: Rx, a: seq<Event>, b: seq<Event>)
    ensures Run(rx, a + b) == Run(Run(rx, a), b)
    decreases |b|
  {
    if b == [] {
      assert a + b == a;
    } else {
      var ab := a + b;
      assert ab[..|ab| - 1] == a + b[..|b| - 1];
      assert ab[|ab| - 1] == b[|b| - 1];
      RunAppend(rx, a, b[..|b| - 1]);
    }
  }

  lemma RunOne(rx: Rx, e: Event)
    ensures Run(rx, [e]) == Step(rx, e)
  {
    assert [e][..0] == [];
  }

  /** One pulse appends the data bit to the frame being received. */
  lemma RunPulse(rx: Rx, b: bool)
    requires rx.selected && !rx.wr
    ensures Run(rx, Pulse(b)) == rx.(bits := rx.bits + [b], data := b)
  {
    var p := Pulse(b);
    assert p[..2][..1] == [Set(Data, b)];
    assert p[..2] == [Set(Data, b), Set(Wr, true)];
    RunOne(rx, Set(Data, b));
  }

  lemma {:induction false} RunPulses(rx: Rx, bs: seq<bool>)
    requires rx.selected && !rx.wr
    ensures Run(rx, Pulses(bs)) ==
      rx.(bits := rx.bits + bs, data := if bs == [] then rx.data else bs[|bs| - 1])
    decreases |bs|
  {
    if bs != [] {
      var front := bs[..|bs| - 1];
      RunAppend(rx, Pulses(front), Pulse(bs[|bs| - 1]));
      RunPulses(rx, front);
      RunPulse(Run(rx, Pulses(front)), bs[|bs| - 1]);
      assert front + [bs[|bs| - 1]] == bs;
    }
  }

  /** `lcd_sendbits(v, n)` inside a frame appends the n bits MSB-first and
      leaves the data line low. */
  lemma RunBits(rx: Rx, v: int, n: nat)
    requires rx.selected && !rx.wr
    ensures Run(rx, BitsTrace(v, n)) == rx.(bits := rx.bits + MsbBits(v, n), data := false)
  {
    RunAppend(rx, Pulses(MsbBits(v, n)), [Set(Data, false)]);
    RunPulses(rx, MsbBits(v, n));
    RunOne(Run(rx, Pulses(MsbBits(v, n))), Set(Data, false));
  }

  lemma MsbPrefixes()
    ensures MsbBits(0x08, 4) == [true, false, false, false]
    ensures MsbBits(0x05, 3) == [true, false, true]
  {
    assert MsbBits(1, 1) == [true];
    assert MsbBits(2, 2) == [true, false];
    assert MsbBits(4, 3) == [true, false, false];
  }

  /** Trace t, run from any idle state, delivers exactly the frames fs and
      leaves the lines idle again. */
  ghost predicate Emits(t: seq<Event>, fs: seq<seq<bool>>)
  {
    forall r {:trigger Run(r, t)} :: Quiet(r) ==> Run(r, t) == r.(frames := r.frames + fs)
  }

  lemma {:induction false} ExecuteAllAppend(ram: seq<int>, f: seq<seq<bool>>, g: seq<seq<bool>>)
    ensures ExecuteAll(ram, f + g) == ExecuteAll(ExecuteAll(ram, f), g)
    decreases |g|
  {
    if g == [] {
      assert f + g == f;
    } else {
      var fg := f + g;
      assert fg[..|fg| - 1] == f + g[..|g| - 1];
      assert fg[|fg| - 1] == g[|g| - 1];
      ExecuteAllAppend(ram, f, g[..|g| - 1]);
    }
  }

  lemma EmitsAppend(t: seq<Event>, u: seq<Event>, f: seq<seq<bool>>, g: seq<seq<bool>>)
    requires Emits(t, f) && Emits(u, g)
    ensures Emits(t + u, f + g)
  {
    forall r | Quiet(r)
      ensures Run(r, t + u) == r.(frames := r.frames + (f + g))
    {
      RunAppend(r, t, u);
      var r1 := r.(frames := r.frames + f);
      assert Run(r, t) == r1;
      assert r1.frames + g == r.frames + (f + g);
    }
  }

  /** Consecutive traces deliver their frames one after another. */
  lemma {:induction false} EmitsConcat(ts: seq<seq<Event>>, fss: seq<seq<seq<bool>>>)
    requires |ts| == |fss|
    requires forall i :: 0 <= i < |ts| ==> Emits(ts[i], fss[i])
    ensures Emits(Concat(ts), Concat(fss))
    decreases |ts|
  {
    if ts == [] {
      forall r | Quiet(r)
        ensures Run(r, []) == r.(frames := r.frames + [])
      {
        assert r.frames + [] == r.frames;
      }
    } else {
      var n := |ts|;
      EmitsConcat(ts[..n - 1], fss[..n - 1]);
      EmitsAppend(Concat(ts[..n - 1]), ts[n - 1], Concat(fss[..n - 1]), fss[n - 1]);
    }
  }

  /** `lcd_sendcmd(cmd)` is received as exactly one frame, which decodes to
      the command cmd (its low 8 bits); the RAM is untouched. */
  lemma CommandReceived(cmd: int)
    ensures Emits(CommandTrace(cmd), [CommandFrame(cmd)])
    ensures ParseFrame(CommandFrame(cmd)) == Some(Command(cmd % 256))
  {
    CommandEmits(cmd);
    CommandParse(cmd);
  }

  lemma CommandParse(cmd: int)
    ensures ParseFrame(CommandFrame(cmd)) == Some(Command(cmd % 256))
  {
    var f := CommandFrame(cmd);
    MsbPrefixes();
    assert f[..4] == [true, false, false, false];
    assert f[0] && !f[1] && !f[2] && !f[3];
    assert f[4..] == MsbBits(cmd, 8);
    MsbBitsValue(cmd, 8);
    Pow2Table();
  }

  lemma CommandEmits(cmd: int)
    ensures Emits(CommandTrace(cmd), [CommandFrame(cmd)])
  {
    var f := CommandFrame(cmd);
    forall rx | Quiet(rx)
      ensures Run(rx, CommandTrace(cmd)) == rx.(frames := rx.frames + [f])
    {
      var t1 := [Set(Csn, false)] + BitsTrace(0x08, 4);
      var t2 := t1 + BitsTrace(cmd, 8);
      var r0 := rx.(selected := true, bits := []);
      var r1 := r0.(bits := MsbBits(0x08, 4), data := false);
      var r2 := r1.(bits := f);
      assert Run(rx, t1) == r1 by {
        RunOne(rx, Set(Csn, false));
        RunAppend(rx, [Set(Csn, false)], BitsTrace(0x08, 4));
        RunBits(r0, 0x08, 4);
      }
      assert Run(rx, t2) == r2 by {
        RunAppend(rx, t1, BitsTrace(cmd, 8));
        RunBits(r1, cmd, 8);
      }
      RunAppend(rx, t2, [Set(Csn, true)]);
      RunOne(r2, Set(Csn, true));
    }
  }

  /** A sub-write frame decodes to "write the low 4 bits of nibble at the
      low 6 bits of address". */
  lemma SubWriteFrameParse(address: int, nibble: int)
    ensures ParseFrame(SubWriteFrame(address, nibble)) == Some(Write(address % 64, nibble % 16))
  {
    var f := SubWriteFrame(address, nibble);
    MsbPrefixes();
    assert f[..3] == [true, false, true];
    assert f[0] && !f[1] && f[2];
    assert f[3..9] == MsbBits(address, 6);
    assert f[9..] == MsbBits(nibble, 4);
    MsbBitsValue(address, 6);
    MsbBitsValue(nibble, 4);
    assert Pow2(6) == 64;
    Pow2Table();
  }

  /** One sub-write is received as exactly one frame, which stores the
      nibble at the (6-bit) address. */
  lemma SubWriteReceived(address: int, nibble: int)
    ensures Emits(SubWriteTrace(address, nibble), [SubWriteFrame(address, nibble)])
  {
    var f := SubWriteFrame(address, nibble);
    forall rx | Quiet(rx)
      ensures Run(rx, SubWriteTrace(address, nibble)) == rx.(frames := rx.frames + [f])
    {
      var t1 := [Set(Csn, false)] + BitsTrace(0x05, 3);
      var t2 := t1 + BitsTrace(address, 6);
      var t3 := t2 + BitsTrace(nibble, 4);
      var r0 := rx.(selected := true, bits := []);
      var r1 := r0.(bits := MsbBits(0x05, 3), data := false);
      var r2 := r1.(bits := MsbBits(0x05, 3) + MsbBits(address, 6));
      var r3 := r2.(bits := f);
      assert Run(rx, t1) == r1 by {
        RunOne(rx, Set(Csn, false));
        RunAppend(rx, [Set(Csn, false)], BitsTrace(0x05, 3));
        RunBits(r0, 0x05, 3);
      }
      assert Run(rx, t2) == r2 by {
        RunAppend(rx, t1, BitsTrace(address, 6));
        RunBits(r1, address, 6);
      }
      assert Run(rx, t3) == r3 by {
        RunAppend(rx, t2, BitsTrace(nibble, 4));
        RunBits(r2, nibble, 4);
      }
      assert SubWriteTrace(address, nibble) == t3 + [Set(Csn, true)];
      RunAppend(rx, t3, [Set(Csn, true)]);
      RunOne(r3, Set(Csn, true));
    }
  }

  /** The five frames of `lcd_writemode(addr, data)`. */
  function WriteFrames(addr: int, data: int): (fs: seq<seq<bool>>)
    ensures |fs| == 5
  {
    seq(5, i requires 0 <= i < 5 => SubWriteFrame(addr * 4 + i, Nibble(data, i)))
  }

  function WritesFrames(ws: seq<RegWrite>): seq<seq<bool>>
  {
    Concat(seq(|ws|, i requires 0 <= i < |ws| => WriteFrames(ws[i].reg, ws[i].pattern)))
  }

  /** `lcd_writemode(addr, data)` is received as exactly five frames. */
  lemma WriteReceived(addr: int, data: int)
    ensures Emits(WriteTrace(addr, data), WriteFrames(addr, data))
  {
    var ts := SubWriteTraces(addr, data);
    var fs := WriteFrames(addr, data);
    var fss := Singletons(fs);
    forall i | 0 <= i < 5
      ensures Emits(ts[i], fss[i])
    {
      SubWriteEmitsAt(addr, data, i);
    }
    EmitsConcat(ts, fss);
    ConcatSingletons(fs);
  }

  /** Sub-write i of `lcd_writemode(addr, data)` is received as frame i. */
  lemma SubWriteEmitsAt(addr: int, data: int, i: nat)
    requires i < 5
    ensures Emits(SubWriteTraces(addr, data)[i], [WriteFrames(addr, data)[i]])
  {
    SubWriteReceived(addr * 4 + i, Nibble(data, i));
  }

  function Singletons<T>(s: seq<T>): (c: seq<seq<T>>)
    ensures |c| == |s|
  {
    seq(|s|, i requires 0 <= i < |s| => [s[i]])
  }

  lemma {:induction false} ConcatSingletons<T>(s: seq<T>)
    ensures Concat(Singletons(s)) == s
    decreases |s|
  {
    if s != [] {
      var n := |s|;
      assert Singletons(s)[..n - 1] == Singletons(s[..n - 1]);
      ConcatSingletons(s[..n - 1]);
      assert s[..n - 1] + [s[n - 1]] == s;
    }
  }

  /** Any sequence of `lcd_writemode` calls is received as five frames per
      call, in order. */
  lemma WritesReceived(ws: seq<RegWrite>)
    ensures Emits(WritesTrace(ws), WritesFrames(ws))
  {
    var ts := seq(|ws|, i requires 0 <= i < |ws| => WriteTrace(ws[i].reg, ws[i].pattern));
    var fss := seq(|ws|, i requires 0 <= i < |ws| => WriteFrames(ws[i].reg, ws[i].pattern));
    forall i | 0 <= i < |ws|
      ensures Emits(ts[i], fss[i])
    {
      WriteReceived(ws[i].reg, ws[i].pattern);
    }
    EmitsConcat(ts, fss);
  }

  /** Executing the five frames of a register write is exactly the RAM
      update ApplyWrite describes. */
  lemma WriteFramesExecute(ram: seq<int>, w: RegWrite)
    requires |ram| == 64
    ensures ExecuteAll(ram, WriteFrames(w.reg, w.pattern)) == ApplyWrite(ram, w)
  {
    var fs := WriteFrames(w.reg, w.pattern);
    forall k | 0 <= k <= 5
      ensures ExecuteAll(ram, fs[..k]) == SubWritesRam(ram, w.reg, w.pattern, k)
    {
      ExecutePrefix(ram, w, k);
    }
    assert fs[..5] == fs;
  }

  lemma ExecuteWriteFrame(ram: seq<int>, w: RegWrite, i: nat)
    requires |ram| == 64 && i < 5
    ensures Execute(ram, WriteFrames(w.reg, w.pattern)[i]) ==
      ram[(4 * w.reg + i) % 64 := Nibble(w.pattern, i) % 16]
  {
    var a, n := w.reg * 4 + i, Nibble(w.pattern, i);
    WriteFramesAt(w.reg, w.pattern, i, a, n);
    ExecuteSubWrite(ram, a, n, (4 * w.reg + i) % 64);
  }

  lemma WriteFramesAt(addr: int, data: int, i: nat, address: int, nibble: int)
    requires i < 5 && address == addr * 4 + i && nibble == Nibble(data, i)
    ensures WriteFrames(addr, data)[i] == SubWriteFrame(address, nibble)
  {
  }

  lemma ExecuteSubWrite(ram: seq<int>, address: int, nibble: int, cell: int)
    requires |ram| == 64 && cell == address % 64
    ensures Execute(ram, SubWriteFrame(address, nibble)) == ram[cell := nibble % 16]
  {
    SubWriteFrameParse(address, nibble);
  }

  lemma ExecuteAllLast(ram: seq<int>, fs: seq<seq<bool>>, k: nat)
    requires 0 < k <= |fs|
    ensures ExecuteAll(ram, fs[..k]) == Execute(ExecuteAll(ram, fs[..k - 1]), fs[k - 1])
  {
    assert fs[..k][..k - 1] == fs[..k - 1];
  }

  lemma {:induction false} ExecutePrefix(ram: seq<int>, w: RegWrite, k: nat)
    requires |ram| == 64 && k <= 5
    ensures ExecuteAll(ram, WriteFrames(w.reg, w.pattern)[..k]) == SubWritesRam(ram, w.reg, w.pattern, k)
  {
    if k > 0 {
      var fs := WriteFrames(w.reg, w.pattern);
      ExecuteAllLast(ram, fs, k);
      ExecutePrefix(ram, w, k - 1);
      ExecuteWriteFrame(ExecuteAll(ram, fs[..k - 1]), w, k - 1);
    }
  }

  lemma {:induction false} WritesFramesExecute(ram: seq<int>, ws: seq<RegWrite>)
    requires |ram| == 64
    ensures ExecuteAll(ram, WritesFrames(ws)) == ApplyWrites(ram, ws)
    decreases |ws|
  {
    if ws != [] {
      var n := |ws|;
      var fss := seq(n, i requires 0 <= i < n => WriteFrames(ws[i].reg, ws[i].pattern));
      var front := ws[..n - 1];
      assert fss[..n - 1] ==
        seq(n - 1, i requires 0 <= i < n - 1 => WriteFrames(front[i].reg, front[i].pattern));
      assert WritesFrames(ws) == WritesFrames(front) + WriteFrames(ws[n - 1].reg, ws[n - 1].pattern);
      ExecuteAllAppend(ram, WritesFrames(front), WriteFrames(ws[n - 1].reg, ws[n - 1].pattern));
      WritesFramesExecute(ram, front);
      WriteFramesExecute(ApplyWrites(ram, front), ws[n - 1]);
    }
  }

  /** Wire to RAM: whatever `lcd_writemode` calls the driver makes, a
      controller listening on the lines ends idle, having received five
      frames per call, and executing them leaves its RAM as ApplyWrites
      describes. */
  lemma WireToRam(rx: Rx, ram: seq<int>, ws: seq<RegWrite>)
    requires Quiet(rx) && |ram| == 64
    ensures var r := Run(rx, WritesTrace(ws));
      Quiet(r) && r.frames == rx.frames + WritesFrames(ws)
    ensures ExecuteAll(ram, WritesFrames(ws)) == ApplyWrites(ram, ws)
  {
    WritesReceived(ws);
    WritesFramesExecute(ram, ws);
  }

  /** Command frames leave the RAM as it is. */
  lemma CommandsKeepRam(ram: seq<int>, f0: seq<bool>, f1: seq<bool>, f2: seq<bool>)
    requires ParseFrame(f0).Some? && ParseFrame(f0).value.Command?
    requires ParseFrame(f1).Some? && ParseFrame(f1).value.Command?
    requires ParseFrame(f2).Some? && ParseFrame(f2).value.Command?
    ensures ExecuteAll(ram, [f0, f1, f2]) == ram
  {
    var fs := [f0, f1, f2];
    assert fs[..2] == [f0, f1] && fs[..2][..1] == [f0] && fs[..2][..1][..0] == [];
    assert ExecuteAll(ram, [f0]) == ram;
    assert ExecuteAll(ram, [f0, f1]) == ram;
  }

  /** Three traces, each delivering one frame, deliver the three frames. */
  lemma EmitsThree(t0: seq<Event>, t1: seq<Event>, t2: seq<Event>, f0: seq<bool>, f1: seq<bool>, f2: seq<bool>)
    requires Emits(t0, [f0]) && Emits(t1, [f1]) && Emits(t2, [f2])
    ensures Emits(t0 + t1 + t2, [f0, f1, f2])
  {
    EmitsAppend(t0, t1, [f0], [f1]);
    EmitsAppend(t0 + t1, t2, [f0, f1], [f2]);
    assert [f0] + [f1] == [f0, f1] && [f0, f1] + [f2] == [f0, f1, f2];
  }

  /** Three commands in a row are received as their three frames. */
  lemma CommandsEmit(a: int, b: int, c: int)
    ensures Emits(CommandTrace(a) + CommandTrace(b) + CommandTrace(c),
                  [CommandFrame(a), CommandFrame(b), CommandFrame(c)])
  {
    CommandEmits(a);
    CommandEmits(b);
    CommandEmits(c);
    EmitsThree(CommandTrace(a), CommandTrace(b), CommandTrace(c), CommandFrame(a), CommandFrame(b), CommandFrame(c));
  }

  /** Command frames leave the RAM as it was. */
  lemma CommandsDecode(ram: seq<int>, a: int, b: int, c: int)
    ensures ExecuteAll(ram, [CommandFrame(a), CommandFrame(b), CommandFrame(c)]) == ram
  {
    CommandParse(a);
    CommandParse(b);
    CommandParse(c);
    CommandsKeepRam(ram, CommandFrame(a), CommandFrame(b), CommandFrame(c));
  }

  /** Three commands sent from idle lines are received as three frames,
      decoding to the three commands, which leave the RAM as it was. */
  lemma CommandsReceived(rx: Rx, ram: seq<int>, t: seq<Event>, a: int, b: int, c: int)
    requires Quiet(rx) && t == CommandTrace(a) + CommandTrace(b) + CommandTrace(c)
    requires 0 <= a < 256 && 0 <= b < 256 && 0 <= c < 256
    ensures var r := Run(rx, t);
      Quiet(r) && |r.frames| == |rx.frames| + 3 &&
      ParseFrame(r.frames[|rx.frames|]) == Some(Command(a)) &&
      ParseFrame(r.frames[|rx.frames| + 1]) == Some(Command(b)) &&
      ParseFrame(r.frames[|rx.frames| + 2]) == Some(Command(c)) &&
      ExecuteAll(ram, r.frames[|rx.frames|..]) == ram
  {
    CommandsEmit(a, b, c);
    CommandsDecode(ram, a, b, c);
    CommandParse(a);
    CommandParse(b);
    CommandParse(c);
    var r := Run(rx, t);
    var n := |rx.frames|;
    assert r.frames[n..] == [CommandFrame(a), CommandFrame(b), CommandFrame(c)];
    assert r.frames[n] == CommandFrame(a) && r.frames[n + 1] == CommandFrame(b) && r.frames[n + 2] == CommandFrame(c);
    ModUnique(a, 256, 0, a);
    ModUnique(b, 256, 0, b);
    ModUnique(c, 256, 0, c);
  }

  /** `lcd_init` is received as the three commands SYS_EN, RC_32K, LCD_ON,
      which leave the RAM as it was. */
  lemma InitReceived(rx: Rx, ram: seq<int>)
    requires Quiet(rx)
    ensures var r := Run(rx, InitTrace());
      Quiet(r) && |r.frames| == |rx.frames| + 3 &&
      ParseFrame(r.frames[|rx.frames|]) == Some(Command(SysEn)) &&
      ParseFrame(r.frames[|rx.frames| + 1]) == Some(Command(Rc32k)) &&
      ParseFrame(r.frames[|rx.frames| + 2]) == Some(Command(LcdOn)) &&
      ExecuteAll(ram, r.frames[|rx.frames|..]) == ram
  {
    CommandsReceived(rx, ram, InitTrace(), SysEn, Rc32k, LcdOn);
  }

  /** `io_init` (csn high, wr low, data low) brings the lines to the idle
      state from any state outside a frame. */
  lemma IoInitQuiet(rx: Rx)
    requires !rx.selected
    ensures Run(rx, IoInitTrace()) == rx.(wr := false, data := false)
  {
    var t := IoInitTrace();
    assert t[..2][..1] == [Set(Csn, true)];
    assert t[..2] == [Set(Csn, true), Set(Wr, false)];
    RunOne(rx, Set(Csn, true));
  }
}
