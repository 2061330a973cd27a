/** The three output lines of the DM8BA10 LCD module and the bit-serial
    primitive that drives them (code.py:95-101).

    The lines are observed as a trace: every assignment `lcd_x.value = b`
    of the source becomes one `Set(x, b)` event. */
module Wire {

  datatype Line = Data | Wr | Csn

  datatype Event = Set(line: Line, level: bool)

  function Pow2(n: nat): (p: nat)
    ensures p >= 1
  {
    if n == 0 then 1 else 2 * Pow2(n - 1)
  }

  /** Bit i of v, as Python's `bool(v & (1 << i))`: Python's `&` works on
      the infinite two's-complement form, and `v / 2` (Euclidean, so floor
      for a positive divisor) is Python's `v >> 1`, so this is exact for
      negative v too. */
  function Bit(v: int, i: nat): bool
    decreases i
  {
    if i == 0 then v % 2 == 1 else Bit(v / 2, i - 1)
  }

  /** The bits `lcd_sendbits(v, n)` puts on the data line, in the order it
      puts them there: positions n-1 down to 0. */
  function MsbBits(v: int, n: nat): (bs: seq<bool>)
    ensures |bs| == n
    decreases n
  {
    if n == 0 then [] else MsbBits(v / 2, n - 1) + [v % 2 == 1]
  }

  /** The number an MSB-first bit string stands for. */
  function BitsValue(bs: seq<bool>): (r: nat)
    ensures r < Pow2(|bs|)
  {
    if bs == [] then 0
    else 2 * BitsValue(bs[..|bs| - 1]) + (if bs[|bs| - 1] then 1 else 0)
  }

  /** One bit on the wire: data set to the bit, then a wr pulse. */
  function Pulse(b: bool): seq<Event>
  {
    [Set(Data, b), Set(Wr, true), Set(Wr, false)]
  }

  function Pulses(bs: seq<bool>): (t: seq<Event>)
    ensures |t| == 3 * |bs|
  {
    if bs == [] then [] else Pulses(bs[..|bs| - 1]) + Pulse(bs[|bs| - 1])
  }

  /** The whole trace of `lcd_sendbits(v, n)`: n pulses, data left low. */
  function BitsTrace(v: int, n: nat): seq<Event>
  {
    Pulses(MsbBits(v, n)) + [Set(Data, false)]
  }

  /** The traces of consecutive calls, one after another. */
  function Concat<T>(ts: seq<seq<T>>): seq<T>
  {
    if ts == [] then [] else Concat(ts[..|ts| - 1]) + ts[|ts| - 1]
  }

  lemma {:induction false} ConcatAppend<T>(a: seq<seq<T>>, b: seq<seq<T>>)
    ensures Concat(a + b) == Concat(a) + Concat(b)
    decreases |b|
  {
    if b == [] {
      assert a + b == a;
    } else {
      var ab := a + b;
      assert ab[..|ab| - 1] == a + b[..|b| - 1];
      ConcatAppend(a, b[..|b| - 1]);
    }
  }

  /** One more trace on the end of a prefix. */
  lemma ConcatStep<T>(ts: seq<seq<T>>, k: nat)
    requires k < |ts|
    ensures Concat(ts[..k + 1]) == Concat(ts[..k]) + ts[k]
  {
    assert ts[..k + 1][..k] == ts[..k];
  }

  /** The invariant of a loop that appends ts[0], ts[1], ... to a trace
      that started as t0. */
  lemma ConcatLoopStep<T>(t0: seq<T>, ts: seq<seq<T>>, k: nat)
    requires k < |ts|
    ensures t0 + Concat(ts[..k]) + ts[k] == t0 + Concat(ts[..k + 1])
  {
    ConcatStep(ts, k);
    AppendAssoc(t0, Concat(ts[..k]), ts[k]);
  }

  /** Appending traces one at a time is appending their sum: stated for
      the shapes the driver's methods produce, so that their proofs need
      no element-wise reasoning about long traces. */
  lemma AppendAssoc<T>(t: seq<T>, a: seq<T>, b: seq<T>)
    ensures t + a + b == t + (a + b)
  {
  }

  lemma AppendThree<T>(t: seq<T>, a: seq<T>, b: seq<T>, c: seq<T>)
    ensures t + a + b + c == t + (a + b + c)
  {
  }

  lemma AppendFour<T>(t: seq<T>, a: seq<T>, b: seq<T>, c: seq<T>, d: seq<T>)
    ensures t + a + b + c + d == t + (a + b + c + d)
  {
  }

  lemma AppendFive<T>(t: seq<T>, a: seq<T>, b: seq<T>, c: seq<T>, d: seq<T>, e: seq<T>)
    ensures t + a + b + c + d + e == t + (a + b + c + d + e)
  {
  }

  lemma ConcatOne<T>(t: seq<T>)
    ensures Concat([t]) == t
  {
    assert [t][..0] == [];
  }

  // ---------------------------------------------------------------------
  // Arithmetic helpers

  lemma ModUnique(v: int, m: int, a: int, c: int)
    requires m > 0 && v == m * a + c && 0 <= c < m
    ensures v % m == c && v / m == a
  {
    var q, r := v / m, v % m;
    assert v == m * q + r;
    if q > a {
      assert m * (q - a) >= m by { MulAtLeast(m, q - a); }
      assert false;
    } else if q < a {
      assert m * (a - q) >= m by { MulAtLeast(m, a - q); }
      assert false;
    }
  }

  lemma MulAtLeast(m: int, k: int)
    requires m > 0 && k >= 1
    ensures m * k >= m
  {
    assert m * k == m * (k - 1) + m;
  }

  /** Taking the low n+1 bits is taking the low n bits of v >> 1 and
      appending v's lowest bit. */
  lemma ModHalf(v: int, p: nat)
    requires p >= 1
    ensures v % (2 * p) == 2 * ((v / 2) % p) + v % 2
  {
    var q, r := v / 2, v % 2;
    var a, b := q / p, q % p;
    assert v == 2 * p * a + (2 * b + r);
    ModUnique(v, 2 * p, a, 2 * b + r);
  }

  // ---------------------------------------------------------------------
  // Properties of the bit primitive

  /** Position k of what is sent is bit n-1-k of the value: MSB first. */
  lemma {:induction false} MsbBitsAt(v: int, n: nat, k: nat)
    requires k < n
    ensures MsbBits(v, n)[k] == Bit(v, n - 1 - k)
    decreases n
  {
    if k < n - 1 {
      MsbBitsAt(v / 2, n - 1, k);
    }
  }

  /** Reading the sent bits back as a number gives v modulo 2^n: exactly
      the low n bits, and v itself when it fits in n bits. */
  lemma {:induction false} MsbBitsValue(v: int, n: nat)
    ensures BitsValue(MsbBits(v, n)) == v % Pow2(n)
    ensures 0 <= v < Pow2(n) ==> BitsValue(MsbBits(v, n)) == v
    decreases n
  {
    if n > 0 {
      var front := MsbBits(v / 2, n - 1);
      assert (front + [v % 2 == 1])[..n - 1] == front;
      MsbBitsValue(v / 2, n - 1);
      ModHalf(v, Pow2(n - 1));
    }
    if 0 <= v < Pow2(n) {
      ModUnique(v, Pow2(n), 0, v);
    }
  }

  /** Two values with the same low n bits put the same bits on the wire. */
  lemma {:induction false} MsbBitsLow(v: int, w: int, n: nat)
    requires v % Pow2(n) == w % Pow2(n)
    ensures MsbBits(v, n) == MsbBits(w, n)
    decreases n
  {
    if n > 0 {
      ModHalf(v, Pow2(n - 1));
      ModHalf(w, Pow2(n - 1));
      assert (v / 2) % Pow2(n - 1) == (w / 2) % Pow2(n - 1);
      MsbBitsLow(v / 2, w / 2, n - 1);
    }
  }

  /** The events of a run of pulses, position by position. */
  lemma {:induction false} PulsesAt(bs: seq<bool>, k: nat)
    requires k < |bs|
    ensures Pulses(bs)[3 * k] == Set(Data, bs[k])
    ensures Pulses(bs)[3 * k + 1] == Set(Wr, true)
    ensures Pulses(bs)[3 * k + 2] == Set(Wr, false)
  {
    var front := bs[..|bs| - 1];
    if k < |bs| - 1 {
      PulsesAt(front, k);
    }
  }

  /** One more pulse on the end of a prefix. */
  lemma PulsesStep(bs: seq<bool>, k: nat)
    requires k < |bs|
    ensures Pulses(bs[..k + 1]) == Pulses(bs[..k]) + Pulse(bs[k])
  {
    assert bs[..k + 1][..k] == bs[..k];
  }

  lemma {:induction false} PulsesNoCsn(bs: seq<bool>)
    ensures forall e :: e in Pulses(bs) ==> e.line != Csn
  {
    if bs != [] {
      PulsesNoCsn(bs[..|bs| - 1]);
    }
  }

  /** `lcd_sendbits(v, n)`: exactly n wr pulses (wr high then low); during
      pulse k the data line holds bit n-1-k of v; the last event leaves the
      data line low; csn is never touched. */
  lemma BitsTraceShape(v: int, n: nat)
    ensures |BitsTrace(v, n)| == 3 * n + 1
    ensures forall k :: 0 <= k < n ==>
      BitsTrace(v, n)[3 * k] == Set(Data, Bit(v, n - 1 - k)) &&
      BitsTrace(v, n)[3 * k + 1] == Set(Wr, true) &&
      BitsTrace(v, n)[3 * k + 2] == Set(Wr, false)
    ensures BitsTrace(v, n)[3 * n] == Set(Data, false)
    ensures forall e :: e in BitsTrace(v, n) ==> e.line != Csn
  {
    var bs := MsbBits(v, n);
    forall k | 0 <= k < n
      ensures BitsTrace(v, n)[3 * k] == Set(Data, Bit(v, n - 1 - k))
      ensures BitsTrace(v, n)[3 * k + 1] == Set(Wr, true)
      ensures BitsTrace(v, n)[3 * k + 2] == Set(Wr, false)
    {
      PulsesAt(bs, k);
      MsbBitsAt(v, n, k);
    }
    PulsesNoCsn(bs);
  }
}
