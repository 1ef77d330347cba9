/** The data transformations of the audio engine, as functions: the two-byte
    codec control word, the narrowing of a received word to a sample, the 0.8
    attenuation, the two-slots-per-sample framing, and the echo mix. */
module AudioFraming {
  import opened Arith

  type Byte = x: int | 0 <= x < 0x100
  type UShort = x: int | 0 <= x < 0x10000
  type Short = x: int | -0x8000 <= x < 0x8000

  /** I2C device address of the audio codec. */
  const AUDIO_DAC_ADDR: int := 0x1A

  /** The codec control word as two bytes: the register address in the top 7 bits,
      bit 8 of the value in the low bit of the first byte, the value's low byte second. */
  function DacMessage(reg: Byte, value: UShort): (m: seq<Byte>)
    ensures |m| == 2
    ensures m[0] / 2 == reg % 0x80
    ensures m[0] % 2 == (value / 0x100) % 2
    ensures m[1] == value % 0x100
  {
    // reg << 1 is even, so OR-ing in one bit is adding it; the byte keeps the low 8 bits.
    var b := (value / 0x100) % 2;
    var m0 := (reg * 2 + b) % 0x100;
    DivModUnique(reg * 2 + b, 0x100, reg / 0x80, 2 * (reg % 0x80) + b);
    DivModUnique(m0, 2, reg % 0x80, b);
    [m0, value % 0x100]
  }

  /** How the codec reads the 16-bit control word: 7 bits of register, 9 bits of value. */
  function DacDecode(m: seq<Byte>): (int, int)
    requires |m| == 2
  {
    var w: int := m[0] as int * 0x100 + m[1] as int;
    (w / 0x200, w % 0x200)
  }

  lemma NineBits(value: int)
    requires value >= 0
    ensures value % 0x200 == ((value / 0x100) % 2) * 0x100 + value % 0x100
  {
    var q := value / 0x200;
    var r := value % 0x200;
    DivModUnique(value, 0x100, 2 * q + r / 0x100, r % 0x100);
    DivModUnique(2 * q + r / 0x100, 2, q, r / 0x100);
  }

  /** The codec receives the low 7 bits of the register and the low 9 bits of the value. */
  lemma DacRoundTrip(reg: Byte, value: UShort)
    ensures DacDecode(DacMessage(reg, value)) == (reg % 0x80, value % 0x200)
  {
    var m := DacMessage(reg, value);
    var b := (value / 0x100) % 2;
    assert m[0] == 2 * (reg % 0x80) + b;
    var w: int := m[0] as int * 0x100 + m[1] as int;
    NineBits(value);
    assert w == (reg % 0x80) * 0x200 + (b * 0x100 + value % 0x100);
    DivModUnique(w, 0x200, reg % 0x80, b * 0x100 + value % 0x100);
  }

  /** For a register address below 128 and a 9-bit value the framing loses nothing. */
  lemma DacExact(reg: Byte, value: UShort)
    requires reg < 0x80 && value < 0x200
    ensures DacDecode(DacMessage(reg, value)) == (reg, value)
  {
    DacRoundTrip(reg, value);
  }

  /** A received register word stored into a signed 16-bit sample:
      the one value in range that agrees with the word in its low 16 bits. */
  function ToShort(w: int): (r: Short)
    ensures (r - w) % 0x10000 == 0
    ensures -0x8000 <= w < 0x8000 ==> r == w
  {
    var r := (w + 0x8000) % 0x10000 - 0x8000;
    DivModUnique(w + 0x8000, 0x10000, (w + 0x8000) / 0x10000, (w + 0x8000) % 0x10000);
    DivModUnique(r - w, 0x10000, -((w + 0x8000) / 0x10000), 0);
    r
  }

  /** The attenuated echo sample: 4x/5 truncated toward zero, as the cast of
      0.8 * x to a 16-bit integer truncates. */
  function Atten(x: int): (r: int)
    ensures x >= 0 ==> 4 * x - 5 < 5 * r <= 4 * x
    ensures x < 0 ==> 4 * x <= 5 * r < 4 * x + 5
    ensures -0x8000 <= x < 0x8000 ==> -0x8000 <= r < 0x8000
  {
    if x >= 0 then (4 * x) / 5 else -((-4 * x) / 5)
  }

  /** Capture framing: of every two received words keep the first. */
  function Deinterleave(w: seq<int>): (m: seq<int>)
    ensures |m| == |w| / 2
    decreases |w|
  {
    if |w| < 2 then [] else [w[0]] + Deinterleave(w[2..])
  }

  /** Playback framing: every sample followed by a zero word for the unused slot. */
  function Interleave(m: seq<int>): (w: seq<int>)
    ensures |w| == 2 * |m|
  {
    if m == [] then [] else [m[0], 0] + Interleave(m[1..])
  }

  lemma {:induction false} DeinterleaveAt(w: seq<int>, i: nat)
    requires i < |w| / 2
    ensures Deinterleave(w)[i] == w[2 * i]
    decreases |w|
  {
    if i > 0 {
      DeinterleaveAt(w[2..], i - 1);
    }
  }

  lemma {:induction false} InterleaveAt(m: seq<int>, i: nat)
    requires i < 2 * |m|
    ensures Interleave(m)[i] == if i % 2 == 1 then 0 else m[i / 2]
  {
    if i >= 2 {
      InterleaveAt(m[1..], i - 2);
      assert (i - 2) % 2 == i % 2 && (i - 2) / 2 == i / 2 - 1;
    }
  }

  /** Capturing a played-back stream gives back the samples. */
  lemma {:induction false} DeinterleaveInterleave(m: seq<int>)
    ensures Deinterleave(Interleave(m)) == m
  {
    if m != [] {
      var w := Interleave(m);
      assert w[2..] == Interleave(m[1..]);
      DeinterleaveInterleave(m[1..]);
    }
  }

  function Narrow(w: seq<int>): (r: seq<Short>)
    ensures |r| == |w|
  {
    seq(|w|, i requires 0 <= i < |w| => ToShort(w[i]))
  }

  /** The samples a capture of n samples stores, from the words it receives. */
  function CapturedSamples(rx: seq<int>, n: nat): (r: seq<Short>)
    requires 2 * n <= |rx|
    ensures |r| == n
  {
    Narrow(Deinterleave(rx[..2 * n]))
  }

  lemma CapturedAt(rx: seq<int>, n: nat, i: nat)
    requires 2 * n <= |rx| && i < n
    ensures CapturedSamples(rx, n)[i] == ToShort(rx[2 * i])
  {
    DeinterleaveAt(rx[..2 * n], i);
  }

  /** A buffer holding the narrowed first word of every pair is the captured sequence. */
  lemma CapturedPointwise(rx: seq<int>, n: nat, s: seq<int>)
    requires 2 * n <= |rx| && |s| == n
    requires forall k :: 0 <= k < n ==> s[k] == ToShort(rx[2 * k])
    ensures s == CapturedSamples(rx, n)
  {
    forall k | 0 <= k < n
      ensures s[k] == CapturedSamples(rx, n)[k]
    {
      CapturedAt(rx, n, k);
    }
  }

  /** The first (len + 1) / 2 samples play dry: they are the even frames below len. */
  function DryLength(len: nat): nat { (len + 1) / 2 }

  /** The sample the echo of sample s comes from, len / 2 samples earlier. */
  function EchoSource(s: int, len: int): (k: int)
    requires 0 <= len && DryLength(len) <= s < len
    ensures 0 <= k < len
    ensures k + len / 2 == s
  {
    s - len / 2
  }

  /** The mono stream with echo: the dry part, then each sample plus the
      attenuated sample len / 2 earlier. */
  function EchoMix(d: seq<int>, len: nat): (m: seq<int>)
    requires len <= |d|
    ensures |m| == len
  {
    seq(len, s requires 0 <= s < len =>
      if s < DryLength(len) then d[s] else d[s] + Atten(d[EchoSource(s, len)]))
  }

  /** Every word a playback of len samples hands to the transmitter, in order. */
  function PlaybackStream(d: seq<int>, len: int, echo: bool): (w: seq<int>)
    requires len <= |d|
    ensures |w| == 2 * Max(len, 0)
  {
    if len <= 0 then [] else Interleave(if echo then EchoMix(d, len) else d[..len])
  }

  /** The word the transmit loop writes at frame i, branch by branch as the
      loop computes it: the specification of Comms.TransmitFrame.
      PlaybackStreamAt proves it is frame i of PlaybackStream. */
  function Frame(d: seq<int>, len: int, echo: bool, i: nat): int
    requires i < 2 * len <= 2 * |d|
  {
    if i % 2 == 1 then 0
    else if echo && i >= len then d[i / 2] + Atten(d[i / 2 - len / 2])
    else d[i / 2]
  }

  /** Frame i of the playback stream: zero on odd frames; on even frames the
      sample i / 2, with the attenuated sample i / 2 - len / 2 added when echo
      is on and i >= len, that index lying in [0, len). */
  lemma PlaybackStreamAt(d: seq<int>, len: int, echo: bool, i: nat)
    requires len <= |d| && i < 2 * len
    ensures i % 2 == 0 && echo && i >= len ==> 0 <= i / 2 - len / 2 < len
    ensures PlaybackStream(d, len, echo)[i] == Frame(d, len, echo, i)
  {
    var m := if echo then EchoMix(d, len) else d[..len];
    InterleaveAt(m, i);
    if i % 2 == 0 {
      assert i / 2 < DryLength(len) <==> i < len;
    }
  }

  /** Capturing what a playback without echo transmits gives the buffer back. */
  lemma CapturePlayback(d: seq<int>, len: int)
    requires 0 <= len <= |d|
    requires forall i :: 0 <= i < len ==> -0x8000 <= d[i] < 0x8000
    ensures CapturedSamples(PlaybackStream(d, len, false), len) == d[..len]
  {
    var w := PlaybackStream(d, len, false);
    if len > 0 {
      DeinterleaveInterleave(d[..len]);
      assert w[..2 * len] == w;
    }
  }

  /** The example of an eight-sample buffer played with echo. */
  lemma EchoExample()
    ensures var w := PlaybackStream([100, -100, 200, -200, 300, -300, 400, -400], 8, true);
      [w[0], w[2], w[4], w[6], w[8], w[10], w[12], w[14]] == [100, -100, 200, -200, 380, -380, 560, -560]
  {
    var d := [100, -100, 200, -200, 300, -300, 400, -400];
    forall i | 0 <= i < 16
      ensures PlaybackStream(d, 8, true)[i] == Frame(d, 8, true, i)
    {
      PlaybackStreamAt(d, 8, true, i);
    }
  }

  /** No saturation: two loud samples mix to a word outside the 16-bit range,
      and its low 16 bits read as a negative sample. */
  lemma EchoOverflowWraps()
    ensures var w := PlaybackStream([0x7FFF, 0x7FFF], 2, true);
      w[2] == 0x7FFF + 0x6665 && !(-0x8000 <= w[2] < 0x8000) && ToShort(w[2]) == -0x199C
  {
    PlaybackStreamAt([0x7FFF, 0x7FFF], 2, true, 2);
  }
}
