/** The audio engine's side of the hardware: codec register writes over I2C,
    and the polled capture and playback loops over the synchronous serial
    controller, both driving the LED progress bar while they run. */
module Comms {
  import opened Arith
  import opened LedEncoding
  import opened LedWire
  import opened LedFunctions
  import opened AudioFraming
  import opened Progress

  /** One call of the I2C driver: device address, internal address and its
      length, and the bytes written. */
  datatype I2cWrite = I2cWrite(device: int, address: int, addressLength: int, message: seq<Byte>)

  /** The I2C driver, recording every data-list write in order. */
  class I2cBus {
    var writes: seq<I2cWrite>

    constructor ()
      ensures writes == []
    {
      writes := [];
    }

    method WriteI2cDataList(device: int, address: int, addressLength: int, message: seq<Byte>)
      modifies this
      ensures writes == old(writes) + [I2cWrite(device, address, addressLength, message)]
    {
      writes := writes + [I2cWrite(device, address, addressLength, message)];
    }
  }

  /** Write value to codec register reg: one two-byte message to the codec's
      device address, with no internal address. */
  method WriteAudioDacReg(bus: I2cBus, reg: Byte, value: UShort)
    modifies bus
    ensures bus.writes == old(bus.writes) + [I2cWrite(AUDIO_DAC_ADDR, 0, 0, DacMessage(reg, value))]
  {
    var message := DacMessage(reg, value);
    bus.WriteI2cDataList(AUDIO_DAC_ADDR, 0, 0, message);
  }

  /** The serial controller's two data registers: rx is every word the
      receiver will deliver, in order; tx is every word written for transmission. */
  class Ssc {
    var rx: seq<int>
    var tx: seq<int>

    constructor (input: seq<int>)
      ensures rx == input && tx == []
    {
      rx := input;
      tx := [];
    }

    /** Read the receive holding register once the receiver is ready. */
    method ReadRhr() returns (w: int)
      requires |rx| > 0
      modifies this
      ensures w == old(rx[0])
      ensures rx == old(rx[1..]) && tx == old(tx)
    {
      w := rx[0];
      rx := rx[1..];
    }

    /** Write the transmit holding register. */
    method WriteThr(w: int)
      modifies this
      ensures tx == old(tx) + [w]
      ensures rx == old(rx)
    {
      tx := tx + [w];
    }
  }

  /** Record len samples: read two words per sample, keep the first as a 16-bit
      sample, and advance the progress bar every len / 8 samples. */
  method ReceiveSoundSamples(ssc: Ssc, port: LedPort, data: array<Short>, len: Short)
    requires len <= data.Length
    requires len <= 0 || len >= 8
    requires 2 * len <= |ssc.rx|
    modifies ssc, port, data
    ensures data[..Max(len, 0)] == CapturedSamples(old(ssc.rx), Max(len, 0))
    ensures data[Max(len, 0)..] == old(data[Max(len, 0)..])
    ensures ssc.rx == old(ssc.rx[2 * Max(len, 0)..]) && ssc.tx == old(ssc.tx)
    ensures port.trace == old(port.trace) + PushTrace(ALL_OFF) + CaptureProgress(len)
  {
    var leds := new int[SLOTS](_ => OFF);
    assert leds[..] == Lit(0);
    assert leds[..SLOTS] == ALL_OFF by { LitZero(); }
    port.SetAllLeds(leds);
    var tempBuffer := new Short[2];
    ghost var n := Max(len, 0);
    ghost var d := if len >= 8 then len / 8 else 1;
    ghost var rx0, data0, start := ssc.rx, data[..], port.trace;
    ghost var captured := CapturedSamples(rx0, n);
    forall k | 0 <= k < n
      ensures captured[k] == ToShort(rx0[2 * k])
    {
      CapturedAt(rx0, n, k);
    }
    assert Stored(ssc, data, 0, rx0, captured, data0);
    CaptureLoop(ssc, port, leds, tempBuffer, data, len, d, rx0, captured, data0, start);
    assert data[..] == captured + data0[n..] by {
      assert captured[..n] == captured;
    }
    assert ProgressTrace(n, d) == CaptureProgress(len);
  }

  /** The sample loop of a capture: rx0, data0 and start are the receiver's
      words, the buffer and the pin trace when it begins, and captured holds
      the narrowed first word of each frame pair. */
  method CaptureLoop(ssc: Ssc, port: LedPort, leds: array<int>, tempBuffer: array<Short>,
                     data: array<Short>, len: Short, ghost d: nat,
                     ghost rx0: seq<int>, ghost captured: seq<Short>, ghost data0: seq<Short>,
                     ghost start: seq<PinEvent>)
    requires len <= data.Length && 2 * len <= |rx0| && |captured| == Max(len, 0)
    requires d == if len >= 8 then len / 8 else 1
    requires len <= 0 || len >= 8
    requires leds.Length == SLOTS && tempBuffer.Length == 2 && tempBuffer != data
    requires forall k :: 0 <= k < |captured| ==> captured[k] == ToShort(rx0[2 * k])
    requires Stored(ssc, data, 0, rx0, captured, data0) && BarShows(port, leds, 0, d, start)
    modifies ssc, port, leds, tempBuffer, data
    ensures Stored(ssc, data, Max(len, 0), rx0, captured, data0) && ssc.tx == old(ssc.tx)
    ensures BarShows(port, leds, Max(len, 0), d, start)
  {
    var i := 0;
    while i < len
      invariant 0 <= i <= Max(len, 0)
      invariant Stored(ssc, data, i, rx0, captured, data0) && ssc.tx == old(ssc.tx)
      invariant BarShows(port, leds, i, d, start)
    {
      CaptureSample(ssc, tempBuffer, data, i, rx0, captured, data0);
      AdvanceBar(port, leds, i, d, i % (len / 8) == 0, start);
      i := i + 1;
    }
  }

  /** After i samples of a capture: the receiver has delivered 2 * i words and
      the buffer holds the first i captured samples, the rest untouched. */
  ghost predicate Stored(ssc: Ssc, data: array<Short>, i: nat, rx0: seq<int>, captured: seq<Short>, data0: seq<Short>)
    reads ssc, data
  {
    2 * i <= |rx0| && i <= |captured| && i <= |data0| &&
    ssc.rx == rx0[2 * i..] && data[..] == captured[..i] + data0[i..]
  }

  /** After i iterations of a loop driving the bar every d iterations. */
  ghost predicate BarShows(port: LedPort, leds: array<int>, i: nat, d: nat, start: seq<PinEvent>)
    requires d > 0
    reads port, leds
  {
    leds[..] == Lit(Min(Fired(i, d), SLOTS)) && port.trace == start + ProgressTrace(i, d)
  }

  /** The head of one capture iteration: read a frame pair and store its
      first word, narrowed to 16 bits, as sample i. */
  method CaptureSample(ssc: Ssc, tempBuffer: array<Short>, data: array<Short>, i: nat,
                       ghost rx0: seq<int>, ghost captured: seq<Short>, ghost data0: seq<Short>)
    requires tempBuffer.Length == 2 && tempBuffer != data
    requires i < data.Length && i < |captured| && 2 * i + 2 <= |rx0|
    requires Stored(ssc, data, i, rx0, captured, data0)
    requires captured[i] == ToShort(rx0[2 * i])
    modifies ssc, tempBuffer, data
    ensures Stored(ssc, data, i + 1, rx0, captured, data0)
    ensures ssc.tx == old(ssc.tx)
  {
    DropStep(rx0, 2 * i);
    ReceiveFrame(ssc, tempBuffer);
    data[i] := tempBuffer[0];
    PrefixUpdate(captured, data0, i);
  }

  /** Writing element i of a into a buffer that holds a's first i elements
      extends that prefix by one. */
  lemma PrefixUpdate<T>(a: seq<T>, b: seq<T>, i: nat)
    requires i < |a| && i < |b|
    ensures (a[..i] + b[i..])[i := a[i]] == a[..i + 1] + b[i + 1..]
  {
  }

  /** The inner loop of a capture: read both words of one frame pair into the
      temporary buffer, each narrowed to 16 bits. */
  method ReceiveFrame(ssc: Ssc, tempBuffer: array<Short>)
    requires tempBuffer.Length == 2 && |ssc.rx| >= 2
    modifies ssc, tempBuffer
    ensures tempBuffer[0] == ToShort(old(ssc.rx[0])) && tempBuffer[1] == ToShort(old(ssc.rx[1]))
    ensures ssc.rx == old(ssc.rx[2..]) && ssc.tx == old(ssc.tx)
  {
    for j := 0 to 2
      invariant ssc.rx == old(ssc.rx[j..]) && ssc.tx == old(ssc.tx)
      invariant forall k :: 0 <= k < j ==> tempBuffer[k] == ToShort(old(ssc.rx[k]))
    {
      var w := ssc.ReadRhr();
      tempBuffer[j] := ToShort(w);
    }
  }

  /** Play len samples in mono: 2 * len frames, the odd ones zero; with echo
      the second half of the frames also carries the attenuated sample len / 2
      earlier. The progress bar advances every 2 * len / 8 frames. */
  method TransmitSoundSamples(ssc: Ssc, port: LedPort, data: array<Short>, len: Short, echo: bool)
    requires len <= data.Length
    requires len <= 0 || len >= 4
    modifies ssc, port
    ensures ssc.tx == old(ssc.tx) + PlaybackStream(data[..], len, echo)
    ensures ssc.rx == old(ssc.rx)
    ensures port.trace == old(port.trace) + PushTrace(ALL_OFF) + PlaybackProgress(len)
  {
    var leds := new int[SLOTS](_ => OFF);
    assert leds[..] == Lit(0);
    assert leds[..SLOTS] == ALL_OFF by { LitZero(); }
    port.SetAllLeds(leds);
    ghost var d := if len >= 4 then 2 * len / 8 else 1;
    ghost var stream := PlaybackStream(data[..], len, echo);
    ghost var start := port.trace;
    var i := 0;
    while i < 2 * len
      invariant 0 <= i <= 2 * Max(len, 0)
      invariant ssc.tx == old(ssc.tx) + stream[..i] && ssc.rx == old(ssc.rx)
      invariant BarShows(port, leds, i, d, start)
    {
      TransmitFrame(ssc, data, len, echo, i);
      PlaybackStreamAt(data[..], len, echo, i);
      PrefixStep(old(ssc.tx), stream, i);
      AdvanceBar(port, leds, i, d, i % (2 * len / 8) == 0, start);
      i := i + 1;
    }
    assert stream[..i] == stream;
    assert ProgressTrace(i, d) == PlaybackProgress(len);
  }

  /** The head of one playback iteration: frame i goes to the transmit register. */
  method TransmitFrame(ssc: Ssc, data: array<Short>, len: Short, echo: bool, i: nat)
    requires len <= data.Length && i < 2 * len
    modifies ssc
    ensures ssc.tx == old(ssc.tx) + [Frame(data[..], len, echo, i)]
    ensures ssc.rx == old(ssc.rx)
  {
    if i % 2 == 1 {
      ssc.WriteThr(0);
    } else if echo {
      if i < len {
        ssc.WriteThr(data[i / 2]);
      } else {
        ssc.WriteThr(data[i / 2] + Atten(data[i / 2 - len / 2]));
      }
    } else {
      ssc.WriteThr(data[i / 2]);
    }
  }

  lemma DropStep(s: seq<int>, k: nat)
    requires k + 2 <= |s|
    ensures s[k..][0] == s[k] && s[k..][2..] == s[k + 2..]
  {
  }

  lemma PrefixStep(a: seq<int>, s: seq<int>, i: nat)
    requires i < |s|
    ensures a + s[..i] + [s[i]] == a + s[..i + 1]
  {
    assert s[..i + 1] == s[..i] + [s[i]];
  }

  /** The tail of one loop iteration: when it fires, light the next LED and
      push the whole vector. */
  method AdvanceBar(port: LedPort, leds: array<int>, i: nat, ghost d: nat, fire: bool, ghost start: seq<PinEvent>)
    requires leds.Length == SLOTS && d > 0 && fire == (i % d == 0)
    requires BarShows(port, leds, i, d, start)
    modifies port, leds
    ensures BarShows(port, leds, i + 1, d, start)
  {
    ProgressStep(start, i, d);
    if fire {
      ghost var k := Min(Fired(i, d), SLOTS);
      assert leds[..SLOTS] == Lit(k);
      SetNextLoToHi(leds);
      assert leds[..SLOTS] == Lit(Min(Fired(i + 1, d), SLOTS)) by {
        AdvanceLit(k);
      }
      assert leds[..] == leds[..SLOTS];
      port.SetAllLeds(leds);
    }
  }
}
