/** The LED driver: the port whose pin writes are recorded as a trace, the
    encoder loop that packs a colour vector, the bit-banged shift-out, and the
    two in-place vector helpers the audio engine uses as a progress bar. */
module LedFunctions {
  import opened Arith
  import opened LedEncoding
  import opened LedWire

  /** The encoder loop: slots 7 down to 0, each step adding the clamped colour and
      shifting the 16-bit accumulator two places left. */
  method PackVector(v: array<int>) returns (config: nat)
    requires v.Length >= SLOTS
    ensures config == Pack(v[..SLOTS])
    ensures config < 0x10000
  {
    ghost var s := v[..SLOTS];
    var shifted: nat := 0;
    config := 0;
    var i := 7;
    while i >= 0
      invariant -1 <= i <= 7
      invariant config == Pack(s[i + 1..])
      invariant shifted == (config * 4) % 0x10000
    {
      ghost var upper := config;
      if 0 <= v[i] < 4 {
        config := (shifted + v[i]) % 0x10000;
      } else {
        config := (shifted + OFF) % 0x10000;
      }
      assert config == Pack(s[i..]) by {
        assert config == ((upper * 4) % 0x10000 + Clamp(s[i])) % 0x10000;
        PackStep(s, i);
      }
      shifted := (config * 4) % 0x10000;
      i := i - 1;
    }
    assert i == -1;
    assert s[i + 1..] == s;
    PackFits(s);
  }

  /** One step of the encoder loop: shifting the packed upper slots two places
      inside 16 bits and adding slot i's clamped colour packs slots i and up. */
  lemma PackStep(s: seq<int>, i: nat)
    requires |s| == SLOTS && i < SLOTS
    ensures ((Pack(s[i + 1..]) * 4) % 0x10000 + Clamp(s[i])) % 0x10000 == Pack(s[i..])
  {
    var rest := Pack(s[i + 1..]);
    PackBound(s[i + 1..]);
    Pow4Monotone(7 - i, 7);
    Pow4Values();
    DivModUnique(rest * 4, 0x10000, 0, rest * 4);
    DivModUnique(rest * 4 + Clamp(s[i]), 0x10000, 0, rest * 4 + Clamp(s[i]));
    assert s[i..][1..] == s[i + 1..];
    PackHorner(s[i..]);
  }

  /** Every slot of v[..8] becomes OFF; nothing else is touched. */
  method ResetLedVector(v: array<int>)
    requires v.Length >= SLOTS
    modifies v
    ensures v[..SLOTS] == ALL_OFF
    ensures v[SLOTS..] == old(v[SLOTS..])
  {
    for i := 0 to SLOTS
      invariant forall j :: 0 <= j < i ==> v[j] == OFF
      invariant forall j :: i <= j < v.Length ==> v[j] == old(v[j])
    {
      v[i] := OFF;
    }
  }

  /** The lowest OFF slot of v[..8] becomes RED (1); if there is none, nothing changes. */
  method SetNextLoToHi(v: array<int>)
    requires v.Length >= SLOTS
    modifies v
    ensures v[..SLOTS] == Advance(old(v[..SLOTS]))
    ensures v[SLOTS..] == old(v[SLOTS..])
  {
    var i := 0;
    while i < SLOTS
      invariant 0 <= i <= SLOTS
      invariant v[..] == old(v[..])
      invariant forall j :: 0 <= j < i ==> v[j] != OFF
    {
      if v[i] == OFF {
        v[i] := RED;
        break;
      }
      i := i + 1;
    }
  }

  /** The two output lines of the display, with every write to them recorded in order. */
  class LedPort {
    var trace: seq<PinEvent>

    constructor ()
      ensures trace == []
    {
      trace := [];
    }

    /** The pin-direction setup, recorded as a single marker. */
    method SetupLedOutputs()
      modifies this
      ensures trace == old(trace) + [ConfigurePins]
    {
      trace := trace + [ConfigurePins];
    }

    /** Clear the receiver with 16 pulses at data high, then clock out the word
        most significant bit first. */
    method ShiftOut(config: nat)
      requires config < 0x10000
      modifies this
      ensures trace == old(trace) + ShiftOutTrace(config)
    {
      ClearReceiver();
      ClockOutBits(config);
    }

    /** Clock idle, data high, then 16 clock pulses with the data line untouched. */
    method ClearReceiver()
      modifies this
      ensures trace == old(trace) + Preamble() + ClearPulses(16)
    {
      trace := trace + [Drive(Clock, Low)];
      trace := trace + [Drive(Data, High)];
      for i := 0 to 16
        invariant trace == old(trace) + Preamble() + ClearPulses(i)
      {
        trace := trace + [Drive(Clock, High)];
        trace := trace + [Drive(Clock, Low)];
        assert trace == old(trace) + Preamble() + ClearPulses(i + 1) by {
          ClearPulsesSnoc(i);
        }
      }
    }

    /** Sixteen times: drive the data line from bit 15 (low when set), pulse the
        clock, and shift the word left by one inside 16 bits. */
    method ClockOutBits(config: nat)
      requires config < 0x10000
      modifies this
      ensures trace == old(trace) + DataFrames(config, 16)
    {
      var shifted := config;
      for k := 0 to 16
        invariant shifted == (config * Pow2(k)) % 0x10000
        invariant trace == old(trace) + DataFrames(config, k)
      {
        assert ((shifted / 0x8000) % 2 == 1) == Bit(config, 15 - k) by {
          ShiftedTopBit(config, k);
        }
        if (shifted / 0x8000) % 2 == 1 {
          trace := trace + [Drive(Data, Low)];
        } else {
          trace := trace + [Drive(Data, High)];
        }
        trace := trace + [Drive(Clock, High)];
        trace := trace + [Drive(Clock, Low)];
        assert trace == old(trace) + DataFrames(config, k + 1) by {
          DataFramesSnoc(config, k);
        }
        assert (shifted * 2) % 0x10000 == (config * Pow2(k + 1)) % 0x10000 by {
          DoubleMod(config * Pow2(k), 0x10000);
          assert Pow2(k + 1) == 2 * Pow2(k);
          MulDouble(config, Pow2(k));
        }
        shifted := (shifted * 2) % 0x10000;
      }
    }

    /** Show the whole colour vector v[..8]. */
    method SetAllLeds(v: array<int>)
      requires v.Length >= SLOTS
      modifies this
      ensures trace == old(trace) + PushTrace(v[..SLOTS])
    {
      SetupLedOutputs();
      var config := PackVector(v);
      ShiftOut(config);
    }

    /** Light one LED in one colour and every other LED off; an LED number or
        colour out of range turns every LED off. */
    method SetLedColour(led: int, colour: int)
      modifies this
      ensures trace == old(trace) + [ConfigurePins] + ShiftOutTrace(OneHotConfig(led, colour))
      ensures trace == old(trace) + PushTrace(OneHotVector(led, colour))
    {
      SetupLedOutputs();
      var config: nat;
      if IsColour(colour) && IsLed(led) {
        config := colour;
        config := (config * Pow4(led)) % 0x10000;
      } else {
        config := 0;
      }
      ShiftOut(config);
      OneHotIsPack(led, colour);
    }
  }
}
