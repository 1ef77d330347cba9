# Sound recorder: LED driver and audio engine, modelled in Dafny

This project models the two core files of a small sound-recording firmware
for an AT91SAM7S256 board with an audio codec. It also proves properties of
that model.

- **LEDFunctions.c** drives an eight-LED display over two output lines, clock
  and data. A colour vector (OFF = 0, RED = 1, GREEN = 2, ORANGE = 3 per LED)
  is packed into a 16-bit word, two bits per LED. That word is then
  bit-banged out, most significant bit first, after 16 clear-out pulses. Two
  helpers work in place on the vector: one resets it, the other lights the
  next LED. The audio loops use the second one as a progress bar. Each loop
  starts from a freshly zeroed vector instead of calling the reset, which
  nothing in the firmware calls.
- **comms.c** has three core operations:
  - It writes codec registers over I2C as a two-byte control word: 7 bits of
    register, 9 bits of value.
  - It records `len` samples by polling the serial controller's receive
    register. It reads two words per sample and keeps the first one.
  - It plays `len` samples back in mono as `2 * len` frames, with every odd
    frame zero. Optionally it adds an echo: the second half of the frames
    also carries the sample `len / 2` earlier, scaled by 0.8.
  - Both loops light one more LED every `len / 8` samples (capture) or every
    `2 * len / 8` frames (playback). That is exactly eight times when 8
    divides `len` (or `2 * len`), and more often otherwise; once all
    eight LEDs are lit, further steps change nothing.

How the model is built:

- **Pin writes as a trace.** Every write to the LED pins is recorded in order
  in a trace of `PinEvent`s, kept in the `LedPort` class. A separate value
  model of the receiving shift register (`ShiftRegister`, `Run`, `Held`)
  reads the trace back. That gives the end-to-end properties:
  - one push of a vector makes the display show that vector (`PushShows`);
  - by the end of a recording of at least 8 samples, or a playback of at
    least 4 samples, all eight LEDs are red (`CaptureEndsLit`,
    `PlaybackEndsLit`). For a non-positive `len` only the all-off push
    happens.
- **The serial controller** is a class with two sequences:
  - `rx` holds the words the receiver will deliver;
  - `tx` holds the words written for transmission.
- **The I2C driver** is a class that records each data-list write.

Modules:

- `Arith`: powers of two and four, and the uniqueness of division.
- `LedEncoding`: colours, `Pack`/`Decode`, the one-hot word, and the
  progress step.
- `LedWire`: the pin trace and the receiver model.
- `LedFunctions`: the driver's methods.
- `AudioFraming`: the codec word, sample narrowing, attenuation, framing, and
  the echo mix.
- `Progress`: the progress-bar cadence.
- `Comms`: the audio engine's methods.

The colour constants follow the enumeration in LEDFunctions.h:27, where
RED = 1 and GREEN = 2. The comment above it (LEDFunctions.h:21-26) swaps the
two, and the code is what is modelled.

## Model

| member | source | states |
|---|---|---|
| LedEncoding.PackHorner | LEDFunctions.c:106-127 | packing from slot 7 down (shift left by 2, add the slot) gives the sum over slots of colour << 2i |
| LedEncoding.PackBound | LEDFunctions.c:106-127 | n slots fit in 2n bits |
| LedEncoding.PackFits | LEDFunctions.c:106-127 | eight slots fit in the 16-bit word, so the unsigned-short arithmetic loses nothing |
| LedEncoding.SlotOfPack | LEDFunctions.c:106-127 | field j of the packed word is the clamped colour of LED j |
| LedEncoding.DecodePack | LEDFunctions.c:106-127 | decoding the packed word gives back the clamped vector |
| LedEncoding.PackOfSlots | LEDFunctions.c:106-127 | packing the fields of any word below 4^n gives the word back |
| LedEncoding.PackDecode | LEDFunctions.c:106-127 | every 16-bit word is the packing of the vector it shows, so encoding is onto |
| LedEncoding.PackInjective | LEDFunctions.c:106-127 | two vectors of valid colours with the same word are equal |
| LedEncoding.PackClamped | LEDFunctions.c:111-125 | packing only sees clamped colours |
| LedEncoding.PackIgnoresOutOfRange | LEDFunctions.c:119-126 | an out-of-range colour packs exactly like OFF |
| LedEncoding.PackUpdateOtherSlots | LEDFunctions.c:106-127 | changing one LED's colour changes only that LED's field |
| LedEncoding.OneHotConfig | LEDFunctions.c:46-53 | the single-LED word has the colour in field led and zero elsewhere when both are in range, and is all zero otherwise; it fits in 16 bits |
| LedEncoding.OneHotSlots | LEDFunctions.c:49-50 | colour << 2*led stays below 2^16 and occupies only field led |
| LedEncoding.OneHotIsPack | LEDFunctions.c:34-92 | the single-LED word is the packing of the vector that is OFF everywhere except led, so a single-LED request overwrites the whole display |
| LedEncoding.FirstOff | LEDFunctions.c:175-185 | the index of the lowest OFF slot: every slot below it is lit, and it is OFF unless it equals the length |
| LedEncoding.Advance | LEDFunctions.c:175-185 | the lowest OFF slot becomes RED and every other slot keeps its colour; a vector with no OFF slot is unchanged |
| LedEncoding.AdvanceLit | LEDFunctions.c:175-185 | advancing a vector with its first k LEDs red lights the first k + 1, up to eight |
| LedEncoding.AdvanceFromOff | LEDFunctions.c:175-185 | from all OFF, k advances light exactly the first min(k, 8) LEDs, as a gap-free prefix |
| LedEncoding.AdvanceSaturates | LEDFunctions.c:175-185 | once all eight LEDs are lit, advancing changes nothing |
| LedWire.ClearPulsesSnoc | LEDFunctions.c:136-140 | the clear-out pulses are emitted one pulse per loop iteration |
| LedWire.DataFramesSnoc | LEDFunctions.c:143-164 | the data bits are emitted one frame per loop iteration |
| LedWire.ShiftOutLayout | LEDFunctions.c:133-164 | one shift-out is exactly 82 pin writes: clock low, data high, 16 pulses, then per bit k a data write (low iff bit 15 - k is set) and a pulse |
| LedWire.RunPulse | LEDFunctions.c:159-160 | a clock pulse shifts the data line, active low, into the receiver |
| LedWire.RunClearPulses | LEDFunctions.c:136-140 | clear-out pulses with data high clock zeros into the receiver |
| LedWire.RunBitFrame | LEDFunctions.c:149-160 | one data frame shifts bit 15 - k of the word into the receiver |
| LedWire.RunDataFrames | LEDFunctions.c:143-164 | after n data frames the receiver has shifted in the top n bits of the word |
| LedWire.RunClearOut | LEDFunctions.c:133-140 | the preamble and the clear-out leave sixteen zero bits at the bottom of the receiver |
| LedWire.ShiftOutDelivers | LEDFunctions.c:133-164 | whatever the receiver held before, one shift-out of c leaves it holding c |
| LedWire.PushShows | LEDFunctions.c:94-165 | after setting all LEDs to v the display shows v, with every unknown colour OFF |
| Arith.ShiftedTopBit | LEDFunctions.c:149-163 | testing bit 15 of the word shifted left k times inside 16 bits reads bit 15 - k of the original |
| LedFunctions.PackVector | LEDFunctions.c:106-127 | the encoder loop computes Pack of the first eight slots, a 16-bit value |
| LedFunctions.PackStep | LEDFunctions.c:116-125 | one encoder step (shift by 2 within 16 bits, add the clamped colour) extends the packed suffix by one slot |
| LedFunctions.ResetLedVector | LEDFunctions.c:168-172 | slots 0..7 become OFF and nothing else changes |
| LedFunctions.SetNextLoToHi | LEDFunctions.c:175-185 | slots 0..7 become Advance of their old value and nothing else changes |
| LedFunctions.LedPort.SetupLedOutputs | LEDFunctions.c:19-29 | appends one pin-setup marker to the trace |
| LedFunctions.LedPort.ClearReceiver | LEDFunctions.c:133-140 | appends clock low, data high and 16 clock pulses |
| LedFunctions.LedPort.ClockOutBits | LEDFunctions.c:143-164 | appends the 16 data frames of the word, most significant bit first |
| LedFunctions.LedPort.ShiftOut | LEDFunctions.c:133-164 | appends exactly the shift-out trace of the word |
| LedFunctions.LedPort.SetAllLeds | LEDFunctions.c:94-165 | appends the pin setup and the shift-out of Pack(v[..8]) |
| LedFunctions.LedPort.SetLedColour | LEDFunctions.c:34-92 | appends the pin setup and the shift-out of the one-hot word, which is the push of the one-hot vector |
| AudioFraming.DacMessage | comms.c:25-26 | two bytes: the first holds the low 7 bits of reg above bit 8 of value, the second the low byte of value |
| AudioFraming.DacRoundTrip | comms.c:14-26 | the codec reading the word as 7 + 9 bits receives reg mod 128 and value mod 512 |
| AudioFraming.DacExact | comms.c:14-26 | for reg below 128 and a 9-bit value the codec receives exactly (reg, value) |
| AudioFraming.ToShort | comms.c:109 | a received word stored in a short is the one value in the 16-bit range congruent to it mod 2^16, and is the word itself when it is in range |
| AudioFraming.Atten | comms.c:132-152 | the attenuated sample is 0.8 x truncated toward zero, and stays in the 16-bit range |
| AudioFraming.Deinterleave | comms.c:104-112 | keeping the first word of each pair halves the length |
| AudioFraming.Interleave | comms.c:138-141 | every sample is followed by a zero slot, so the length doubles |
| AudioFraming.DeinterleaveAt | comms.c:104-112 | captured sample i comes from received word 2i |
| AudioFraming.InterleaveAt | comms.c:138-155 | played frame i is 0 when i is odd and sample i / 2 when it is even |
| AudioFraming.DeinterleaveInterleave | comms.c:104-155 | capturing the framing of a played stream gives the samples back |
| AudioFraming.CapturedAt | comms.c:102-112 | sample i of a capture is received word 2i, narrowed to 16 bits |
| AudioFraming.CapturedPointwise | comms.c:102-112 | a buffer holding the narrowed word 2k at each k is the captured sequence |
| AudioFraming.EchoSource | comms.c:149-152 | the echo of sample s comes from sample s - len / 2, which lies inside the buffer |
| AudioFraming.PlaybackStreamAt | comms.c:138-155 | frame i of the stream is 0 on odd frames; on even frames it is sample i / 2, plus the attenuated sample i / 2 - len / 2 when echo is on and i >= len, and that index is in range |
| AudioFraming.CapturePlayback | comms.c:94-155 | recording exactly what a playback without echo transmits gives the buffer back |
| AudioFraming.EchoExample | comms.c:143-152 | concrete echo playback: the second half of eight samples picks up 0.8 of the first half |
| AudioFraming.EchoOverflowWraps | comms.c:152 | the echo sum is not saturated: two full-scale samples give a word outside 16 bits that reads back as a negative sample |
| Progress.FiredCount | comms.c:115 | the number of firing indices below n is n / d rounded up |
| Progress.ProgressCompletes | comms.c:115-121 | with interval n / 8 the bar fires at least eight times, and exactly eight when n is a multiple of 8 |
| Progress.ProgressDisplay | comms.c:115-121 | after the bar has fired, the display shows the first min(firings, 8) LEDs red |
| Progress.ProgressLength | comms.c:115-121 | each firing puts one push (83 pin writes) on the display lines |
| Progress.CaptureEndsLit | comms.c:97-121 | after a recording of at least 8 samples every LED is red, whatever the display held before |
| Progress.PlaybackEndsLit | comms.c:131-164 | after a playback of at least 4 samples every LED is red, whatever the display held before |
| Comms.I2cBus.WriteI2cDataList | comms.c:31 | the I2C driver records the write it was given |
| Comms.WriteAudioDacReg | comms.c:18-32 | exactly one I2C write: to device 0x1A, no internal address, with the two-byte control word |
| Comms.Ssc.ReadRhr | comms.c:108-109 | reading the receive register returns the next word and consumes it |
| Comms.Ssc.WriteThr | comms.c:141-155 | writing the transmit register appends the word |
| Comms.ReceiveSoundSamples | comms.c:94-123 | data[..len] becomes the narrowed first word of each received pair, the rest of data is untouched, 2 * len words are consumed, nothing is transmitted, and the pins carry the all-off push then the progress pushes |
| Comms.CaptureLoop | comms.c:102-122 | after the loop, len samples are stored, 2 * len words are consumed and the bar has fired at each multiple of len / 8 |
| Comms.CaptureSample | comms.c:104-112 | one iteration stores sample i and consumes two words |
| Comms.ReceiveFrame | comms.c:104-110 | the inner loop reads two received words into the temporary buffer as shorts |
| Comms.TransmitSoundSamples | comms.c:129-168 | the transmitter receives exactly the playback stream (2 * len frames, odd frames 0, echo on the second half when enabled), nothing is read, and the pins carry the all-off push then the progress pushes |
| Comms.TransmitFrame | comms.c:140-155 | one iteration writes frame i, by the source's three branches |
| Comms.AdvanceBar | comms.c:115-121 | at a firing index the next LED turns red and the whole vector is pushed; otherwise nothing changes |

## Left out

- SSC_initialise (comms.c:35-91) is not modelled. It configures clocks, the
  PIO multiplexing and the serial controller's mode registers, and none of
  what it sets is read back by the core.
- The busy-wait on the receiver status (comms.c:108) is not modelled. Its
  success is the precondition `2 * len <= |rx|`: the receiver has a word ready
  each time one is read.
- The busy-wait on the transmitter status (comms.c:167) is not modelled. A
  transmit write always succeeds here.
- WriteI2CDataList is outside the core. It is modelled only as a recorder of
  its arguments (`I2cBus.WriteI2cDataList`). Bus arbitration and errors are
  not modelled.
- The hardware registers are modelled as sequences of words:
  - The receive register's 32-bit width is not modelled.
  - A transmitted word is the C `int` value that the source assigns, with no
    truncation to 16 or 32 bits. `EchoOverflowWraps` shows which value the
    16-bit slot then carries.
- Atten: models `(short)(0.8f * x)` as 4x/5 truncated toward zero. The single
  precision constant is above 0.8 by one part in 2^26. The product is then
  rounded to single precision, whose spacing is at most 2^-9 below 2^15. So
  for 16-bit x the rounded product stays within 2^-9 of 4x/5. That value is
  either an integer, which the error cannot carry below, or at least 0.2
  from the nearest integer. Truncation therefore agrees. No floating point
  is modelled.
- The order between pin writes and serial-controller writes is not captured.
  The model keeps separate traces for the LED port and the serial controller,
  so it does not state, for example, that the push for sample i comes after
  sample i is stored. Within each trace, order is exact.
- The LED receiver model (`ShiftRegister`) is an assumption about the display
  hardware, which is not part of this model. It assumes the display samples
  the data line on each rising clock edge, treats low as a set bit, and shows
  the last 16 bits.
- ReceiveSoundSamples: calls with `len` in 1..7 are excluded. There,
  `len / 8` is zero and the C loop computes a remainder by zero on its first
  iteration.
- TransmitSoundSamples: calls with `len` in 1..3 are excluded, for the same
  reason with `2 * len / 8`.
- Non-positive `len` is allowed in both loops. Nothing is read or
  transmitted, and only the all-off push happens.
- LedPort.SetupLedOutputs: records the pin-direction setup as one marker. The
  two PIO enable and output-enable register writes are not modelled
  separately.
- main.c (button polling and the codec register sequence) is context and is
  not modelled.
- The colour-vector arguments are modelled as arrays of `int`, so
  out-of-range enumeration values can be represented. Their clamping is
  modelled as the source does it.
