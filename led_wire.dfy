/** The two-wire LED link as a trace of pin writes, the trace one shift-out of a
    16-bit word produces, and a model of the receiving shift register that
    samples the data line on every rising clock edge. */
module LedWire {
  import opened Arith
  import opened LedEncoding

  datatype Line = Clock | Data

  datatype Level = Low | High

  /** One write to the PIO controller: the pin-direction setup of both lines,
      or driving one line high (set) or low (clear). */
  datatype PinEvent = ConfigurePins | Drive(line: Line, level: Level)

  /** Clock idle low, data high (inactive), before the clear-out pulses. */
  function Preamble(): seq<PinEvent> { [Drive(Clock, Low), Drive(Data, High)] }

  function Pulse(): seq<PinEvent> { [Drive(Clock, High), Drive(Clock, Low)] }

  /** n clock pulses with the data line untouched. */
  function ClearPulses(n: nat): (t: seq<PinEvent>)
    ensures |t| == 2 * n
  {
    seq(2 * n, i requires 0 <= i < 2 * n => if i % 2 == 0 then Drive(Clock, High) else Drive(Clock, Low))
  }

  /** Data bit k of a transmission carries bit 15 - k of the word, active low. */
  function DataLevel(c: nat, k: nat): Level
    requires k < 16
  {
    if Bit(c, 15 - k) then Low else High
  }

  function BitFrame(c: nat, k: nat): seq<PinEvent>
    requires k < 16
  {
    [Drive(Data, DataLevel(c, k))] + Pulse()
  }

  /** The first n data bits, most significant first, each followed by a clock pulse. */
  function DataFrames(c: nat, n: nat): (t: seq<PinEvent>)
    requires n <= 16
    ensures |t| == 3 * n
  {
    seq(3 * n, i requires 0 <= i < 3 * n =>
      if i % 3 == 0 then Drive(Data, DataLevel(c, i / 3))
      else if i % 3 == 1 then Drive(Clock, High)
      else Drive(Clock, Low))
  }

  /** Everything one shift-out of the word c puts on the pins. */
  function ShiftOutTrace(c: nat): seq<PinEvent>
  {
    Preamble() + ClearPulses(16) + DataFrames(c, 16)
  }

  /** What setting the whole display to v puts on the pins. */
  function PushTrace(v: seq<int>): seq<PinEvent>
  {
    [ConfigurePins] + ShiftOutTrace(Pack(v))
  }

  /** The pulses and frames are built one at a time, as the driver's loops do. */
  lemma ClearPulsesSnoc(n: nat)
    ensures ClearPulses(n + 1) == ClearPulses(n) + Pulse()
  {
    var a, b := ClearPulses(n + 1), ClearPulses(n) + Pulse();
    forall i | 0 <= i < 2 * n + 2
      ensures a[i] == b[i]
    {
      if i >= 2 * n {
        DivModUnique(i, 2, n, i - 2 * n);
      }
    }
  }

  lemma DataFramesSnoc(c: nat, n: nat)
    requires n < 16
    ensures DataFrames(c, n + 1) == DataFrames(c, n) + BitFrame(c, n)
  {
    var a, b := DataFrames(c, n + 1), DataFrames(c, n) + BitFrame(c, n);
    forall i | 0 <= i < 3 * n + 3
      ensures a[i] == b[i]
    {
      if i >= 3 * n {
        DivModUnique(i, 3, n, i - 3 * n);
      }
    }
  }

  /** The layout of one shift-out, position by position: the preamble, exactly
      16 clock pulses with data held high, then exactly 16 data bits each with
      its own clock pulse, where bit k drives the data line low iff bit 15 - k
      of the word is 1. Nothing else is written. */
  lemma ShiftOutLayout(c: nat)
    ensures |ShiftOutTrace(c)| == 82
    ensures ShiftOutTrace(c)[0] == Drive(Clock, Low) && ShiftOutTrace(c)[1] == Drive(Data, High)
    ensures forall k :: 0 <= k < 16 ==>
      ShiftOutTrace(c)[2 + 2 * k] == Drive(Clock, High) && ShiftOutTrace(c)[3 + 2 * k] == Drive(Clock, Low)
    ensures forall k :: 0 <= k < 16 ==>
      ShiftOutTrace(c)[34 + 3 * k] == Drive(Data, if Bit(c, 15 - k) then Low else High) &&
      ShiftOutTrace(c)[35 + 3 * k] == Drive(Clock, High) &&
      ShiftOutTrace(c)[36 + 3 * k] == Drive(Clock, Low)
  {
    var t := ShiftOutTrace(c);
    forall k | 0 <= k < 16
      ensures t[2 + 2 * k] == Drive(Clock, High) && t[3 + 2 * k] == Drive(Clock, Low)
    {
      DivModUnique(2 * k, 2, k, 0);
      DivModUnique(2 * k + 1, 2, k, 1);
    }
    forall k | 0 <= k < 16
      ensures t[34 + 3 * k] == Drive(Data, if Bit(c, 15 - k) then Low else High)
      ensures t[35 + 3 * k] == Drive(Clock, High) && t[36 + 3 * k] == Drive(Clock, Low)
    {
      DivModUnique(3 * k, 3, k, 0);
      DivModUnique(3 * k + 1, 3, k, 1);
      DivModUnique(3 * k + 2, 3, k, 2);
    }
  }

  /** The receiving shift register: every bit clocked in so far (the display
      shows the last 16) and whether the data line is currently driven low. */
  datatype ShiftRegister = ShiftRegister(shifted: int, dataLow: bool)

  /** On a rising clock edge the register shifts in the data line, active low. */
  function Step(r: ShiftRegister, e: PinEvent): ShiftRegister
  {
    match e
    case ConfigurePins => r
    case Drive(Data, level) => r.(dataLow := level == Low)
    case Drive(Clock, High) => r.(shifted := 2 * r.shifted + (if r.dataLow then 1 else 0))
    case Drive(Clock, Low) => r
  }

  function Run(r: ShiftRegister, t: seq<PinEvent>): ShiftRegister
    decreases |t|
  {
    if t == [] then r else Run(Step(r, t[0]), t[1..])
  }

  /** The 16-bit word the display holds. */
  function Held(r: ShiftRegister): nat { r.shifted % 0x10000 }

  lemma {:induction false} RunConcat(r: ShiftRegister, a: seq<PinEvent>, b: seq<PinEvent>)
    ensures Run(r, a + b) == Run(Run(r, a), b)
    decreases |a|
  {
    if a != [] {
      assert (a + b)[0] == a[0];
      assert (a + b)[1..] == a[1..] + b;
      RunConcat(Step(r, a[0]), a[1..], b);
    } else {
      assert a + b == b;
    }
  }

  lemma RunPulse(r: ShiftRegister)
    ensures Run(r, Pulse()) == r.(shifted := 2 * r.shifted + (if r.dataLow then 1 else 0))
  {
    var t := Pulse();
    var r1 := Step(r, t[0]);
    var r2 := Step(r1, t[1]);
    assert t[1..] == [t[1]] && t[1..][1..] == [];
    assert Run(r1, t[1..]) == Run(r2, []);
  }

  /** The clear-out pulses clock in zeros. */
  lemma {:induction false} RunClearPulses(r: ShiftRegister, n: nat)
    requires !r.dataLow
    ensures Run(r, ClearPulses(n)) == r.(shifted := r.shifted * Pow2(n))
  {
    if n > 0 {
      ClearPulsesSnoc(n - 1);
      RunConcat(r, ClearPulses(n - 1), Pulse());
      RunClearPulses(r, n - 1);
      RunPulse(r.(shifted := r.shifted * Pow2(n - 1)));
    }
  }

  lemma RunBitFrame(r: ShiftRegister, c: nat, k: nat)
    requires k < 16
    ensures Run(r, BitFrame(c, k)).shifted == 2 * r.shifted + (if Bit(c, 15 - k) then 1 else 0)
  {
    var t := BitFrame(c, k);
    assert t == [t[0]] + Pulse();
    RunConcat(r, [t[0]], Pulse());
    var r1 := Step(r, t[0]);
    assert Run(r, [t[0]]) == r1;
    RunPulse(r1);
  }

  /** After n data bits the register has shifted in the top n bits of the word. */
  lemma {:induction false} RunDataFrames(r: ShiftRegister, c: nat, n: nat)
    requires c < 0x10000 && n <= 16
    ensures Run(r, DataFrames(c, n)).shifted == r.shifted * Pow2(n) + c / Pow2(16 - n)
  {
    if n == 0 {
      Pow2Values();
      assert c / Pow2(16) == 0;
      assert DataFrames(c, 0) == [];
    } else {
      DataFramesSnoc(c, n - 1);
      var s, big, p := r.shifted, Pow2(n - 1), Pow2(16 - n);
      assert Pow2(n) == 2 * big;
      assert Pow2(17 - n) == 2 * p;
      RunConcat(r, DataFrames(c, n - 1), BitFrame(c, n - 1));
      RunDataFrames(r, c, n - 1);
      var r1 := Run(r, DataFrames(c, n - 1));
      RunBitFrame(r1, c, n - 1);
      ShiftInBit(c, p);
      var b := if (c / p) % 2 == 1 then 1 else 0;
      ShiftStep(s, big, c / (2 * p), c / p, b);
    }
  }

  lemma ShiftStep(s: int, big: int, x: int, y: int, b: int)
    requires 2 * x + b == y
    ensures 2 * (s * big + x) + b == s * (2 * big) + y
  {
  }

  lemma ShiftInBit(c: nat, p: nat)
    requires p > 0
    ensures 2 * (c / (2 * p)) + (if (c / p) % 2 == 1 then 1 else 0) == c / p
  {
    DivTwice(c, p);
  }

  /** The preamble and the clear-out pulses clock sixteen zeros into the register. */
  lemma RunClearOut(r: ShiftRegister)
    ensures Run(r, Preamble() + ClearPulses(16)) == ShiftRegister(r.shifted * 0x10000, false)
  {
    var t := Preamble();
    var r0 := Step(Step(r, t[0]), t[1]);
    assert t[1..] == [t[1]] && t[1..][1..] == [];
    assert Run(r, t) == Run(r0, []);
    RunConcat(r, t, ClearPulses(16));
    RunClearPulses(r0, 16);
    Pow2Values();
  }

  /** Whatever the register held before, one shift-out of c leaves it holding c. */
  lemma ShiftOutDelivers(r: ShiftRegister, c: nat)
    requires c < 0x10000
    ensures Held(Run(r, ShiftOutTrace(c))) == c
  {
    RunConcat(r, Preamble() + ClearPulses(16), DataFrames(c, 16));
    RunClearOut(r);
    var r1 := ShiftRegister(r.shifted * 0x10000, false);
    RunDataFrames(r1, c, 16);
    Pow2Values();
    assert c / Pow2(0) == c;
    var q := r.shifted * 0x10000;
    assert Run(r, ShiftOutTrace(c)).shifted == q * 0x10000 + c;
    DivModUnique(q * 0x10000 + c, 0x10000, q, c);
  }

  /** Setting the whole display to v makes it show v with every unknown colour OFF. */
  lemma PushShows(r: ShiftRegister, v: seq<int>)
    requires |v| == SLOTS
    ensures Decode(Held(Run(r, PushTrace(v)))) == ClampAll(v)
  {
    PackFits(v);
    RunConcat(r, [ConfigurePins], ShiftOutTrace(Pack(v)));
    assert Run(r, [ConfigurePins]) == r;
    ShiftOutDelivers(r, Pack(v));
    DecodePack(v);
  }
}
