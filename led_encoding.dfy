/** The logical side of the LED display: an 8-slot colour vector, its packing
    into the 16-bit shift word (2 bits per slot, slot 0 lowest), the one-hot word
    of a single LED, and the "light the next LED" progress step. */
module LedEncoding {
  import opened Arith

  // LEDnumber: LED1 .. LED8 are 0 .. 7.
  const LED1: int := 0
  const LED8: int := 7
  const SLOTS: nat := 8

  // LEDcolour, as the enumeration declares it.
  const OFF: int := 0
  const RED: int := 1
  const GREEN: int := 2
  const ORANGE: int := 3

  const ALL_OFF: seq<int> := [OFF, OFF, OFF, OFF, OFF, OFF, OFF, OFF]

  predicate IsColour(c: int) { OFF <= c <= ORANGE }

  predicate IsLed(led: int) { LED1 <= led <= LED8 }

  /** A colour outside the enumeration is shown as OFF. */
  function Clamp(c: int): int
  {
    if IsColour(c) then c else OFF
  }

  function ClampAll(v: seq<int>): (r: seq<int>)
    ensures |r| == |v|
  {
    seq(|v|, i requires 0 <= i < |v| => Clamp(v[i]))
  }

  /** The shift word of a vector as the sum over slots i of Clamp(v[i]) << (2 * i). */
  function Pack(s: seq<int>): nat
  {
    if s == [] then 0 else Pack(s[..|s| - 1]) + Clamp(s[|s| - 1]) * Pow4(|s| - 1)
  }

  /** Two-bit field i of a word, read two bits at a time from the least significant end. */
  function Slot(x: nat, i: nat): (r: nat)
    ensures r < 4
  {
    if i == 0 then x % 4 else Slot(x / 4, i - 1)
  }

  /** The colour vector a 16-bit word displays. */
  function Decode(x: nat): (r: seq<int>)
    ensures |r| == SLOTS
  {
    seq(SLOTS, j requires 0 <= j < SLOTS => Slot(x, j))
  }

  /** Packing the slots from the top down, as the encoder's loop does, gives the same sum. */
  lemma {:induction false} PackHorner(s: seq<int>)
    requires |s| > 0
    ensures Pack(s) == Clamp(s[0]) + 4 * Pack(s[1..])
  {
    var n := |s|;
    if n > 1 {
      var init := s[..n - 1];
      PackHorner(init);
      assert init[1..] == s[1..][..n - 2];
      assert s[1..][n - 2] == s[n - 1];
      assert Pow4(n - 1) == 4 * Pow4(n - 2);
    } else {
      assert s[..0] == [];
      assert s[1..] == [];
    }
  }

  /** n slots fit in 2n bits; in particular 8 slots fit in 16 bits. */
  lemma {:induction false} PackBound(s: seq<int>)
    ensures Pack(s) < Pow4(|s|)
  {
    if s != [] {
      PackHorner(s);
      PackBound(s[1..]);
    }
  }

  lemma PackFits(v: seq<int>)
    requires |v| == SLOTS
    ensures Pack(v) < 0x10000
  {
    PackBound(v);
    Pow4Values();
  }

  /** Field j of the packed word is the clamped colour of slot j. */
  lemma {:induction false} SlotOfPack(s: seq<int>, j: nat)
    requires j < |s|
    ensures Slot(Pack(s), j) == Clamp(s[j])
  {
    PackHorner(s);
    var x := Pack(s);
    DivModUnique(x, 4, Pack(s[1..]), Clamp(s[0]));
    if j > 0 {
      SlotOfPack(s[1..], j - 1);
    }
  }

  /** Decoding the packed word reproduces the clamped vector. */
  lemma DecodePack(v: seq<int>)
    requires |v| == SLOTS
    ensures Decode(Pack(v)) == ClampAll(v)
  {
    forall j | 0 <= j < SLOTS
      ensures Decode(Pack(v))[j] == ClampAll(v)[j]
    {
      SlotOfPack(v, j);
    }
  }

  lemma {:induction false} PackOfSlots(x: nat, n: nat)
    requires x < Pow4(n)
    ensures Pack(seq(n, j requires 0 <= j < n => Slot(x, j))) == x
  {
    var s := seq(n, j requires 0 <= j < n => Slot(x, j));
    if n > 0 {
      PackHorner(s);
      var t := seq(n - 1, j requires 0 <= j < n - 1 => Slot(x / 4, j));
      assert s[1..] == t;
      assert x / 4 < Pow4(n - 1);
      PackOfSlots(x / 4, n - 1);
    }
  }

  /** Every 16-bit word is the packing of the vector it displays. */
  lemma PackDecode(x: nat)
    requires x < 0x10000
    ensures Pack(Decode(x)) == x
  {
    Pow4Values();
    PackOfSlots(x, SLOTS);
    assert Decode(x) == seq(SLOTS, j requires 0 <= j < SLOTS => Slot(x, j));
  }

  /** Packing is injective on vectors of valid colours. */
  lemma PackInjective(v: seq<int>, w: seq<int>)
    requires |v| == SLOTS && |w| == SLOTS
    requires forall i :: 0 <= i < SLOTS ==> IsColour(v[i]) && IsColour(w[i])
    requires Pack(v) == Pack(w)
    ensures v == w
  {
    DecodePack(v);
    DecodePack(w);
    assert ClampAll(v) == v;
    assert ClampAll(w) == w;
  }

  /** Packing only sees the clamped colours. */
  lemma {:induction false} PackClamped(s: seq<int>)
    ensures Pack(ClampAll(s)) == Pack(s)
  {
    if s != [] {
      var n := |s|;
      assert ClampAll(s)[..n - 1] == ClampAll(s[..n - 1]);
      PackClamped(s[..n - 1]);
    }
  }

  /** An out-of-range colour in slot i packs exactly like OFF. */
  lemma PackIgnoresOutOfRange(v: seq<int>, i: nat, c: int)
    requires i < |v| && !IsColour(c)
    ensures Pack(v[i := c]) == Pack(v[i := OFF])
  {
    PackClamped(v[i := c]);
    PackClamped(v[i := OFF]);
    assert ClampAll(v[i := c]) == ClampAll(v[i := OFF]);
  }

  /** Changing slot i of a vector leaves every other field of the packed word as it was. */
  lemma PackUpdateOtherSlots(v: seq<int>, i: nat, c: int, j: nat)
    requires |v| == SLOTS && i < SLOTS && j < SLOTS && i != j
    ensures Slot(Pack(v[i := c]), j) == Slot(Pack(v), j)
    ensures Slot(Pack(v[i := c]), i) == Clamp(c)
  {
    SlotOfPack(v[i := c], j);
    SlotOfPack(v[i := c], i);
    SlotOfPack(v, j);
  }

  lemma {:induction false} SlotOfZero(i: nat)
    ensures Slot(0, i) == 0
  {
    if i > 0 {
      SlotOfZero(i - 1);
    }
  }

  /** A colour shifted to field led occupies that field alone. */
  lemma {:induction false} SlotOfScaled(colour: nat, led: nat, j: nat)
    requires colour < 4
    ensures Slot(colour * Pow4(led), j) == if j == led then colour else 0
  {
    if led == 0 {
      if j > 0 {
        SlotOfZero(j - 1);
      }
    } else {
      var y := colour * Pow4(led - 1);
      assert colour * Pow4(led) == 4 * y;
      DivModUnique(4 * y, 4, y, 0);
      if j > 0 {
        SlotOfScaled(colour, led - 1, j - 1);
      }
    }
  }

  lemma {:induction false} Pow4Monotone(a: nat, b: nat)
    requires a <= b
    ensures Pow4(a) <= Pow4(b)
  {
    if a < b {
      Pow4Monotone(a, b - 1);
    }
  }

  lemma OneHotSlots(colour: nat, led: nat)
    requires colour < 4 && led < SLOTS
    ensures colour * Pow4(led) < 0x10000
    ensures forall j :: 0 <= j < SLOTS ==> Slot(colour * Pow4(led), j) == if j == led then colour else 0
  {
    Pow4Monotone(led + 1, SLOTS);
    Pow4Values();
    forall j | 0 <= j < SLOTS
      ensures Slot(colour * Pow4(led), j) == if j == led then colour else 0
    {
      SlotOfScaled(colour, led, j);
    }
  }

  lemma ZeroSlots()
    ensures forall j :: 0 <= j < SLOTS ==> Slot(0, j) == 0
  {
    forall j | 0 <= j < SLOTS
      ensures Slot(0, j) == 0
    {
      SlotOfZero(j);
    }
  }

  /** The word that lights one LED: colour in field led when both are in range,
      and the all-off word otherwise. The 16-bit shift cannot lose bits here. */
  function OneHotConfig(led: int, colour: int): (r: nat)
    ensures r < 0x10000
    ensures forall j :: 0 <= j < SLOTS ==>
      Slot(r, j) == if IsColour(colour) && IsLed(led) && j == led then colour else OFF
  {
    if IsColour(colour) && IsLed(led) then
      OneHotSlots(colour, led);
      (colour * Pow4(led)) % 0x10000
    else
      ZeroSlots();
      0
  }

  /** The vector a single-LED request stands for: OFF everywhere except led. */
  function OneHotVector(led: int, colour: int): (r: seq<int>)
    ensures |r| == SLOTS
  {
    if IsColour(colour) && IsLed(led) then ALL_OFF[led := colour] else ALL_OFF
  }

  /** Lighting one LED is setting the whole display to the one-hot vector:
      whatever was lit before is cleared. */
  lemma OneHotIsPack(led: int, colour: int)
    ensures OneHotConfig(led, colour) == Pack(OneHotVector(led, colour))
  {
    var r := OneHotConfig(led, colour);
    assert Decode(r) == OneHotVector(led, colour);
    PackDecode(r);
  }

  /** The lowest OFF slot, or |s| if there is none. */
  function FirstOff(s: seq<int>): (r: nat)
    ensures r <= |s|
    ensures forall j :: 0 <= j < r ==> s[j] != OFF
    ensures r < |s| ==> s[r] == OFF
  {
    if s == [] then 0 else if s[0] == OFF then 0 else 1 + FirstOff(s[1..])
  }

  /** Light the next LED: the lowest OFF slot becomes RED (1). */
  function Advance(s: seq<int>): (r: seq<int>)
    ensures |r| == |s|
    ensures forall j :: 0 <= j < |s| ==>
      r[j] == if s[j] == OFF && (forall i :: 0 <= i < j ==> s[i] != OFF) then RED else s[j]
  {
    var k := FirstOff(s);
    if k < |s| then s[k := RED] else s
  }

  /** The progress vector with the first k slots lit. */
  function Lit(k: nat): (r: seq<int>)
    ensures |r| == SLOTS
  {
    seq(SLOTS, j requires 0 <= j < SLOTS => if j < k then RED else OFF)
  }

  lemma LitZero()
    ensures Lit(0) == ALL_OFF
  {
  }

  /** Advancing a lit prefix lengthens it by one, up to all eight slots. */
  lemma AdvanceLit(k: nat)
    requires k <= SLOTS
    ensures Advance(Lit(k)) == Lit(Min(k + 1, SLOTS))
  {
    var s := Lit(k);
    if k < SLOTS {
      assert s[k] == OFF;
    }
    assert FirstOff(s) == k;
  }

  /** k successive advances applied to s. */
  function AdvanceTimes(s: seq<int>, k: nat): seq<int>
  {
    if k == 0 then s else Advance(AdvanceTimes(s, k - 1))
  }

  /** From all-OFF, k advances light exactly the first min(k, 8) slots; the lit
      slots always form a gap-free prefix. */
  lemma {:induction false} AdvanceFromOff(k: nat)
    ensures AdvanceTimes(ALL_OFF, k) == Lit(Min(k, SLOTS))
  {
    if k == 0 {
      LitZero();
    } else {
      AdvanceFromOff(k - 1);
      AdvanceLit(Min(k - 1, SLOTS));
    }
  }

  /** Once all eight slots are lit, further advances change nothing. */
  lemma AdvanceSaturates(k: nat)
    requires k >= SLOTS
    ensures Advance(AdvanceTimes(ALL_OFF, k)) == AdvanceTimes(ALL_OFF, k)
  {
    AdvanceFromOff(k);
    AdvanceLit(SLOTS);
  }
}
