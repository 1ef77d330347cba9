/** The LED progress bar the audio loops drive: at every iteration whose index
    is a multiple of the interval d, the next LED turns red and the whole
    vector is pushed to the display. */
module Progress {
  import opened Arith
  import opened LedEncoding
  import opened LedWire

  /** How many of the indices 0 .. n - 1 are multiples of d. */
  function Fired(n: nat, d: nat): (r: nat)
    requires d > 0
    ensures r <= n
  {
    if n == 0 then 0 else Fired(n - 1, d) + (if (n - 1) % d == 0 then 1 else 0)
  }

  /** The pin writes of the first n iterations of a loop that advances the bar
      every d iterations: one full push of the vector with Fired(n, d) LEDs
      lit (at most eight) at each firing index. */
  function ProgressTrace(n: nat, d: nat): seq<PinEvent>
    requires d > 0
  {
    if n == 0 then [] else ProgressTrace(n - 1, d) + BarStep(n - 1, d)
  }

  /** What iteration i adds to the pins: a push of the advanced vector when i is a multiple of d. */
  function BarStep(i: nat, d: nat): seq<PinEvent>
    requires d > 0
  {
    if i % d == 0 then PushTrace(Lit(Min(Fired(i + 1, d), SLOTS))) else []
  }

  /** One more iteration appends its step to the trace so far. */
  lemma ProgressStep(start: seq<PinEvent>, i: nat, d: nat)
    requires d > 0
    ensures start + ProgressTrace(i, d) + BarStep(i, d) == start + ProgressTrace(i + 1, d)
  {
  }

  /** The bar during a capture of len samples: it advances every len / 8 samples. */
  function CaptureProgress(len: int): seq<PinEvent>
  {
    if len >= 8 then ProgressTrace(len, len / 8) else []
  }

  /** The bar during a playback of len samples (2 * len frames): it advances every 2 * len / 8 frames. */
  function PlaybackProgress(len: int): seq<PinEvent>
  {
    if len >= 4 then ProgressTrace(2 * len, 2 * len / 8) else []
  }

  /** The number of firing indices below n is n / d rounded up. */
  lemma {:induction false} FiredCount(n: nat, d: nat)
    requires d > 0
    ensures Fired(n, d) == (n + d - 1) / d
  {
    if n == 0 {
      DivModUnique(d - 1, d, 0, d - 1);
    } else {
      FiredCount(n - 1, d);
      CeilStep(n - 1, d);
    }
  }

  /** Rounding (m + 1) / d up adds one exactly when m is a multiple of d. */
  lemma CeilStep(m: nat, d: nat)
    requires d > 0
    ensures (m + d) / d == (m + d - 1) / d + (if m % d == 0 then 1 else 0)
  {
    var q, r := m / d, m % d;
    if r == 0 {
      DivModUnique(m + d - 1, d, q, d - 1);
      DivModUnique(m + d, d, q + 1, 0);
    } else {
      DivModUnique(m + d - 1, d, q + 1, r - 1);
      DivModUnique(m + d, d, q + 1, r);
    }
  }

  /** With the interval n / 8 the bar fires at least eight times, exactly eight
      when n is a multiple of 8, so by the end every LED is lit. */
  lemma ProgressCompletes(n: nat)
    requires n >= 8
    ensures Fired(n, n / 8) >= SLOTS
    ensures n % 8 == 0 ==> Fired(n, n / 8) == SLOTS
  {
    var d := n / 8;
    FiredCount(n, d);
    DivAtLeast(n + d - 1, d, 8);
    if n % 8 == 0 {
      DivModUnique(n + d - 1, d, 8, d - 1);
    }
  }

  lemma ClampLit(k: nat)
    ensures ClampAll(Lit(k)) == Lit(k)
  {
  }

  /** Once the bar has fired, the display shows the vector with Fired(n, d) LEDs red. */
  lemma {:induction false} ProgressDisplay(r: ShiftRegister, n: nat, d: nat)
    requires n >= 1 && d > 0
    ensures Decode(Held(Run(r, ProgressTrace(n, d)))) == Lit(Min(Fired(n, d), SLOTS))
  {
    var prev := ProgressTrace(n - 1, d);
    if (n - 1) % d == 0 {
      var v := Lit(Min(Fired(n, d), SLOTS));
      RunConcat(r, prev, PushTrace(v));
      PushShows(Run(r, prev), v);
      ClampLit(Min(Fired(n, d), SLOTS));
    } else {
      assert ProgressTrace(n, d) == prev + [] == prev;
      ProgressDisplay(r, n - 1, d);
    }
  }

  /** Whatever a capture of len >= 8 samples starts from, the display ends with all eight LEDs red. */
  lemma CaptureEndsLit(r: ShiftRegister, len: int)
    requires len >= 8
    ensures Decode(Held(Run(r, PushTrace(ALL_OFF) + CaptureProgress(len)))) == Lit(SLOTS)
  {
    RunConcat(r, PushTrace(ALL_OFF), CaptureProgress(len));
    ProgressDisplay(Run(r, PushTrace(ALL_OFF)), len, len / 8);
    ProgressCompletes(len);
  }

  /** The same for a playback of len >= 4 samples. */
  lemma PlaybackEndsLit(r: ShiftRegister, len: int)
    requires len >= 4
    ensures Decode(Held(Run(r, PushTrace(ALL_OFF) + PlaybackProgress(len)))) == Lit(SLOTS)
  {
    RunConcat(r, PushTrace(ALL_OFF), PlaybackProgress(len));
    ProgressDisplay(Run(r, PushTrace(ALL_OFF)), 2 * len, 2 * len / 8);
    ProgressCompletes(2 * len);
  }

  /** Each push is 83 pin writes, and there is one per firing index. */
  lemma {:induction false} ProgressLength(n: nat, d: nat)
    requires d > 0
    ensures |ProgressTrace(n, d)| == 83 * Fired(n, d)
  {
    if n > 0 {
      ProgressLength(n - 1, d);
      ShiftOutLayout(Pack(Lit(Min(Fired(n, d), SLOTS))));
    }
  }
}
