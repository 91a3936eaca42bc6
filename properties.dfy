/** What the animations promise over several steps: the counter cycles with
    the period its reset check gives it, the sweep, blink, band and parity
    patterns the source's comments describe, and that the seven animations
    that paint the whole strip show the same frame whatever the previous
    animation left on it (Chase, Glitter and Pong draw over it). */
module AnimProperties {
  import opened Color
  import opened Animations

  /** Every enum value finds its own animation in the dispatch table. */
  lemma TableMatchesEnum(id: AnimId)
    ensures AnimationAt(Ordinal(id)) == id
  {
  }

  /** `k` steps after `animctl_setAnim(id)` the counter is `k` modulo the
      period. */
  lemma {:induction false} CounterAfterSteps(id: AnimId, k: nat)
    ensures CounterAfter(id, k) == k % Period(id)
  {
    if k > 0 {
      CounterAfterSteps(id, k - 1);
      ModSucc(k - 1, Period(id));
    }
  }

  /** Counting modulo `p`, one step at a time. */
  lemma ModSucc(n: nat, p: nat)
    requires p >= 1
    ensures ((n % p) + 1) % p == (n + 1) % p
  {
    var q, r := n / p, n % p;
    assert n == q * p + r && 0 <= r < p;
    if r + 1 < p {
      ModUnique(n + 1, p, q, r + 1);
    } else {
      assert n + 1 == (q + 1) * p;
      ModUnique(n + 1, p, q + 1, 0);
      ModUnique(r + 1, p, 1, 0);
    }
  }

  /** The remainder is the one value in 0..p-1 that differs from `a` by a
      multiple of `p`. */
  lemma ModUnique(a: nat, p: nat, q: nat, r: nat)
    requires p >= 1 && a == q * p + r && 0 <= r < p
    ensures a % p == r
  {
    var q', r' := a / p, a % p;
    assert a == q' * p + r' && 0 <= r' < p;
    assert (q - q') * p == r' - r;
    if q > q' {
      MulAtLeast(q - q', p);
    } else if q < q' {
      MulAtLeast(q' - q, p);
    }
  }

  lemma {:induction false} MulAtLeast(d: nat, p: nat)
    requires d >= 1
    ensures d * p >= p
  {
    if d > 1 {
      MulAtLeast(d - 1, p);
      assert d * p == (d - 1) * p + p;
    }
  }

  /** Stepping a whole period brings the counter, and with it every frame
      that depends only on the counter, back to where it was. */
  lemma CounterRepeats(id: AnimId, k: nat)
    ensures 0 <= CounterAfter(id, k) < Period(id)
    ensures CounterAfter(id, k + Period(id)) == CounterAfter(id, k)
  {
    var p := Period(id);
    CounterAfterSteps(id, k);
    CounterAfterSteps(id, k + p);
    var q, r := k / p, k % p;
    assert k == q * p + r && 0 <= r < p;
    assert (q + 1) * p == q * p + p;
    ModUnique(k + p, p, q + 1, r);
  }

  /** Blink shows red, black, green, black, blue, black, and again. */
  lemma BlinkCycle(k: nat)
    ensures BlinkColor(CounterAfter(Blink, k)) == [Red, Black, Green, Black, Blue, Black][k % 6]
  {
    CounterAfterSteps(Blink, k);
  }

  /** The strip `k` Chase steps after `animctl_setAnim(Chase)`. */
  function ChaseRun(before: seq<RGB>, k: nat): (after: seq<RGB>)
    requires |before| == StripLen
    ensures |after| == StripLen
  {
    if k == 0 then before else ChaseFrame(ChaseRun(before, k - 1), CounterAfter(Chase, k - 1))
  }

  /** Within the first period, step `k` runs at counter `k - 1`. */
  lemma ChaseRunStep(before: seq<RGB>, k: nat)
    requires |before| == StripLen && 1 <= k <= 514
    ensures ChaseRun(before, k) == ChaseFrame(ChaseRun(before, k - 1), k - 1)
  {
    CounterAfterSteps(Chase, k - 1);
    assert (k - 1) % 514 == k - 1;
  }

  /** `ChaseRun` is the run of Chase steps: step `k + 1` is the Chase step
      taken at the counter and on the strip the first `k` steps left. */
  lemma ChaseRunIsSteps(before: seq<RGB>, k: nat, ext: Externals, draws: seq<nat>)
    requires |before| == StripLen && |draws| == 5
    ensures var r := StepOf(Chase, CounterAfter(Chase, k), ChaseRun(before, k), ext, draws);
      r.frames == [ChaseRun(before, k + 1)] && r.counter == CounterAfter(Chase, k + 1)
  {
  }

  /** During the first 256 steps Chase turns the pixels red one by one,
      from pixel 0 upwards, leaving the rest as they were. */
  lemma {:induction false} ChaseSweepsRed(before: seq<RGB>, k: nat)
    requires |before| == StripLen && k <= 256
    ensures forall i :: 0 <= i < StripLen ==> ChaseRun(before, k)[i] == if i < k then Red else before[i]
  {
    if k > 0 {
      ChaseSweepsRed(before, k - 1);
      ChaseRunStep(before, k);
      assert (k - 1) % StripLen == k - 1;
    }
  }

  /** During the next 256 steps it turns them black again in the same order. */
  lemma {:induction false} ChaseSweepsBlack(before: seq<RGB>, k: nat)
    requires |before| == StripLen && 256 <= k <= 512
    ensures forall i :: 0 <= i < StripLen ==> ChaseRun(before, k)[i] == if i < k - 256 then Black else Red
  {
    if k == 256 {
      ChaseSweepsRed(before, k);
    } else {
      ChaseSweepsBlack(before, k - 1);
      ChaseRunStep(before, k);
      assert (k - 1) % StripLen == k - 257;
    }
  }

  /** Whatever the strip held, it is all red after 256 steps and all black
      after 512. */
  lemma ChaseFillsThenClears(before: seq<RGB>)
    requires |before| == StripLen
    ensures ChaseRun(before, 256) == Filled(Red)
    ensures ChaseRun(before, 512) == Filled(Black)
  {
    ChaseSweepsRed(before, 256);
    ChaseSweepsBlack(before, 512);
  }

  /** The two steps past 512 that the `> 512` check lets through (counter
      512 and 513) blank pixels 0 and 1 once more; the period of 514 steps
      ends on a black strip with the counter back at 0. */
  lemma {:induction false} ChaseExtraSteps(before: seq<RGB>, k: nat)
    requires |before| == StripLen && 512 <= k <= 514
    ensures ChaseRun(before, k) == Filled(Black)
    ensures CounterAfter(Chase, k) == if k < 514 then k else 0
  {
    CounterAfterSteps(Chase, k);
    assert Period(Chase) == 514;
    assert k % 514 == if k < 514 then k else 0;
    if k == 512 {
      ChaseFillsThenClears(before);
    } else {
      ChaseExtraSteps(before, k - 1);
      BlackStaysBlack(k - 1);
    }
  }

  /** Past counter 255 a Chase step on a black strip leaves it black. */
  lemma BlackStaysBlack(c: int)
    requires c >= 256
    ensures ChaseFrame(Filled(Black), c) == Filled(Black)
  {
    var f := ChaseFrame(Filled(Black), c);
    assert forall i :: 0 <= i < StripLen ==> f[i] == Black;
  }

  /** Police at counter 0: pixels 0..63 and 128..191 red, the other two
      64-pixel bands blue. */
  lemma PoliceBands(i: int)
    requires 0 <= i < StripLen
    ensures PoliceFrame(0)[i] == (if i < 64 || 128 <= i < 192 then Red else Blue)
  {
  }

  /** Consecutive Police frames swap red and blue on every pixel. */
  lemma PoliceFramesSwap(c: int, i: int)
    requires 0 <= c <= 1 && 0 <= i < StripLen
    ensures PoliceFrame(c)[i] == Red || PoliceFrame(c)[i] == Blue
    ensures PoliceFrame(c)[i] == Red <==> PoliceFrame(Next(Police, c))[i] == Blue
  {
  }

  /** Railway at counter 0 lights the even pixels. */
  lemma RailwayEvenPixels(i: int)
    requires 0 <= i < StripLen
    ensures RailwayFrame(0)[i] == (if i % 2 == 0 then Red else Black)
  {
  }

  /** Consecutive Railway frames swap red and black on every pixel. */
  lemma RailwayFramesSwap(c: int, i: int)
    requires 0 <= c <= 1 && 0 <= i < StripLen
    ensures RailwayFrame(c)[i] == Red || RailwayFrame(c)[i] == Black
    ensures RailwayFrame(c)[i] == Red <==> RailwayFrame(Next(Railway, c))[i] == Black
  {
  }

  /** The hue shown `k` steps after `animctl_setAnim(Rainbow)` is `k`
      modulo 257, cast to `uint8_t`: hue 0 is shown twice in a row, at
      counter 256 and then 0 again. */
  lemma RainbowHues(hsvToRgb: HSV -> RGB, k: nat)
    ensures RainbowColor(hsvToRgb, CounterAfter(Rainbow, k)) == hsvToRgb(HSV(ToByte(k % 257), 255, 255))
    ensures k % 257 == 256 ==>
      ToByte(CounterAfter(Rainbow, k)) == ToByte(CounterAfter(Rainbow, k + 1)) == 0
  {
    CounterAfterSteps(Rainbow, k);
    CounterAfterSteps(Rainbow, k + 1);
  }

  /** A Glitter step flashes its five picks white in the first frame and
      leaves them black in the second; every other pixel, and the counter,
      are untouched. */
  lemma GlitterFlashesThenBlanks(c: int, before: seq<RGB>, ext: Externals, draws: seq<nat>)
    requires |before| == StripLen && |draws| == 5
    ensures var r := StepOf(Glitter, c, before, ext, draws);
      r.counter == c && r.delay == 60 &&
      forall i :: 0 <= i < StripLen ==>
        r.frames[0][i] == (if Hit(Picks(draws), i) then White else before[i]) &&
        r.frames[1][i] == (if Hit(Picks(draws), i) then Black else before[i])
  {
  }

  /** Except for Chase, Glitter and Pong, which draw over what is there,
      a step paints the whole strip, so what it shows depends on the counter
      alone and not on what the previous animation left behind. */
  lemma FullFrameStepsIgnoreStrip(id: AnimId, c: int, b1: seq<RGB>, b2: seq<RGB>, ext: Externals, d1: seq<nat>, d2: seq<nat>)
    requires id != Chase && id != Glitter && id != Pong
    requires |b1| == StripLen && |b2| == StripLen && |d1| == 5 && |d2| == 5
    ensures StepOf(id, c, b1, ext, d1) == StepOf(id, c, b2, ext, d2)
  {
  }
}
