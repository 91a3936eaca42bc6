/** The animations of main/animcontroller.c as values: the animation ids and
    their dispatch table, the per-step counter rule, and the pixels each step
    writes into the 256-pixel strip. The class in controller.dfy is proved
    against these definitions. */
module Animations {
  import opened Color

  /** LED_STRIP_LEN. */
  const StripLen: int := 256

  /** The largest value the shared counter can hold: Pong's reset happens
      only after the counter has reached 629. */
  const MaxCounter: int := 629

  /** `animation_t`, in header order. */
  datatype AnimId = Off | Blink | Breathe | Chase | Fade | Glitter | Police | Pong | Railway | Rainbow

  /** The enum value of each id, as the header assigns it. */
  function Ordinal(id: AnimId): (n: nat)
    ensures n < 10
  {
    match id
    case Off => 0
    case Blink => 1
    case Breathe => 2
    case Chase => 3
    case Fade => 4
    case Glitter => 5
    case Police => 6
    case Pong => 7
    case Railway => 8
    case Rainbow => 9
  }

  /** The `animations[]` dispatch table. */
  const Table: seq<AnimId> := [Off, Blink, Breathe, Chase, Fade, Glitter, Police, Pong, Railway, Rainbow]

  /** `animations[anim]`: the table entry is the animation whose enum value is `anim`. */
  function AnimationAt(anim: int): (id: AnimId)
    requires 0 <= anim < |Table|
    ensures Ordinal(id) == anim
  {
    Table[anim]
  }

  // ---------------------------------------------------------------- counter

  /** `if ((animCounter++) > n) animCounter = 0;` */
  /** Read as counting: from 0 to n + 1 the counter counts modulo n + 2,
      and it never exceeds n + 1 once it started at or below that. */
  function PostIncrementReset(c: int, n: int): (r: int)
    ensures 0 <= c <= n + 1 ==> r == (c + 1) % (n + 2)
    ensures 0 <= c <= n + 1 ==> 0 <= r <= n + 1
    ensures r == 0 || r == c + 1
  {
    if c > n then 0 else c + 1
  }

  /** The number of distinct counter values an animation cycles through
      after `animctl_setAnim` resets the counter to 0; 1 for the two
      animations that never touch the counter. */
  function Period(id: AnimId): (p: nat)
    ensures 1 <= p <= MaxCounter + 1
  {
    match id
    case Off | Glitter => 1
    case Blink => 6
    case Breathe | Fade => 316
    case Chase => 514
    case Police | Railway => 2
    case Pong => 630
    case Rainbow => 257
  }

  /** The counter after one step of `id` from counter `c`. Within the
      period the post-increment-then-reset checks amount to counting modulo
      the period; from any reachable value the counter stays reachable. */
  function Next(id: AnimId, c: int): (r: int)
    ensures 0 <= c < Period(id) ==> r == (c + 1) % Period(id)
    ensures 0 <= c <= MaxCounter ==> 0 <= r <= MaxCounter
    ensures id == Off || id == Glitter ==> r == c
  {
    match id
    case Off | Glitter => c
    case Blink => PostIncrementReset(c, 4)
    case Breathe | Fade => PostIncrementReset(c, 314)
    case Chase => PostIncrementReset(c, 512)
    case Police | Railway => if c >= 1 then 0 else c + 1
    case Pong => PostIncrementReset(c, 628)
    case Rainbow => PostIncrementReset(c, 255)
  }

  /** The counter `k` steps of `id` after `animctl_setAnim(id)`. */
  function CounterAfter(id: AnimId, k: nat): int
  {
    if k == 0 then 0 else Next(id, CounterAfter(id, k - 1))
  }

  // ----------------------------------------------------------------- frames

  /** `led_strip_fill(&strip, 0, strip.length, color)` on a whole strip. */
  function Filled(color: RGB): (f: seq<RGB>)
    ensures |f| == StripLen
    ensures forall i :: 0 <= i < |f| ==> f[i] == color
  {
    seq(StripLen, _ => color)
  }

  /** `led_strip_set_pixel`: writes inside the strip take effect; the model
      drops a write outside it. */
  function Put(s: seq<RGB>, i: int, color: RGB): (t: seq<RGB>)
    ensures |t| == |s|
    ensures forall j :: 0 <= j < |s| ==> t[j] == if j == i then color else s[j]
  {
    if 0 <= i < |s| then s[i := color] else s
  }

  /** Blink's colour: red, green and blue at counter 0, 2 and 4, black at
      every other counter. */
  function BlinkColor(c: int): (color: RGB)
    ensures c == 0 ==> color == Red
    ensures c == 2 ==> color == Green
    ensures c == 4 ==> color == Blue
    ensures c != 0 && c != 2 && c != 4 ==> color == Black
  {
    RGB(if c == 0 then 255 else 0, if c == 2 then 255 else 0, if c == 4 then 255 else 0)
  }

  /** Chase sweeps red while the counter is below 256, black after. */
  function ChaseColor(c: int): (color: RGB)
    ensures color == Red <==> c < 256
    ensures color == Black <==> c >= 256
  {
    RGB(if c < 256 then 255 else 0, 0, 0)
  }

  /** Chase writes the one pixel `c % 256`. */
  function ChaseFrame(before: seq<RGB>, c: int): (after: seq<RGB>)
    requires |before| == StripLen
    ensures |after| == StripLen
    ensures 0 <= c % StripLen < StripLen
    ensures after[c % StripLen] == (if c < 256 then Red else Black)
    ensures forall i :: 0 <= i < StripLen && i != c % StripLen ==> after[i] == before[i]
  {
    before[c % StripLen := ChaseColor(c)]
  }

  /** Police: pixel `i` is blue when `(i / 64) + c` is odd (C's `% 2` is
      non-zero exactly when Dafny's is), red otherwise. */
  function PoliceColor(i: int, c: int): (color: RGB)
    ensures color == Red || color == Blue
    ensures color == Blue <==> ((i / 64) + c) % 2 == 1
  {
    if ((i / 64) + c) % 2 != 0 then Blue else Red
  }

  /** The whole strip in Police's four 64-pixel bands. */
  function PoliceFrame(c: int): (f: seq<RGB>)
    ensures |f| == StripLen
    ensures forall i :: 0 <= i < StripLen ==> f[i] == PoliceColor(i, c)
    ensures forall i :: 0 <= i < StripLen - 64 ==> f[i] != f[i + 64]
  {
    seq(StripLen, i => PoliceColor(i, c))
  }

  /** Railway: pixel `i` is black when `i + c` is odd, red otherwise. */
  function RailwayColor(i: int, c: int): (color: RGB)
    ensures color == Red || color == Black
    ensures color == Red <==> (i + c) % 2 == 0
  {
    if (i + c) % 2 != 0 then Black else Red
  }

  /** The whole strip in Railway's alternating pixels. */
  function RailwayFrame(c: int): (f: seq<RGB>)
    ensures |f| == StripLen
    ensures forall i :: 0 <= i < StripLen ==> f[i] == RailwayColor(i, c)
    ensures forall i :: 0 <= i < StripLen - 1 ==> f[i] != f[i + 1]
  {
    seq(StripLen, i => RailwayColor(i, c))
  }

  /** Rainbow's colour: the hue is the counter cast to `uint8_t`, saturation
      and value are full. */
  function RainbowColor(hsvToRgb: HSV -> RGB, c: int): (color: RGB)
    ensures 0 <= c < 256 ==> color == hsvToRgb(HSV(c as byte, 255, 255))
    ensures c == 256 ==> color == hsvToRgb(HSV(0, 255, 255))
  {
    hsvToRgb(HSV(ToByte(c), 255, 255))
  }

  /** Pong's five writes around position `pos`, in source order. */
  function PongFrame(before: seq<RGB>, pos: int): (after: seq<RGB>)
    requires |before| == StripLen
    ensures |after| == StripLen
    ensures forall i :: 0 <= i < StripLen ==>
      after[i] == if i == pos then Red else if pos - 2 <= i <= pos + 2 then Black else before[i]
  {
    Put(Put(Put(Put(Put(before, pos + 1, Black), pos + 2, Black), pos, Red), pos - 2, Black), pos - 1, Black)
  }

  /** Glitter's `pixelsToActivate`: five draws of the random source, each
      reduced modulo 256. */
  function Picks(draws: seq<nat>): (p: seq<int>)
    requires |draws| == 5
    ensures |p| == 5
    ensures forall k :: 0 <= k < 5 ==> 0 <= p[k] < StripLen && (draws[k] - p[k]) % StripLen == 0
  {
    seq(5, k requires 0 <= k < 5 => draws[k] % StripLen)
  }

  /** Some pick lands on pixel `i`. */
  predicate Hit(idx: seq<int>, i: int)
  {
    exists k :: 0 <= k < |idx| && idx[k] == i
  }

  /** Set every pixel listed in `idx`, first to last, to `color`. */
  function Paint(before: seq<RGB>, idx: seq<int>, color: RGB): (after: seq<RGB>)
    requires forall k :: 0 <= k < |idx| ==> 0 <= idx[k] < |before|
    ensures |after| == |before|
    ensures forall i :: 0 <= i < |before| ==> after[i] == if Hit(idx, i) then color else before[i]
    decreases |idx|
  {
    if idx == [] then before
    else
      var n := |idx| - 1;
      var painted := Paint(before, idx[..n], color);
      assert forall i :: Hit(idx, i) <==> Hit(idx[..n], i) || idx[n] == i by {
        forall i ensures Hit(idx, i) <==> Hit(idx[..n], i) || idx[n] == i {
          if Hit(idx, i) && idx[n] != i {
            var k :| 0 <= k < |idx| && idx[k] == i;
            assert idx[..n][k] == i;
          }
          if Hit(idx[..n], i) {
            var k :| 0 <= k < n && idx[..n][k] == i;
            assert idx[k] == i;
          }
        }
      }
      painted[idx[n] := color]
  }

  // ------------------------------------------------------------------ steps

  /** What the source computes outside the model: the floating-point
      brightness curves of Breathe and Fade, Pong's cosine position (each a
      function of the counter alone), and `hsv2rgb_rainbow`. */
  datatype Externals = Externals(
    breatheLevel: int -> int,
    fadeLevel: int -> int,
    pongPosition: int -> int,
    hsvToRgb: HSV -> RGB)

  /** One step: the counter afterwards, the frames `led_strip_flush` sends
      (the last of them is the strip afterwards) and the total delay in ms. */
  datatype StepResult = StepResult(counter: int, frames: seq<seq<RGB>>, delay: nat)

  /** A step of `id` from counter `c` on strip contents `before`, with
      `draws` the next five values of the random source. */
  function StepOf(id: AnimId, c: int, before: seq<RGB>, ext: Externals, draws: seq<nat>): (r: StepResult)
    requires |before| == StripLen && |draws| == 5
    ensures |r.frames| == if id == Glitter then 2 else 1
    ensures forall k :: 0 <= k < |r.frames| ==> |r.frames[k]| == StripLen
    ensures r.counter == Next(id, c)
    ensures r.delay >= 10
  {
    match id
    case Off => StepResult(Next(id, c), [Filled(Black)], 500)
    case Blink => StepResult(Next(id, c), [Filled(BlinkColor(c))], 500)
    case Breathe => StepResult(Next(id, c), [Filled(Grey(ext.breatheLevel(c)))], 10)
    case Chase => StepResult(Next(id, c), [ChaseFrame(before, c)], 20)
    case Fade => StepResult(Next(id, c), [Filled(Grey(ext.fadeLevel(c)))], 10)
    case Glitter =>
      var p := Picks(draws);
      var flash := Paint(before, p, White);
      StepResult(Next(id, c), [flash, Paint(flash, p, Black)], 60)
    case Police => StepResult(Next(id, c), [PoliceFrame(c)], 1000)
    case Pong => StepResult(Next(id, c), [PongFrame(before, ext.pongPosition(c))], 10)
    case Railway => StepResult(Next(id, c), [RailwayFrame(c)], 1000)
    case Rainbow => StepResult(Next(id, c), [Filled(RainbowColor(ext.hsvToRgb, c))], 10)
  }
}
