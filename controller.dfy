/** The animation controller of main/animcontroller.c: the selected
    animation, the one frame counter all animations share, and the strip's
    pixels, changed in place by one step method per animation. Each method
    is proved against the definitions in animations.dfy. */
module AnimController {
  import opened Color
  import opened Animations
  import opened AnimProperties

  class Controller {
    /** The pixels of the strip, as the driver holds them. */
    const strip: array<RGB>
    /** The floating-point curves and the colour conversion. */
    const ext: Externals
    /** `animCounter`. */
    var counter: int
    /** `current_anim`, named by the table entry it was taken from. */
    var current: AnimId
    /** Every frame `led_strip_flush` has sent to the LEDs, oldest first. */
    var flushed: seq<seq<RGB>>

    /** A 256-pixel strip and a counter no step can push past Pong's reset
        point, whichever animation runs. */
    ghost predicate Valid()
      reads this
    {
      strip.Length == StripLen && 0 <= counter <= MaxCounter
    }

    /** The counter is one the current animation reaches after a reset. */
    ghost predicate InPeriod()
      reads this
    {
      0 <= counter < Period(current)
    }

    /** The initial state: Off selected, counter 0, nothing sent yet. */
    constructor (strip: array<RGB>, ext: Externals)
      requires strip.Length == StripLen
      ensures this.strip == strip && this.ext == ext
      ensures counter == 0 && current == Off && flushed == []
      ensures Valid() && InPeriod()
    {
      this.strip := strip;
      this.ext := ext;
      counter := 0;
      current := Off;
      flushed := [];
    }

    /** `animctl_setAnim`: reset the counter and select `animations[anim]`.
        The strip is not touched. */
    method SetAnim(anim: int)
      requires Valid() && 0 <= anim < |Table|
      modifies this`counter, this`current
      ensures Valid() && InPeriod()
      ensures counter == 0 && current == AnimationAt(anim) && Ordinal(current) == anim
    {
      counter := 0;
      current := Table[anim];
    }

    /** `led_strip_set_pixel`. */
    method SetPixel(i: int, color: RGB)
      requires strip.Length == StripLen
      modifies strip
      ensures strip[..] == Put(old(strip[..]), i, color)
      ensures forall j :: 0 <= j < StripLen ==> strip[j] == if j == i then color else old(strip[j])
    {
      if 0 <= i < strip.Length {
        strip[i] := color;
      }
    }

    /** `led_strip_fill(&strip, 0, strip.length, color)`. */
    method Fill(color: RGB)
      requires strip.Length == StripLen
      modifies strip
      ensures strip[..] == Filled(color)
    {
      for i := 0 to strip.Length
        invariant forall j :: 0 <= j < i ==> strip[j] == color
      {
        strip[i] := color;
      }
    }

    /** `led_strip_flush`: send the strip as it is now. */
    method Flush()
      modifies this`flushed
      ensures flushed == old(flushed) + [strip[..]]
    {
      flushed := flushed + [strip[..]];
    }

    /** `if ((animCounter++) > n) animCounter = 0;` */
    method AdvanceCounter(n: int)
      modifies this`counter
      ensures counter == PostIncrementReset(old(counter), n)
    {
      var was := counter;
      counter := counter + 1;
      if was > n {
        counter := 0;
      }
    }

    /** `animOff`: all black, counter untouched, 500 ms. */
    method AnimOff() returns (delay: nat)
      requires Valid()
      modifies this`flushed, strip
      ensures Valid()
      ensures strip[..] == Filled(Black) && flushed == old(flushed) + [strip[..]]
      ensures delay == 500
    {
      Fill(Black);
      Flush();
      delay := 500;
    }

    /** `animBlink`: red, green or blue at counter 0, 2 or 4, black
        otherwise; the counter runs 0 to 5. */
    method AnimBlink() returns (delay: nat)
      requires Valid()
      modifies this`counter, this`flushed, strip
      ensures Valid()
      ensures strip[..] == Filled(BlinkColor(old(counter))) && flushed == old(flushed) + [strip[..]]
      ensures counter == Next(Blink, old(counter))
      ensures delay == 500
    {
      Fill(BlinkColor(counter));
      Flush();
      AdvanceCounter(4);
      delay := 500;
    }

    /** `animBreathe`: a grey at the curve's level; counter runs 0 to 315. */
    method AnimBreathe() returns (delay: nat)
      requires Valid()
      modifies this`counter, this`flushed, strip
      ensures Valid()
      ensures strip[..] == Filled(Grey(ext.breatheLevel(old(counter)))) && flushed == old(flushed) + [strip[..]]
      ensures counter == Next(Breathe, old(counter))
      ensures delay == 10
    {
      var value := ext.breatheLevel(counter);
      Fill(Grey(value));
      Flush();
      AdvanceCounter(314);
      delay := 10;
    }

    /** `animChase`: one pixel, red below counter 256 and black from there;
        counter runs 0 to 513. */
    method AnimChase() returns (delay: nat)
      requires Valid()
      modifies this`counter, this`flushed, strip
      ensures Valid()
      ensures strip[..] == ChaseFrame(old(strip[..]), old(counter)) && flushed == old(flushed) + [strip[..]]
      ensures counter == Next(Chase, old(counter))
      ensures delay == 20
    {
      SetPixel(counter % StripLen, ChaseColor(counter));
      Flush();
      AdvanceCounter(512);
      delay := 20;
    }

    /** `animFade`: as Breathe, with the fade curve. */
    method AnimFade() returns (delay: nat)
      requires Valid()
      modifies this`counter, this`flushed, strip
      ensures Valid()
      ensures strip[..] == Filled(Grey(ext.fadeLevel(old(counter)))) && flushed == old(flushed) + [strip[..]]
      ensures counter == Next(Fade, old(counter))
      ensures delay == 10
    {
      var value := ext.fadeLevel(counter);
      Fill(Grey(value));
      Flush();
      AdvanceCounter(314);
      delay := 10;
    }

    /** Glitter's loop over `pixelsToActivate`: set each listed pixel to
        `color`, first to last. */
    method PaintPixels(pixels: seq<int>, color: RGB)
      requires strip.Length == StripLen
      requires forall k :: 0 <= k < |pixels| ==> 0 <= pixels[k] < StripLen
      modifies strip
      ensures strip[..] == Paint(old(strip[..]), pixels, color)
    {
      for i := 0 to |pixels|
        invariant strip[..] == Paint(old(strip[..]), pixels[..i], color)
      {
        SetPixel(pixels[i], color);
        assert pixels[..i + 1][..i] == pixels[..i];
      }
      assert pixels[..|pixels|] == pixels;
    }

    /** `animGlitter`: five random pixels white, send, the same five black,
        send; the counter is untouched. `draws` are the five values
        `esp_random` returns. */
    method AnimGlitter(draws: seq<nat>) returns (delay: nat)
      requires Valid() && |draws| == 5
      modifies this`flushed, strip
      ensures Valid()
      ensures var pixels := Picks(draws);
        var flash := Paint(old(strip[..]), pixels, White);
        strip[..] == Paint(flash, pixels, Black) && flushed == old(flushed) + [flash, strip[..]]
      ensures delay == 60
    {
      var pixels := [draws[0] % StripLen, draws[1] % StripLen, draws[2] % StripLen,
                     draws[3] % StripLen, draws[4] % StripLen];
      assert pixels == Picks(draws);
      PaintPixels(pixels, White);
      Flush();
      PaintPixels(pixels, Black);
      Flush();
      delay := 10 + 50;
    }

    /** `animPolice`: 64-pixel bands alternately red and blue, swapping
        every step; counter toggles between 0 and 1. */
    method AnimPolice() returns (delay: nat)
      requires Valid()
      modifies this`counter, this`flushed, strip
      ensures Valid()
      ensures strip[..] == PoliceFrame(old(counter)) && flushed == old(flushed) + [strip[..]]
      ensures counter == Next(Police, old(counter))
      ensures delay == 1000
    {
      for i := 0 to StripLen
        invariant forall j :: 0 <= j < i ==> strip[j] == PoliceColor(j, counter)
        modifies strip
      {
        if ((i / 64) + counter) % 2 != 0 {
          SetPixel(i, Blue);
        } else {
          SetPixel(i, Red);
        }
      }
      Flush();
      var was := counter;
      counter := counter + 1;
      if was >= 1 {
        counter := 0;
      }
      delay := 1000;
    }

    /** `animPong`: red at the curve's position, black on the two pixels to
        either side; counter runs 0 to 629. */
    method AnimPong() returns (delay: nat)
      requires Valid()
      modifies this`counter, this`flushed, strip
      ensures Valid()
      ensures strip[..] == PongFrame(old(strip[..]), ext.pongPosition(old(counter)))
      ensures flushed == old(flushed) + [strip[..]]
      ensures counter == Next(Pong, old(counter))
      ensures delay == 10
    {
      var value := ext.pongPosition(counter);
      SetPixel(value + 1, Black);
      SetPixel(value + 2, Black);
      SetPixel(value, Red);
      SetPixel(value - 2, Black);
      SetPixel(value - 1, Black);
      Flush();
      AdvanceCounter(628);
      delay := 10;
    }

    /** `animRailway`: even and odd pixels alternately red and black,
        swapping every step; counter toggles between 0 and 1. */
    method AnimRailway() returns (delay: nat)
      requires Valid()
      modifies this`counter, this`flushed, strip
      ensures Valid()
      ensures strip[..] == RailwayFrame(old(counter)) && flushed == old(flushed) + [strip[..]]
      ensures counter == Next(Railway, old(counter))
      ensures delay == 1000
    {
      for i := 0 to StripLen
        invariant forall j :: 0 <= j < i ==> strip[j] == RailwayColor(j, counter)
        modifies strip
      {
        if (i + counter) % 2 != 0 {
          SetPixel(i, Black);
        } else {
          SetPixel(i, Red);
        }
      }
      Flush();
      var was := counter;
      counter := counter + 1;
      if was >= 1 {
        counter := 0;
      }
      delay := 1000;
    }

    /** `animRainbow`: the whole strip in the counter's hue at full
        saturation and value; counter runs 0 to 256. Unlike the other
        animations, it sets its delay before it advances the counter. */
    method AnimRainbow() returns (delay: nat)
      requires Valid()
      modifies this`counter, this`flushed, strip
      ensures Valid()
      ensures strip[..] == Filled(RainbowColor(ext.hsvToRgb, old(counter))) && flushed == old(flushed) + [strip[..]]
      ensures counter == Next(Rainbow, old(counter))
      ensures delay == 10
    {
      var hsvValue := HSV(ToByte(counter), 255, 255);
      Fill(ext.hsvToRgb(hsvValue));
      Flush();
      delay := 10;
      AdvanceCounter(255);
    }

    /** One iteration of `animctl_mainLoop`: run the current animation once.
        A counter within the current animation's period stays within it. */
    method Step(draws: seq<nat>) returns (delay: nat)
      requires Valid() && |draws| == 5
      modifies this`counter, this`flushed, strip
      ensures Valid()
      ensures var r := StepOf(current, old(counter), old(strip[..]), ext, draws);
        counter == r.counter && delay == r.delay &&
        flushed == old(flushed) + r.frames && strip[..] == r.frames[|r.frames| - 1]
      ensures old(InPeriod()) ==> InPeriod()
    {
      match current
      case Off => delay := AnimOff();
      case Blink => delay := AnimBlink();
      case Breathe => delay := AnimBreathe();
      case Chase => delay := AnimChase();
      case Fade => delay := AnimFade();
      case Glitter => delay := AnimGlitter(draws);
      case Police => delay := AnimPolice();
      case Pong => delay := AnimPong();
      case Railway => delay := AnimRailway();
      case Rainbow => delay := AnimRainbow();
    }
  }

  /** `animctl_setAnim(Chase)` followed by `n` iterations of the main loop:
      the counter and the strip are those of the first `n` Chase steps. */
  method RunChase(ctl: Controller, n: nat, draws: seq<nat>)
    requires ctl.Valid() && |draws| == 5
    modifies ctl`counter, ctl`current, ctl`flushed, ctl.strip
    ensures ctl.Valid() && ctl.current == Chase
    ensures ctl.counter == CounterAfter(Chase, n)
    ensures ctl.strip[..] == ChaseRun(old(ctl.strip[..]), n)
  {
    ctl.SetAnim(3);
    for k := 0 to n
      invariant ctl.Valid() && ctl.current == Chase
      invariant ctl.counter == CounterAfter(Chase, k)
      invariant ctl.strip[..] == ChaseRun(old(ctl.strip[..]), k)
    {
      var _ := ctl.Step(draws);
    }
  }

  /** A switch from a Chase run of any length to Rainbow, between two
      iterations of the main loop: the counter starts afresh, and the first
      Rainbow step fills the strip with hue 0 and waits 10 ms, whatever the
      Chase run left behind. */
  method ChaseThenRainbow(ctl: Controller, n: nat, draws: seq<nat>) returns (delay: nat)
    requires ctl.Valid() && |draws| == 5
    modifies ctl`counter, ctl`current, ctl`flushed, ctl.strip
    ensures ctl.Valid() && ctl.current == Rainbow && ctl.counter == 1
    ensures ctl.strip[..] == Filled(ctl.ext.hsvToRgb(HSV(0, 255, 255)))
    ensures |ctl.flushed| >= 1 && ctl.flushed[|ctl.flushed| - 1] == ctl.strip[..]
    ensures delay == 10
  {
    RunChase(ctl, n, draws);
    ctl.SetAnim(9);
    delay := ctl.Step(draws);
  }

  /** Selecting Off from any state: the next iteration of the main loop
      sends an all-black strip, keeps the counter at 0 and waits 500 ms. */
  method SwitchOff(ctl: Controller, draws: seq<nat>) returns (delay: nat)
    requires ctl.Valid() && |draws| == 5
    modifies ctl`counter, ctl`current, ctl`flushed, ctl.strip
    ensures ctl.Valid() && ctl.current == Off && ctl.counter == 0
    ensures ctl.strip[..] == Filled(Black) && ctl.flushed == old(ctl.flushed) + [Filled(Black)]
    ensures delay == 500
  {
    ctl.SetAnim(0);
    delay := ctl.Step(draws);
  }
}
