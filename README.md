# LED strip animation controller

A Dafny model of the animation controller of an ESP32 LED-strip firmware
(`main/animcontroller.c`). The controller drives a 256-pixel WS2812 strip. It
keeps two pieces of module-level state: the selected animation
(`current_anim`, taken from a ten-entry table of step functions indexed by the
`animation_t` enum) and one frame counter (`animCounter`) that every animation
shares. `animctl_setAnim` resets the counter and selects an animation. The
main loop, which `animctl_init` starts as its own FreeRTOS task, calls the
selected step function forever. Each step writes pixels and flushes the strip
to the LEDs. Blink, Breathe, Chase, Fade, Police, Pong and Railway then
advance the counter with a post-increment-then-reset check
(`if ((animCounter++) > N) animCounter = 0;`) and sleep for their own delay
afterwards. Rainbow sleeps first and advances the counter after its sleep. Off
and Glitter sleep without touching the counter.

Files:

- `color.dfy`, module `Color`: `rgb_t` and `hsv_t` with 8-bit channels (a
  `byte` newtype, so every channel is in 0..255 by construction), the colours
  the animations use, and C's `int` to `uint8_t` conversion.
- `animations.dfy`, module `Animations`: the `AnimId` enum and the dispatch
  table, the counter rule of each animation (`Next`) and its period, the pixels
  each step writes, and `StepOf`, which gives one step's new counter, its
  flushed frames and its delay.
- `properties.dfy`, module `AnimProperties`: lemmas over several steps. They
  cover the counter's exact value after `k` steps, periodicity, Chase's sweep,
  Blink's colour cycle, Police's and Railway's alternation, Rainbow's repeated
  hue 0, and Glitter's flash and blank. After a switch the counter always
  starts again at 0. The frame a step shows owes nothing to the previous
  animation only for the seven animations that paint the whole strip. Chase,
  Glitter and Pong draw over what the previous animation left.
- `controller.dfy`, module `AnimController`: class `Controller`. It holds
  `counter`, `current`, the strip as an `array<RGB>` of length 256, and the log
  of flushed frames. It has one method per C step function, `SetAnim`, and
  `Step` (one iteration of the main loop). Each method's postcondition ties the
  new strip, counter and flushed frames to the functions of `Animations`.
  Three module-level methods drive a `Controller` the way the main loop and
  `animctl_setAnim` do: a run of Chase steps, a switch from Chase to Rainbow,
  and a switch to Off.

The counter ranges are the ones the code produces. Every `> N` check lets the
counter reach N+1 before the reset. So the ranges are: Blink 0..5, Breathe and
Fade 0..315, Chase 0..513, Pong 0..629, Rainbow 0..256, Police and Railway 0..1.
Off and Glitter never touch the counter. The source's comments ("reset after
314", "reset after 512", "reset after 628", "resets after 255") each put the
top of the range one lower. The model follows the code.
`RainbowHues` shows the visible effect: hue 0 is shown on two consecutive
steps. `ChaseExtraSteps` shows that Chase spends two extra frames re-blanking
pixels 0 and 1.

Wherever a step can be reached from, the counter stays in 0..629. Steps are
public C functions, so any step can run after any other. `Controller.Valid`
holds this bound. A second predicate, `InPeriod`, says the counter lies
within the current animation's period. `SetAnim` establishes it and `Step`
keeps it.

## Model

| member | source | states |
|---|---|---|
| `Color.ToByte` | main/animcontroller.c:366-369 | the `(uint8_t)` cast gives the one byte congruent to the int modulo 256, the int itself when it is in 0..255 |
| `Color.Grey` | main/animcontroller.c:127-131 | Breathe's and Fade's colour carries the level cast to `uint8_t` on all three channels, the level itself when it is in 0..255 |
| `Animations.Ordinal` | main/animcontroller.h:5-17 | every enum value is below 10 |
| `Animations.AnimationAt` | main/animcontroller.c:39-49 | the table entry at index `anim` is the animation whose enum value is `anim` |
| `Animations.PostIncrementReset` | main/animcontroller.c:112-115 | `if ((animCounter++) > n) animCounter = 0;` leaves 0 or the old value plus one; started in 0..n+1 it counts modulo n + 2 and stays in 0..n+1 |
| `Animations.Next` | main/animcontroller.c:100-385 | within an animation's period, the `(animCounter++) > N` reset counts modulo the period (6, 316, 514, 2, 630, 257); from any counter in 0..629 every step stays in 0..629; Off and Glitter leave the counter as it is |
| `Animations.Filled` | main/animcontroller.c:91 | filling from 0 to `strip.length` sets all 256 pixels to the colour |
| `Animations.Put` | main/animcontroller.c:301-306 | a pixel write changes only the pixel it names, and no pixel at all when the index is outside 0..255 |
| `Animations.BlinkColor` | main/animcontroller.c:103-106 | Blink is red at counter 0, green at 2, blue at 4 and black at every other counter |
| `Animations.ChaseColor` | main/animcontroller.c:151-154 | Chase's colour is red exactly when the counter is below 256 and black exactly when it is 256 or more |
| `Animations.ChaseFrame` | main/animcontroller.c:150-156 | Chase changes exactly pixel `counter % 256`, which is always in 0..255: red when the counter is below 256, black otherwise; every other pixel is unchanged |
| `Animations.PoliceColor` | main/animcontroller.c:257-266 | a Police pixel is red or blue, blue exactly when its 64-pixel band number plus the counter is odd |
| `Animations.PoliceFrame` | main/animcontroller.c:253-267 | all 256 pixels take Police's colour for the counter, and pixels 64 apart always differ |
| `Animations.RailwayColor` | main/animcontroller.c:339-346 | a Railway pixel is red or black, red exactly when its index plus the counter is even |
| `Animations.RailwayFrame` | main/animcontroller.c:335-347 | all 256 pixels take Railway's colour for the counter, and neighbouring pixels always differ |
| `Animations.RainbowColor` | main/animcontroller.c:366-372 | below 256 the counter is the hue itself at full saturation and value; counter 256 wraps to hue 0 |
| `Animations.PongFrame` | main/animcontroller.c:301-306 | Pong's pixel at the position is red, the two pixels on each side are black, nothing else changes, and nothing outside the strip is written |
| `Animations.Picks` | main/animcontroller.c:211-217 | Glitter's five indices are each in 0..255 and congruent to their random draw modulo 256 |
| `Animations.Paint` | main/animcontroller.c:219-231 | writing a colour at a list of indices sets exactly the listed pixels to that colour and leaves all others as they were |
| `Animations.StepOf` | main/animcontroller.c:82-385 | a step sends one frame of 256 pixels, two for Glitter; its counter is the animation's counter rule; it asks for at least 10 ms |
| `AnimProperties.TableMatchesEnum` | main/animcontroller.c:39-49 | every enum value finds its own animation in the table, so the table is complete and in header order |
| `AnimProperties.CounterAfterSteps` | main/animcontroller.c:64-69 | `k` steps after `animctl_setAnim(id)` the counter is `k` modulo the period of `id` |
| `AnimProperties.CounterRepeats` | main/animcontroller.c:100-385 | the counter after `k` steps lies in the period, and stepping one more whole period returns it to the same value |
| `AnimProperties.BlinkCycle` | main/animcontroller.c:102-115 | Blink shows red, black, green, black, blue, black, over and over |
| `AnimProperties.ChaseRunIsSteps` | main/animcontroller.c:148-168 | the Chase run used by the sweep lemmas is the sequence of Chase steps: step `k + 1` is the step taken at the counter and strip the first `k` left |
| `AnimProperties.ChaseSweepsRed` | main/animcontroller.c:147-164 | during the first 256 steps Chase turns pixels 0, 1, 2, ... red one at a time and leaves the rest untouched |
| `AnimProperties.ChaseSweepsBlack` | main/animcontroller.c:147-164 | during steps 256..511 it turns them black again in the same order |
| `AnimProperties.ChaseFillsThenClears` | main/animcontroller.c:147-156 | whatever the strip held, it is all red after 256 steps and all black after 512 |
| `AnimProperties.ChaseExtraSteps` | main/animcontroller.c:159-164 | the `> 512` check lets counters 512 and 513 through, which blank an already black strip; after 514 steps the counter is back at 0 on a black strip |
| `AnimProperties.PoliceBands` | main/animcontroller.c:252-267 | at counter 0 pixels 0..63 and 128..191 are red and the other two 64-pixel bands blue |
| `AnimProperties.PoliceFramesSwap` | main/animcontroller.c:253-276 | every Police pixel is red or blue, and consecutive frames swap red and blue on every pixel |
| `AnimProperties.RailwayEvenPixels` | main/animcontroller.c:334-347 | at counter 0 the even pixels are red and the odd ones black |
| `AnimProperties.RailwayFramesSwap` | main/animcontroller.c:335-355 | every Railway pixel is red or black, and consecutive frames swap them on every pixel |
| `AnimProperties.RainbowHues` | main/animcontroller.c:366-385 | `k` steps after selection the hue is `k` modulo 257 cast to a byte, so hue 0 is shown twice in a row (counter 256, then 0) |
| `AnimProperties.GlitterFlashesThenBlanks` | main/animcontroller.c:211-234 | Glitter's first frame has its five picks white, its second has them black; every other pixel and the counter are untouched; it sleeps 10 + 50 ms |
| `AnimProperties.FullFrameStepsIgnoreStrip` | main/animcontroller.c:82-385 | every animation except Chase, Glitter and Pong repaints the whole strip, so its frame depends on the counter alone and not on what the previous animation left |
| `AnimController.Controller.constructor` | main/animcontroller.c:25-52 | the controller starts with Off selected, counter 0 and nothing flushed |
| `AnimController.Controller.SetAnim` | main/animcontroller.c:64-69 | resets the counter to 0 and selects the table entry `anim`; the strip is not touched; the counter is then within the new animation's period |
| `AnimController.Controller.SetPixel` | main/animcontroller.c:156 | `led_strip_set_pixel` changes only the pixel it names, and none when the index is outside the strip |
| `AnimController.Controller.Fill` | main/animcontroller.c:91 | `led_strip_fill` over the whole strip sets every pixel to the colour |
| `AnimController.Controller.Flush` | main/animcontroller.c:93 | `led_strip_flush` sends the strip exactly as it is now, after everything flushed before |
| `AnimController.Controller.PaintPixels` | main/animcontroller.c:220-223 | Glitter's loop sets exactly the listed pixels to the colour and leaves the others as they were |
| `AnimController.Controller.AdvanceCounter` | main/animcontroller.c:111-115 | the post-increment and reset leave the counter at 0 when it was above `n`, one higher otherwise |
| `AnimController.Controller.AnimOff` | main/animcontroller.c:82-97 | fills the strip black, flushes it and returns 500 ms; the counter is not touched |
| `AnimController.Controller.AnimBlink` | main/animcontroller.c:100-119 | fills the strip with Blink's colour for the counter, flushes it, advances the counter by Blink's rule and returns 500 ms |
| `AnimController.Controller.AnimBreathe` | main/animcontroller.c:122-145 | fills the strip with the grey of the breathing curve at the counter, flushes it, advances the counter by the 314 rule and returns 10 ms |
| `AnimController.Controller.AnimChase` | main/animcontroller.c:148-168 | writes Chase's one pixel, flushes, advances the counter by the 512 rule and returns 20 ms |
| `AnimController.Controller.AnimFade` | main/animcontroller.c:171-194 | fills the strip with the grey of the fade curve at the counter, flushes it, advances the counter by the 314 rule and returns 10 ms |
| `AnimController.Controller.AnimGlitter` | main/animcontroller.c:197-235 | paints the five picks white and flushes, then paints them black and flushes; the counter is not touched; returns 60 ms |
| `AnimController.Controller.AnimPolice` | main/animcontroller.c:238-280 | sets all 256 pixels to Police's band colours for the counter, flushes, toggles the counter and returns 1000 ms |
| `AnimController.Controller.AnimPong` | main/animcontroller.c:283-317 | makes Pong's five writes around the curve's position, flushes, advances the counter by the 628 rule and returns 10 ms |
| `AnimController.Controller.AnimRailway` | main/animcontroller.c:320-359 | sets all 256 pixels to Railway's parity colours for the counter, flushes, toggles the counter and returns 1000 ms |
| `AnimController.Controller.AnimRainbow` | main/animcontroller.c:362-386 | fills the strip with the counter's hue at full saturation and value, flushes, returns 10 ms and advances the counter by the 255 rule |
| `AnimController.Controller.Step` | main/animcontroller.c:73-79 | one main-loop iteration runs the selected animation: the new counter, flushed frames, strip and delay are those of `StepOf`, and a counter within the current period stays within it |
| `AnimController.RunChase` | main/animcontroller.c:64-79 | after `animctl_setAnim(Chase)` and `n` main-loop iterations the counter and strip are those of the first `n` Chase steps |
| `AnimController.ChaseThenRainbow` | main/animcontroller.c:64-79 | after a Chase run of any length, selecting Rainbow and running one iteration leaves the counter at 1, fills the strip with hue 0 and waits 10 ms, whatever Chase left |
| `AnimController.SwitchOff` | main/animcontroller.c:64-97 | selecting Off from any state and running one iteration sends an all-black strip, keeps the counter at 0 and waits 500 ms |

## Left out

- `animctl_init`, `led_strip_install`, `led_strip_init` and `xTaskCreate` (main/animcontroller.c:56-62): driver and task setup, not modelled.
- The endless `while (1)` of `animctl_mainLoop`: `Step` models one iteration of it.
- `vTaskDelay`: each step returns the milliseconds it sleeps instead. Glitter's two sleeps are returned as their sum, 10 + 50.
- `led_strip_flush`: the model records the flushed strip contents in `flushed`. The transmission itself and the driver's global brightness of 30 are not modelled.
- `AnimController.Controller.AnimBreathe`: the sine curve `100.0 * sin(animCounter / 50.0) + 155.0` is floating point. It is the field `breatheLevel` of `Externals`, a function of the counter with unknown values, so its range (about 55..255) is not stated.
- `AnimController.Controller.AnimFade`: likewise, the curve `127.5 * sin(animCounter / 50.0) + 127.5` is the field `fadeLevel`, so its range 0..255 is not stated.
- `AnimController.Controller.AnimPong`: the cosine position `128.0 * cos(animCounter / 100.0) + 128.0` is the field `pongPosition`, so its range 0..256 is not stated. The model writes only pixels inside the strip, as `Put` states. What the driver does with an index outside 0..255 (Pong at positions 0, 1, 255 and 256) is not part of this model.
- `hsv2rgb_rainbow` (components/color/hsv2rgb.h:6): only its declaration exists, so it is the field `hsvToRgb` of `Externals` with unknown values.
- `esp_random`: the hardware random source. Its five values are the parameter `draws` of `AnimGlitter` and `Step`. Their distribution is not modelled.
- `SetAnim` requires `0 <= anim < 10`. The C function indexes `animations[anim]` with no check, so any other index is undefined behaviour in C.
- 32-bit overflow of `animCounter` is not modelled. It cannot happen, because `Valid` keeps the counter in 0..629.
- Concurrency: `animctl_init` starts `animctl_mainLoop` as its own FreeRTOS task (main/animcontroller.c:61), while `app_main` calls `animctl_setAnim` from the start-up task (main/main.c:15-18). Nothing synchronises the two, and `animctl_setAnim` is two separate writes.
- `AnimController.Controller.Step` treats a step as atomic, and `SetAnim` runs only between steps. A switch that lands inside a step is not modelled. For example, a switch during Rainbow's 10 ms sleep is followed by Rainbow's counter increment, so the new animation starts at counter 1 rather than 0.
- `app_main` in main/main.c only calls `animctl_init` and `animctl_setAnim(ANIM_RAINBOW)`. It is not modelled as a member; `ChaseThenRainbow` shows the switch to Rainbow it performs.
