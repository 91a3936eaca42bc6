/** Pixel colours as the LED strip driver and the colour library see them:
    `rgb_t` and `hsv_t`, three 8-bit channels each. */
module Color {

  /** An 8-bit unsigned channel magnitude (`uint8_t`). */
  newtype byte = x: int | 0 <= x < 256

  /** `rgb_t`: one pixel. */
  datatype RGB = RGB(r: byte, g: byte, b: byte)

  /** `hsv_t`: hue, saturation and value. */
  datatype HSV = HSV(h: byte, s: byte, v: byte)

  const Black := RGB(0, 0, 0)
  const White := RGB(255, 255, 255)
  const Red := RGB(255, 0, 0)
  const Green := RGB(0, 255, 0)
  const Blue := RGB(0, 0, 255)

  /** C's conversion of an `int` to `uint8_t`: the one byte congruent to `v`
      modulo 256. */
  function ToByte(v: int): (b: byte)
    ensures (v - b as int) % 256 == 0
    ensures 0 <= v < 256 ==> b as int == v
  {
    (v % 256) as byte
  }

  /** A grey level: the same magnitude, cast to `uint8_t`, on all three channels. */
  function Grey(v: int): (c: RGB)
    ensures c.r == c.g == c.b == ToByte(v)
    ensures 0 <= v < 256 ==> c.r as int == v
  {
    RGB(ToByte(v), ToByte(v), ToByte(v))
  }
}
