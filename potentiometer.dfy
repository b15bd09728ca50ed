/** The potentiometer-to-brightness scaling done by `loop()` on every pass. */
module Potentiometer {

  /** A reading of the 10-bit analog-to-digital converter, as `analogRead` returns it. */
  type AdcSample = x: int | 0 <= x <= 1023

  /** `map(raw, 0, 1023, 0, 255)`: Arduino's `(x - inMin) * (outMax - outMin) / (inMax - inMin) + outMin`
      with C division, which truncates; on these non-negative operands that is the floor. */
  function Brightness(raw: AdcSample): (b: int)
    ensures 0 <= b <= 255
    // b is the largest level whose share of the full scale does not exceed raw's
    ensures b * 1023 <= raw * 255 < (b + 1) * 1023
  {
    (raw - 0) * (255 - 0) / (1023 - 0) + 0
  }

  /** Turning the potentiometer up never dims the lights. */
  lemma BrightnessMonotone(x: AdcSample, y: AdcSample)
    requires x <= y
    ensures Brightness(x) <= Brightness(y)
  {
  }

  /** The end points and the midpoint of the scale. */
  lemma BrightnessLandmarks()
    ensures Brightness(0) == 0
    ensures Brightness(1023) == 255
    ensures Brightness(512) == 127
  {
  }
}
