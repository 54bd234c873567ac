/**
 * The viewer's tuning constants (src/cfg.rs). The f32 constants are written
 * as the decimal values the source spells out; durations are milliseconds.
 */
module Config {

  const FRAME_MILLIS: nat := 50
  const GAMMA_CHANGE: real := 1.1
  const GAMMA_DEFAULT: real := 10.0
  const GAMMA_MIN: real := 1.0
  const GAMMA_MAX: real := 100.0
  const LOWRES_FACTOR: real := 0.2
  const LOWRES_MILLIS: nat := 500
  const POINTSIZE_CHANGE: real := 1.1
  const POINTSIZE_DEFAULT: real := 10.0
  const POINTSIZE_MIN: real := 2.0
  const POINTSIZE_MAX: real := 100.0
  const SCALE_MIN: real := 0.00000001
  const SCROLL_BASE: real := 1.1
  const SHOWBORDER_DEFAULT: bool := true

  /** The default gamma lies inside the range the N and M keys clamp to, which is positive. */
  lemma GammaDefaultInRange()
    ensures 0.0 < GAMMA_MIN <= GAMMA_DEFAULT <= GAMMA_MAX
  {
  }

  /** The default point size lies inside the range the J and K keys clamp to, which is positive. */
  lemma PointsizeDefaultInRange()
    ensures 0.0 < POINTSIZE_MIN <= POINTSIZE_DEFAULT <= POINTSIZE_MAX
  {
  }

  /** Both step factors exceed one, so a grow key grows and a shrink key shrinks until the clamp. */
  lemma ChangeFactorsGrow()
    ensures GAMMA_CHANGE > 1.0 && POINTSIZE_CHANGE > 1.0
  {
  }

  /** The zoom floor is positive, so every zoomed scale stays positive and divisible by. */
  lemma ScaleFloorPositive()
    ensures SCALE_MIN > 0.0
  {
  }

  /** The low-resolution target is a proper fraction of the window; the scroll base is positive. */
  lemma LowresAndScrollFactors()
    ensures 0.0 < LOWRES_FACTOR < 1.0
    ensures SCROLL_BASE > 0.0
  {
  }

  /** One frame is shorter than the debounce delay, so promotion to full resolution takes several quiet frames. */
  lemma FrameShorterThanDebounce()
    ensures 0 < FRAME_MILLIS < LOWRES_MILLIS
  {
  }
}
