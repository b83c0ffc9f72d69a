/** Where a frame places its rectangles on the canvas. */
module Geometry {
  import opened SpectrumTypes

  /** The fixed ceiling values are scaled against; bytes stop at 255, so the
      top of the canvas is never quite reached. */
  const Ceiling: real := 270.0

  /** The y coordinate of sampled magnitude `value`: 0 maps to the bottom of
      the drawable area and the ceiling to the top. */
  function MeterY(cfg: Config, value: int): (y: real)
    ensures value == 0 ==> y == cfg.DrawableHeight()
    ensures value == 270 ==> y == 0.0
  {
    (Ceiling - value as real) * cfg.DrawableHeight() / Ceiling
  }

  /** Magnitude 0 sits at the bottom of the drawable area and the ceiling at
      the top of the canvas, whatever the cap height. */
  lemma MeterYEnds(cfg: Config)
    ensures MeterY(cfg, 0) == cfg.DrawableHeight()
    ensures MeterY(cfg, 270) == 0.0
  {
    assert MeterY(cfg, 0) == Ceiling * cfg.DrawableHeight() / Ceiling;
  }

  /** The left edge of bar `i`. */
  function BarX(cfg: Config, i: nat): (x: real)
    ensures i == 0 ==> x == 0.0
    ensures cfg.meterWidth + cfg.gap >= 0.0 ==> x >= 0.0
  {
    var pitch := cfg.meterWidth + cfg.gap;
    if pitch >= 0.0 then
      NonNegativeProduct(i as real, pitch);
      i as real * pitch
    else
      i as real * pitch
  }

  /** A higher value is drawn no lower, when the drawable height is not negative. */
  lemma MeterYNonIncreasing(cfg: Config, a: int, b: int)
    requires cfg.DrawableHeight() >= 0.0 && a <= b
    ensures MeterY(cfg, b) <= MeterY(cfg, a)
  {
    var h := cfg.DrawableHeight();
    var above := (Ceiling - a as real) * h;
    var below := (Ceiling - b as real) * h;
    assert MeterY(cfg, a) == above / Ceiling;
    assert MeterY(cfg, b) == below / Ceiling;
    assert below <= above by {
      assert above - below == (b - a) as real * h;
      NonNegativeProduct((b - a) as real, h);
    }
    assert above / Ceiling - below / Ceiling == (above - below) / Ceiling;
  }

  lemma NonNegativeProduct(x: real, y: real)
    requires x >= 0.0 && y >= 0.0
    ensures x * y >= 0.0
  {
  }

  /** A byte value lands inside the drawable area. */
  lemma MeterYWithinDrawable(cfg: Config, value: Byte)
    requires cfg.DrawableHeight() >= 0.0
    ensures 0.0 <= MeterY(cfg, value) <= cfg.DrawableHeight()
  {
    MeterYNonIncreasing(cfg, 0, value);
    MeterYNonIncreasing(cfg, value, 270);
  }

  /** With a non-negative gap, bar i ends no further right than bar i+1 begins. */
  lemma BarsLeftToRight(cfg: Config, i: nat)
    requires cfg.gap >= 0.0
    ensures BarX(cfg, i) + cfg.meterWidth <= BarX(cfg, i + 1)
  {
    assert BarX(cfg, i + 1) == BarX(cfg, i) + cfg.meterWidth + cfg.gap;
  }
}
