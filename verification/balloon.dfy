/** Balloons: creation, the hit test, and the per-frame update with its reset. */
module Balloons {
  import opened Colors
  import opened RandomDraws

  /** One balloon. `exploding` is set by a pop and cleared by the next reset. The derived
      display colour (base colour with alpha) is not kept. */
  datatype Balloon = Balloon(x: real, y: real, diameter: real, color: Color, alpha: real,
                             speed: real, noiseOffset: real, exploding: bool)

  /** The random inputs of one creation or reset, one unit draw per attribute. */
  datatype BalloonDraw = BalloonDraw(color: real, diameter: real, alpha: real, x: real,
                                     y: real, speed: real, noiseOffset: real)

  predicate ValidBalloonDraw(d: BalloonDraw)
  {
    IsUnit(d.color) && IsUnit(d.diameter) && IsUnit(d.alpha) && IsUnit(d.x) &&
    IsUnit(d.y) && IsUnit(d.speed) && IsUnit(d.noiseOffset)
  }

  /** The attribute ranges every creation and reset samples from: diameter and alpha in
      [50, 200), speed in [-3, -0.5) (upwards), noise offset in [0, 1000). */
  predicate FreshAttributes(b: Balloon)
  {
    50.0 <= b.diameter < 200.0 && 50.0 <= b.alpha < 200.0 &&
    -3.0 <= b.speed < -0.5 && 0.0 <= b.noiseOffset < 1000.0
  }

  /** What holds of a balloon at all times: its size, opacity and speed stay in their
      ranges, and the noise offset only grows. */
  predicate WellFormed(b: Balloon)
  {
    50.0 <= b.diameter < 200.0 && 50.0 <= b.alpha < 200.0 &&
    -3.0 <= b.speed < -0.5 && 0.0 <= b.noiseOffset
  }

  /** x lies in the horizontal span random(d/2, width - d/2) draws from. */
  predicate XWithin(x: real, d: real, width: real)
  {
    Min(d / 2.0, width - d / 2.0) <= x &&
    (d / 2.0 != width - d / 2.0 ==> x < Max(d / 2.0, width - d / 2.0))
  }

  function PickColor(u: real): Color
    requires IsUnit(u)
  {
    Palette[RandomIndex(u, |Palette|)]
  }

  /** Circle constructor: diameter first, then x from the NEW diameter, y below the bottom
      edge by 100 to 600. */
  function NewBalloon(d: BalloonDraw, width: real, height: real): (b: Balloon)
    requires ValidBalloonDraw(d)
    ensures FreshAttributes(b) && WellFormed(b) && !b.exploding
    ensures XWithin(b.x, b.diameter, width)
    ensures height + 100.0 <= b.y < height + 600.0
  {
    var diameter := Random(d.diameter, 50.0, 200.0);
    Balloon(x := Random(d.x, diameter / 2.0, width - diameter / 2.0),
            y := Random(d.y, height + 100.0, height + 600.0),
            diameter := diameter,
            color := PickColor(d.color),
            alpha := Random(d.alpha, 50.0, 200.0),
            speed := Random(d.speed, -3.0, -0.5),
            noiseOffset := RandomUpTo(d.noiseOffset, 1000.0),
            exploding := false)
  }

  /** Circle.contains: the squared distance from the centre is below the squared radius. */
  predicate Contains(b: Balloon, px: real, py: real)
  {
    (px - b.x) * (px - b.x) + (py - b.y) * (py - b.y) < (b.diameter / 2.0) * (b.diameter / 2.0)
  }

  /** The squared test agrees with the sketch's `dist(...) < diameter / 2` for the distance
      d >= 0 whose square is the squared distance: the point is contained exactly when it is
      strictly closer than the radius. */
  lemma ContainsIsDistanceTest(b: Balloon, px: real, py: real, d: real)
    requires b.diameter >= 0.0
    requires d >= 0.0 && d * d == (px - b.x) * (px - b.x) + (py - b.y) * (py - b.y)
    ensures Contains(b, px, py) <==> d < b.diameter / 2.0
  {
    var r := b.diameter / 2.0;
    if d < r {
      SquareMonotone(d, r);
    } else if r < d {
      SquareMonotone(r, d);
    }
  }

  /** For non-negative reals, x < y implies x * x < y * y. */
  lemma SquareMonotone(x: real, y: real)
    requires 0.0 <= x < y
    ensures x * x < y * y
  {
    var below, between, above := x * x, x * y, y * y;
    assert below <= between;
    assert between < above;
  }

  /** A point exactly on the rim is not contained; the centre of any balloon with positive
      diameter is. */
  lemma RimAndCentre(b: Balloon, px: real, py: real)
    requires b.diameter > 0.0
    ensures (px - b.x) * (px - b.x) + (py - b.y) * (py - b.y) == (b.diameter / 2.0) * (b.diameter / 2.0)
            ==> !Contains(b, px, py)
    ensures Contains(b, b.x, b.y)
  {
  }

  /** Circle.reset: y and x are drawn from the CURRENT diameter, then colour, diameter, alpha,
      speed and noise offset are resampled and the exploding flag is cleared. */
  function Reset(b: Balloon, d: BalloonDraw, width: real, height: real): (r: Balloon)
    requires ValidBalloonDraw(d)
    ensures !r.exploding && FreshAttributes(r) && WellFormed(r)
    ensures XWithin(r.x, b.diameter, width)
    ensures height + b.diameter / 2.0 <= r.y < height + b.diameter / 2.0 + 800.0
  {
    Balloon(y := height + b.diameter / 2.0 + Random(d.y, 0.0, 800.0),
            x := Random(d.x, b.diameter / 2.0, width - b.diameter / 2.0),
            exploding := false,
            color := PickColor(d.color),
            diameter := Random(d.diameter, 50.0, 200.0),
            alpha := Random(d.alpha, 50.0, 200.0),
            speed := Random(d.speed, -3.0, -0.5),
            noiseOffset := RandomUpTo(d.noiseOffset, 1000.0))
  }

  /** Because x is drawn before the diameter is resampled, a reset can leave a balloon whose
      x lies outside [r.diameter/2, width - r.diameter/2] for its NEW diameter. */
  lemma ResetUsesOldDiameter()
    ensures var b := Balloon(0.0, -200.0, 50.0, Cream, 100.0, -1.0, 0.0, true);
            var r := Reset(b, BalloonDraw(0.0, 0.5, 0.0, 0.0, 0.0, 0.0, 0.0), 800.0, 600.0);
            r.x == 25.0 && r.diameter == 125.0 && r.x < r.diameter / 2.0
  {
    assert Random(0.0, 25.0, 775.0) == 25.0;
    assert Random(0.5, 50.0, 200.0) == 125.0;
  }

  /** The horizontal drift for a noise value v in [0, 1]: map(v, 0, 1, -0.5, 0.5). */
  function Drift(v: real): (dx: real)
    requires 0.0 <= v <= 1.0
    ensures -0.5 <= dx <= 0.5
  {
    (v - 0.0) / (1.0 - 0.0) * (0.5 - -0.5) + -0.5
  }

  /** The balloon after drifting and rising, before the reset test. */
  function Moved(b: Balloon, noise: real): Balloon
    requires 0.0 <= noise <= 1.0
  {
    b.(x := b.x + Drift(noise), noiseOffset := b.noiseOffset + 0.005, y := b.y + b.speed)
  }

  /** The reset condition of Circle.update: risen fully past the top edge, or popped. */
  predicate ResetDue(b: Balloon)
  {
    b.y + b.speed < -b.diameter / 2.0 || b.exploding
  }

  /** Circle.update. When ResetDue holds the balloon is reset (so a popped balloon never
      survives its next update); otherwise it keeps its size, colour, opacity and speed, rises
      by its speed and drifts at most 0.5 sideways. Well-formedness is preserved. */
  function Update(b: Balloon, noise: real, d: BalloonDraw, width: real, height: real): (r: Balloon)
    requires 0.0 <= noise <= 1.0 && ValidBalloonDraw(d)
    ensures !r.exploding
    ensures WellFormed(b) ==> WellFormed(r)
    ensures ResetDue(b) ==> FreshAttributes(r) && XWithin(r.x, b.diameter, width) &&
                            r.y >= height + b.diameter / 2.0
    ensures !ResetDue(b) ==> r.y == b.y + b.speed && r.diameter == b.diameter &&
                             r.color == b.color && r.alpha == b.alpha && r.speed == b.speed &&
                             b.x - 0.5 <= r.x <= b.x + 0.5 && r.noiseOffset > b.noiseOffset
  {
    var m := Moved(b, noise);
    if m.y < -m.diameter / 2.0 || m.exploding then Reset(m, d, width, height) else m
  }

  /** A balloon that is not reset rises: its y strictly decreases. */
  lemma UpdateRises(b: Balloon, noise: real, d: BalloonDraw, width: real, height: real)
    requires WellFormed(b) && 0.0 <= noise <= 1.0 && ValidBalloonDraw(d)
    requires !ResetDue(b)
    ensures Update(b, noise, d, width, height).y < b.y
  {
  }
}
