/**
 * `VideoGenerator`: turns an energy timeline into frames of "bobs", one per
 * speaker. The rasteriser and the codecs are not modelled: a frame is the
 * list of drawing commands issued for it, in order, and the trigonometric
 * and colour-space functions are parameters.
 */
module VideoGenerator {
  import opened Results
  import opened RealMath
  import opened EnergyTimeline
  import opened TimelineProperties

  /** `np.pi` as a float64 literal. */
  const Pi: real := 3.141592653589793

  /** The energy at which the glow ring switches on (strictly above it). */
  const GlowThreshold: real := 0.3

  /** Audio and video durations closer than this are left alone. */
  const DurationTolerance: real := 0.1

  /** A BGR colour triple. */
  datatype Color = Color(b: int, g: int, r: int)

  /** A pixel position `(x, y)`. */
  datatype Point = Point(x: int, y: int)

  /** The cv2 calls a bob is drawn with. */
  datatype DrawOp =
    | FillPoly(outline: seq<Point>, color: Color)
    | Circle(center: Point, radius: int, color: Color, thickness: int)

  /** One rendered frame: the background fill, then each speaker's bob in speaker order. */
  datatype Frame = Frame(background: Color, bobs: seq<seq<DrawOp>>)

  /** What happens to the audio track before muxing. */
  datatype AudioFix = Trim(to: real) | Extend(silence: real) | Keep

  /** `self.bg_color`. */
  const Background: Color := Color(26, 26, 26)

  predicate ComponentInRange(c: int) { 0 <= c <= 255 }

  predicate InRange(c: Color)
  {
    ComponentInRange(c.b) && ComponentInRange(c.g) && ComponentInRange(c.r)
  }

  // ---------------------------------------------------------------------------
  // Bob geometry

  /** `energy_scale`: 1.0 at the energy floor 0.1, `max_scale` at full energy. */
  function EnergyScale(energy: real, maxScale: real): real
  {
    1.0 + (energy - 0.1) * (maxScale - 1.0) / 0.9
  }

  lemma EnergyScaleEndpoints(maxScale: real)
    ensures EnergyScale(0.1, maxScale) == 1.0
    ensures EnergyScale(1.0, maxScale) == maxScale
  {
    assert (1.0 - 0.1) * (maxScale - 1.0) / 0.9 == maxScale - 1.0;
  }

  /** With `max_scale >= 1` more energy never shrinks the bob. */
  lemma EnergyScaleMonotone(e1: real, e2: real, maxScale: real)
    requires e1 <= e2 && maxScale >= 1.0
    ensures EnergyScale(e1, maxScale) <= EnergyScale(e2, maxScale)
  {
    ScaleMonotone((maxScale - 1.0) / 0.9, e1 - 0.1, e2 - 0.1);
    assert (e1 - 0.1) * (maxScale - 1.0) / 0.9 == (maxScale - 1.0) / 0.9 * (e1 - 0.1);
    assert (e2 - 0.1) * (maxScale - 1.0) / 0.9 == (maxScale - 1.0) / 0.9 * (e2 - 0.1);
  }

  /** Over the timeline's energy range the scale stays between 1 and `max_scale`. */
  lemma EnergyScaleRange(energy: real, maxScale: real)
    requires EnergyFloor <= energy <= 1.0 && maxScale >= 1.0
    ensures 1.0 <= EnergyScale(energy, maxScale) <= maxScale
  {
    EnergyScaleEndpoints(maxScale);
    EnergyScaleMonotone(0.1, energy, maxScale);
    EnergyScaleMonotone(energy, 1.0, maxScale);
  }

  /** The wobble at one outline point, from the three sine values. */
  function Wobble(s3: real, s5: real, s7: real): real
  {
    s3 * 0.1 + s5 * 0.05 + s7 * 0.03
  }

  lemma WobbleBounded(s3: real, s5: real, s7: real)
    requires -1.0 <= s3 <= 1.0 && -1.0 <= s5 <= 1.0 && -1.0 <= s7 <= 1.0
    ensures -0.18 <= Wobble(s3, s5, s7) <= 0.18
  {
  }

  /** `radius = base_radius * energy_scale + wobble * base_radius * energy`. */
  function OutlineRadius(baseRadius: real, energy: real, maxScale: real, wobble: real): real
  {
    baseRadius * EnergyScale(energy, maxScale) + wobble * baseRadius * energy
  }

  /** Without wobble the outline radius grows with energy. */
  lemma OutlineRadiusMonotone(baseRadius: real, e1: real, e2: real, maxScale: real)
    requires 0.0 <= baseRadius && e1 <= e2 && maxScale >= 1.0
    ensures OutlineRadius(baseRadius, e1, maxScale, 0.0) <= OutlineRadius(baseRadius, e2, maxScale, 0.0)
  {
    EnergyScaleMonotone(e1, e2, maxScale);
    ScaleMonotone(baseRadius, EnergyScale(e1, maxScale), EnergyScale(e2, maxScale));
  }

  /**
   * For an energy in [0.1, 1], `max_scale >= 1` and a wobble in [-0.18, 0.18]
   * (what `WobbleBounded` gives for sine values in [-1, 1]), the outline
   * radius lies in `[0.82 * base_radius, (max_scale + 0.18) * base_radius]`,
   * so it is positive.
   */
  lemma OutlineRadiusBounds(baseRadius: real, energy: real, maxScale: real, wobble: real)
    requires 0.0 < baseRadius && EnergyFloor <= energy <= 1.0 && maxScale >= 1.0
    requires -0.18 <= wobble <= 0.18
    ensures 0.82 * baseRadius <= OutlineRadius(baseRadius, energy, maxScale, wobble)
    ensures OutlineRadius(baseRadius, energy, maxScale, wobble) <= (maxScale + 0.18) * baseRadius
  {
    EnergyScaleRange(energy, maxScale);
    var scale := EnergyScale(energy, maxScale);
    var we := wobble * energy;
    WobbleTimesEnergy(wobble, energy);
    ScaleMonotone(baseRadius, 1.0, scale);
    ScaleMonotone(baseRadius, scale, maxScale);
    ScaleMonotone(baseRadius, -0.18, we);
    ScaleMonotone(baseRadius, we, 0.18);
    assert OutlineRadius(baseRadius, energy, maxScale, wobble) == baseRadius * scale + baseRadius * we;
    assert baseRadius <= baseRadius * scale <= baseRadius * maxScale;
    assert baseRadius * -0.18 <= baseRadius * we <= baseRadius * 0.18;
    AddBoth(baseRadius, baseRadius * scale, baseRadius * -0.18, baseRadius * we);
    AddBoth(baseRadius * scale, baseRadius * maxScale, baseRadius * we, baseRadius * 0.18);
    assert (maxScale + 0.18) * baseRadius == baseRadius * maxScale + baseRadius * 0.18;
  }

  /** A wobble of at most 0.18 scaled by an energy of at most 1 stays within 0.18. */
  lemma WobbleTimesEnergy(wobble: real, energy: real)
    requires 0.0 <= energy <= 1.0 && -0.18 <= wobble <= 0.18
    ensures -0.18 <= wobble * energy <= 0.18
  {
    if wobble >= 0.0 {
      ScaleMonotone(wobble, energy, 1.0);
      assert wobble * energy <= wobble;
      ScaleMonotone(energy, 0.0, wobble);
      assert 0.0 <= energy * wobble;
    } else {
      ScaleMonotone(-wobble, energy, 1.0);
      assert -wobble * energy <= -wobble;
      ScaleMonotone(energy, wobble, 0.0);
      assert energy * wobble <= 0.0;
    }
  }

  /**
   * `generate_fluid_outline`: `num_points` points at angles `2*pi*k/num_points`
   * around the centre, each at its wobbled radius, truncated to int32.
   * `sin` and `cos` stand for `np.sin` and `np.cos`.
   */
  function FluidOutline(center: Point, baseRadius: real, energy: real, maxScale: real, frameIdx: int,
                        numPoints: nat, sin: real -> real, cos: real -> real): (pts: seq<Point>)
    ensures |pts| == numPoints
  {
    var phase := frameIdx as real * 0.1;
    seq(numPoints, k requires 0 <= k < numPoints =>
      var angle := 2.0 * Pi * k as real / numPoints as real;
      var w := Wobble(sin(angle * 3.0 + phase), sin(angle * 5.0 + phase * 1.3), sin(angle * 7.0 + phase * 0.7));
      var radius := OutlineRadius(baseRadius, energy, maxScale, w);
      Point(Trunc(center.x as real + radius * cos(angle)), Trunc(center.y as real + radius * sin(angle))))
  }

  /** `1 + (energy - 0.1) * 0.5`, the growth factor shared by both rings. */
  function Growth(energy: real): real
  {
    1.0 + (energy - 0.1) * 0.5
  }

  /** `int(base_radius * k * (1 + (energy - 0.1) * 0.5))`, the radius of a ring at factor k. */
  function RingRadius(baseRadius: int, factor: real, energy: real): int
  {
    Trunc(baseRadius as real * factor * Growth(energy))
  }

  /** The filled inner core. */
  function InnerRadius(baseRadius: int, energy: real): int
  {
    RingRadius(baseRadius, 0.7, energy)
  }

  /** The glow ring. */
  function GlowRadius(baseRadius: int, energy: real): int
  {
    RingRadius(baseRadius, 1.2, energy)
  }

  /** A ring's radius is non-negative and grows with energy and with its factor. */
  lemma RingRadiusMonotone(baseRadius: int, k1: real, k2: real, e1: real, e2: real)
    requires 0 <= baseRadius && 0.0 <= k1 <= k2 && EnergyFloor <= e1 <= e2
    ensures 0 <= RingRadius(baseRadius, k1, e1) <= RingRadius(baseRadius, k2, e2)
  {
    var b, g1, g2 := baseRadius as real, Growth(e1), Growth(e2);
    assert 1.0 <= g1 <= g2;
    RingProduct(b, k1, k2, g1, g2);
    TruncBetween(b * k1 * g1, b * k2 * g2);
  }

  lemma RingProduct(b: real, k1: real, k2: real, g1: real, g2: real)
    requires 0.0 <= b && 0.0 <= k1 <= k2 && 1.0 <= g1 <= g2
    ensures 0.0 <= b * k1 * g1 <= b * k2 * g2
  {
    ScaleNonNegative(b, k1);
    ScaleMonotone(b, k1, k2);
    ScaleNonNegative(b * k1, g1);
    ScaleMonotone(b * k1, g1, g2);
    ScaleMonotoneRight(b * k1, b * k2, g2);
  }

  /**
   * From the energy floor up, both rings have non-negative radii that grow
   * with energy, and the glow ring is never inside the core.
   */
  lemma RingRadii(baseRadius: int, e1: real, e2: real)
    requires 0 <= baseRadius && EnergyFloor <= e1 <= e2
    ensures 0 <= InnerRadius(baseRadius, e1) <= InnerRadius(baseRadius, e2)
    ensures 0 <= GlowRadius(baseRadius, e1) <= GlowRadius(baseRadius, e2)
    ensures InnerRadius(baseRadius, e1) <= GlowRadius(baseRadius, e1)
  {
    RingRadiusMonotone(baseRadius, 0.7, 0.7, e1, e2);
    RingRadiusMonotone(baseRadius, 1.2, 1.2, e1, e2);
    RingRadiusMonotone(baseRadius, 0.7, 1.2, e1, e1);
  }

  /** `energy > 0.3`: a hard step, so 0.3 itself draws no glow. */
  function DrawsGlow(energy: real): bool
  {
    energy > GlowThreshold
  }

  /** `max(0, c - 30)` on every component. */
  function Darken(c: Color): (d: Color)
  {
    Color(Max(0, c.b - 30), Max(0, c.g - 30), Max(0, c.r - 30))
  }

  /** `min(255, c + 20)` on every component. */
  function Brighten(c: Color): (d: Color)
  {
    Color(Min(255, c.b + 20), Min(255, c.g + 20), Min(255, c.r + 20))
  }

  /** Both clamps stay in the 8-bit range and bracket the colour they start from. */
  lemma ClampsBracket(c: Color)
    requires InRange(c)
    ensures InRange(Darken(c)) && InRange(Brighten(c))
    ensures Darken(c).b <= c.b <= Brighten(c).b
    ensures Darken(c).g <= c.g <= Brighten(c).g
    ensures Darken(c).r <= c.r <= Brighten(c).r
  {
  }

  /**
   * `draw_bob`: fill the outline in the speaker's colour, fill the darker
   * core (thickness -1), and above the threshold draw the brighter glow ring
   * (thickness 2).
   */
  function DrawBob(position: Point, energy: real, color: Color, frameIdx: int, baseRadius: int, maxScale: real,
                   sin: real -> real, cos: real -> real): (ops: seq<DrawOp>)
  {
    var outline := FluidOutline(position, baseRadius as real, energy, maxScale, frameIdx, 80, sin, cos);
    [FillPoly(outline, color), Circle(position, InnerRadius(baseRadius, energy), Darken(color), -1)]
    + (if DrawsGlow(energy)
       then [Circle(position, GlowRadius(baseRadius, energy), Brighten(color), 2)]
       else [])
  }

  /**
   * A bob is an 80-point outline and a filled core, plus a glow ring exactly
   * when the energy is above 0.3; the glow ring is at least as large as the core.
   */
  lemma DrawBobShape(position: Point, energy: real, color: Color, frameIdx: int, baseRadius: int,
                     maxScale: real, sin: real -> real, cos: real -> real)
    requires 0 <= baseRadius && EnergyFloor <= energy
    ensures var ops := DrawBob(position, energy, color, frameIdx, baseRadius, maxScale, sin, cos);
            && (|ops| == 3 <==> energy > 0.3)
            && (|ops| == 2 <==> energy <= 0.3)
            && ops[0].FillPoly? && |ops[0].outline| == 80 && ops[0].color == color
            && ops[1] == Circle(position, InnerRadius(baseRadius, energy), Darken(color), -1)
            && 0 <= ops[1].radius
            && (|ops| == 3 ==> ops[2] == Circle(position, GlowRadius(baseRadius, energy), Brighten(color), 2))
            && (|ops| == 3 ==> ops[1].radius <= ops[2].radius)
  {
    RingRadii(baseRadius, energy, energy);
  }

  // ---------------------------------------------------------------------------
  // Speaker layout and colours

  /** `np.linspace(np.pi, 0, n)[k]` for n >= 2. */
  function ArcAngle(k: int, n: int): real
    requires n >= 2
  {
    Pi + k as real * ((0.0 - Pi) / (n - 1) as real)
  }

  /** The arc's first angle is pi and its last is 0. */
  lemma ArcAngleEnds(n: int)
    requires n >= 2
    ensures ArcAngle(0, n) == Pi && ArcAngle(n - 1, n) == 0.0
  {
  }

  /**
   * `_calculate_positions`: one speaker sits at the frame centre; otherwise
   * the speakers are spread over a half circle of radius `min(w, h) // 4`.
   */
  method CalculatePositions(width: int, height: int, numSpeakers: nat, sin: real -> real, cos: real -> real)
    returns (positions: seq<Point>)
    ensures |positions| == numSpeakers
    ensures numSpeakers == 1 ==> positions == [Point(width / 2, height / 2)]
    ensures numSpeakers != 1 ==>
              forall k :: 0 <= k < numSpeakers ==> positions[k] == ArcPosition(width, height, k, numSpeakers, sin, cos)
  {
    positions := [];
    var centerX := width / 2;
    var centerY := height / 2;
    var radius := Min(width, height) / 4;
    if numSpeakers == 1 {
      positions := positions + [Point(centerX, centerY)];
    } else {
      var k := 0;
      while k < numSpeakers
        invariant 0 <= k <= numSpeakers && |positions| == k
        invariant forall j :: 0 <= j < k ==> positions[j] == ArcPosition(width, height, j, numSpeakers, sin, cos)
      {
        var angle := ArcAngle(k, numSpeakers);
        positions := positions + [ArcPoint(Point(centerX, centerY), radius, angle, sin, cos)];
        k := k + 1;
      }
    }
  }

  /** The point at `angle` on the circle of the given radius, truncated to pixels. */
  function ArcPoint(center: Point, radius: int, angle: real, sin: real -> real, cos: real -> real): Point
  {
    Point(Trunc(center.x as real + radius as real * cos(angle)), Trunc(center.y as real + radius as real * sin(angle)))
  }

  /** Position k of n >= 2 speakers on the arc. */
  function ArcPosition(width: int, height: int, k: int, n: int, sin: real -> real, cos: real -> real): Point
    requires n >= 2
  {
    ArcPoint(Point(width / 2, height / 2), Min(width, height) / 4, ArcAngle(k, n), sin, cos)
  }

  /** A point inside a `width` by `height` frame. */
  predicate OnScreen(p: Point, width: int, height: int)
  {
    0 <= p.x < width && 0 <= p.y < height
  }

  /** With `|cos|, |sin| <= 1` every arc position is on screen. */
  lemma ArcPositionOnScreen(width: int, height: int, k: int, n: int, sin: real -> real, cos: real -> real)
    requires width >= 1 && height >= 1 && n >= 2
    requires -1.0 <= cos(ArcAngle(k, n)) <= 1.0 && -1.0 <= sin(ArcAngle(k, n)) <= 1.0
    ensures OnScreen(ArcPosition(width, height, k, n, sin, cos), width, height)
  {
    LayoutFits(width, height);
    ArcPointOnScreen(Point(width / 2, height / 2), Min(width, height) / 4, ArcAngle(k, n), sin, cos, width, height);
  }

  /** The arc radius `min(w, h) // 4` fits on both sides of the centre `(w // 2, h // 2)`. */
  lemma LayoutFits(width: int, height: int)
    requires width >= 1 && height >= 1
    ensures 0 <= Min(width, height) / 4 <= width / 2 && width / 2 + Min(width, height) / 4 < width
    ensures Min(width, height) / 4 <= height / 2 && height / 2 + Min(width, height) / 4 < height
  {
    var m := Min(width, height);
    QuarterMonotone(m, width);
    QuarterMonotone(m, height);
    HalfAndQuarter(width);
    HalfAndQuarter(height);
  }

  /** A circle point stays on screen when the circle does. */
  lemma ArcPointOnScreen(center: Point, r: int, angle: real, sin: real -> real, cos: real -> real,
                         width: int, height: int)
    requires 0 <= r <= center.x && center.x + r < width
    requires r <= center.y && center.y + r < height
    requires -1.0 <= cos(angle) <= 1.0 && -1.0 <= sin(angle) <= 1.0
    ensures OnScreen(ArcPoint(center, r, angle, sin, cos), width, height)
  {
    var p := ArcPoint(center, r, angle, sin, cos);
    CoordOnScreen(center.x, r, width, cos(angle));
    CoordOnScreen(center.y, r, height, sin(angle));
    assert p.x == Trunc(center.x as real + r as real * cos(angle));
    assert p.y == Trunc(center.y as real + r as real * sin(angle));
  }

  /** `int(c + r*t)` with `|t| <= 1` lies in `[0, size)` when `[c - r, c + r]` does. */
  lemma CoordOnScreen(c: int, r: int, size: int, t: real)
    requires 0 <= r <= c && c + r < size && -1.0 <= t <= 1.0
    ensures 0 <= Trunc(c as real + r as real * t) < size
  {
    RealBounds(c, r, size);
    OffsetInside(c as real, r as real, size as real, t);
    TruncBelow(c as real + r as real * t, size);
  }

  /** Floor division by 4 is monotone and keeps non-negative values non-negative. */
  lemma QuarterMonotone(a: int, b: int)
    requires 0 <= a <= b
    ensures 0 <= a / 4 <= b / 4
  {
    assert a == 4 * (a / 4) + a % 4 && 0 <= a % 4 < 4;
    assert b == 4 * (b / 4) + b % 4 && 0 <= b % 4 < 4;
  }

  /** A quarter of a positive size fits beside half of it. */
  lemma HalfAndQuarter(size: int)
    requires size >= 1
    ensures 0 <= size / 4 <= size / 2 && size / 2 + size / 4 < size
  {
    var c, q := size / 2, size / 4;
    assert size == 2 * c + size % 2 && 0 <= size % 2 < 2;
    assert size == 4 * q + size % 4 && 0 <= size % 4 < 4;
  }

  /** `c + r*t` with `|t| <= 1` lies in `[0, size)` when `[c - r, c + r]` does. */
  lemma OffsetInside(c: real, r: real, size: real, t: real)
    requires 0.0 <= r && 0.0 <= c - r && c + r < size && -1.0 <= t <= 1.0
    ensures 0.0 <= c + r * t < size
  {
    OffsetBetween(c, r, t);
    Squeeze(c - r, c + r * t, c + r, size);
  }

  /** The integer facts `0 <= c - r` and `c + r < size`, read over the reals. */
  lemma RealBounds(c: int, r: int, size: int)
    requires 0 <= r <= c && c + r < size
    ensures 0.0 <= r as real && 0.0 <= c as real - r as real && c as real + r as real < size as real
  {
    assert (c - r) as real == c as real - r as real;
    assert (c + r) as real == c as real + r as real;
  }

  /** `c + r*t` lies within r of c when `|t| <= 1`. */
  lemma OffsetBetween(c: real, r: real, t: real)
    requires 0.0 <= r && -1.0 <= t <= 1.0
    ensures c - r <= c + r * t <= c + r
  {
    ScaleMonotone(r, -1.0, t);
    ScaleMonotone(r, t, 1.0);
  }

  /** Truncating a value in `[0, size)` gives an index below size. */
  lemma TruncBelow(x: real, size: int)
    requires 0.0 <= x < size as real
    ensures 0 <= Trunc(x) < size
  {
  }

  /** The hue of speaker i of n: `int(180 * i / max(n, 1))`. */
  function Hue(i: int, n: int): int
  {
    Trunc((180 * i) as real / Max(n, 1) as real)
  }

  /** For a non-negative numerator the hue is the integer quotient `180*i // n`. */
  lemma HueQuotient(i: int, n: int)
    requires 0 <= i && 1 <= n
    ensures Hue(i, n) == (180 * i) / n
  {
    var q := (180 * i) / n;
    FloorDivBounds(180 * i, n);
    IntProductReal(q, n);
    IntProductReal(q + 1, n);
    assert Max(n, 1) == n;
    DivBetween((180 * i) as real, n as real, q);
  }

  /** Hues lie in [0, 180) and follow speaker order. */
  lemma HueRange(i: int, j: int, n: int)
    requires 0 <= i <= j < n
    ensures 0 <= Hue(i, n) < 180
    ensures Hue(i, n) <= Hue(j, n)
  {
    assert Max(n, 1) == n;
    var d, x, y := n as real, (180 * i) as real, (180 * j) as real;
    DivMonotone(0.0, x, d);
    assert 0.0 / d == 0.0;
    DivStrict(x, 180.0 * d, d);
    assert (180.0 * d) / d == 180.0;
    DivMonotone(x, y, d);
    TruncMonotone(x / d, y / d);
  }

  /** Floor division brackets its dividend. */
  lemma FloorDivBounds(a: int, n: int)
    requires n > 0
    ensures (a / n) * n <= a < (a / n + 1) * n
  {
    assert a == (a / n) * n + a % n;
  }

  /** Converting a product to real multiplies the converted factors. */
  lemma IntProductReal(a: int, b: int)
    ensures (a * b) as real == a as real * b as real
  {
  }

  /** If `q*d <= x < (q+1)*d` with d positive, then `q <= x/d < q+1`. */
  lemma DivBetween(x: real, d: real, q: int)
    requires d > 0.0 && q as real * d <= x < (q + 1) as real * d
    ensures q as real <= x / d < (q + 1) as real
  {
    ReciprocalPositive(d);
    var inv := 1.0 / d;
    assert x / d == inv * x;
    ScaleMonotone(inv, q as real * d, x);
    ScaleStrict(inv, x, (q + 1) as real * d);
    assert inv * (q as real * d) == q as real * (inv * d);
    assert inv * ((q + 1) as real * d) == (q + 1) as real * (inv * d);
  }

  /**
   * `_generate_colors`: the BGR colour of hue `Hue(i, n)` at saturation 200
   * and value 255, for each speaker i. `hsvToBgr` stands for `cv2.cvtColor`.
   */
  method GenerateColors(numSpeakers: nat, hsvToBgr: (int, int, int) -> Color) returns (colors: seq<Color>)
    ensures |colors| == numSpeakers
    ensures forall i :: 0 <= i < numSpeakers ==> colors[i] == hsvToBgr(Hue(i, numSpeakers), 200, 255)
  {
    colors := [];
    var i := 0;
    while i < numSpeakers
      invariant 0 <= i <= numSpeakers && |colors| == i
      invariant forall j :: 0 <= j < i ==> colors[j] == hsvToBgr(Hue(j, numSpeakers), 200, 255)
    {
      var hue := Trunc((180 * i) as real / Max(numSpeakers, 1) as real);
      colors := colors + [hsvToBgr(hue, 200, 255)];
      i := i + 1;
    }
  }

  // ---------------------------------------------------------------------------
  // The render loop

  /** The bob speaker s gets in frame f of timeline t. */
  function BobAt(t: Timeline, s: int, f: int, positions: seq<Point>, colors: seq<Color>, baseRadius: int,
                 maxScale: real, sin: real -> real, cos: real -> real): seq<DrawOp>
    requires 0 <= s < |t.speakers| && 0 <= f < |t.speakers[s]|
    requires |positions| == |colors| == |t.speakers|
  {
    DrawBob(positions[s], t.speakers[s][f], colors[s], f, baseRadius, maxScale, sin, cos)
  }

  /** What the render loop needs of a timeline: every speaker has an energy for every frame. */
  predicate Renderable(t: Timeline)
  {
    && t.totalFrames >= 0
    && forall s :: 0 <= s < |t.speakers| ==> |t.speakers[s]| >= t.totalFrames
  }

  /**
   * The progress test as written, `(frame_idx + 1) % (total_frames // 10) == 0`:
   * Python raises `ZeroDivisionError` when `total_frames // 10` is 0.
   */
  function ProgressDueAsWritten(frameIdx: nat, totalFrames: nat): Result<bool, string>
  {
    if totalFrames / 10 == 0 then Failure("ZeroDivisionError")
    else Success((frameIdx + 1) % (totalFrames / 10) == 0)
  }

  /** A 5-frame render (1/6 s at 30 fps) crashes on its first frame. */
  lemma ProgressCrashesOnShortRender()
    ensures ProgressDueAsWritten(0, 5).Failure?
    ensures forall total :: 1 <= total <= 9 ==> ProgressDueAsWritten(0, total).Failure?
  {
  }

  /** The progress test with the step kept at least 1. */
  function ProgressDue(frameIdx: nat, totalFrames: nat): bool
  {
    (frameIdx + 1) % Max(totalFrames / 10, 1) == 0
  }

  /**
   * The corrected test agrees with the written one wherever that one does not
   * raise, and every non-empty render reports progress at least once.
   */
  lemma ProgressDueCorrected(frameIdx: nat, totalFrames: nat)
    ensures totalFrames >= 10 ==> ProgressDueAsWritten(frameIdx, totalFrames) == Success(ProgressDue(frameIdx, totalFrames))
    ensures totalFrames >= 1 ==> 0 <= Max(totalFrames / 10, 1) - 1 < totalFrames
                                 && ProgressDue(Max(totalFrames / 10, 1) - 1, totalFrames)
  {
  }

  /** The frame counts, among the first `upTo` frames, after which the progress line is due. */
  function ProgressReports(upTo: nat, totalFrames: nat): seq<nat>
  {
    if upTo == 0 then []
    else ProgressReports(upTo - 1, totalFrames) + (if ProgressDue(upTo - 1, totalFrames) then [upTo] else [])
  }

  /** One more frame adds its count to the reports exactly when the test fires. */
  lemma ProgressReportsNext(f: nat, totalFrames: nat)
    ensures ProgressReports(f + 1, totalFrames) ==
              ProgressReports(f, totalFrames) + if (f + 1) % Max(totalFrames / 10, 1) == 0 then [f + 1] else []
  {
  }

  /** Progress is reported after frame f exactly when the test says so, and only for counts up to `upTo`. */
  lemma {:induction false} ProgressReportsExact(upTo: nat, totalFrames: nat)
    ensures forall k :: 0 <= k < |ProgressReports(upTo, totalFrames)| ==> 1 <= ProgressReports(upTo, totalFrames)[k] <= upTo
    ensures forall f :: 0 <= f < upTo ==> (ProgressDue(f, totalFrames) <==> f + 1 in ProgressReports(upTo, totalFrames))
  {
    if upTo > 0 {
      ProgressReportsExact(upTo - 1, totalFrames);
    }
  }

  /** Audio and video durations as the muxer sees them. */
  function Reconcile(audioDuration: real, videoDuration: real): (fix: AudioFix)
  {
    var diff := if audioDuration >= videoDuration then audioDuration - videoDuration else videoDuration - audioDuration;
    if diff > DurationTolerance then
      if audioDuration > videoDuration then Trim(videoDuration)
      else if audioDuration < videoDuration then Extend(videoDuration - audioDuration)
      else Keep
    else Keep
  }

  /** The audio duration after the fix is applied. */
  function FixedDuration(audioDuration: real, fix: AudioFix): real
  {
    match fix
    case Trim(to) => to
    case Extend(silence) => audioDuration + silence
    case Keep => audioDuration
  }

  /**
   * Audio longer than the video by more than 0.1 s is trimmed to it, shorter
   * by more than 0.1 s is padded with silence up to it, and otherwise kept;
   * either way the final audio is within 0.1 s of the video.
   */
  lemma ReconcileWithinTolerance(audio: real, video: real)
    ensures Reconcile(audio, video).Trim? <==> audio > video + DurationTolerance
    ensures Reconcile(audio, video).Extend? <==> audio < video - DurationTolerance
    ensures Reconcile(audio, video).Keep? <==> video - DurationTolerance <= audio <= video + DurationTolerance
    ensures Reconcile(audio, video).Extend? ==> Reconcile(audio, video).silence > DurationTolerance
    ensures !Reconcile(audio, video).Keep? ==> FixedDuration(audio, Reconcile(audio, video)) == video
    ensures var d := FixedDuration(audio, Reconcile(audio, video));
            video - DurationTolerance <= d <= video + DurationTolerance
  {
  }

  class Generator {
    const timeline: Timeline
    const fps: nat
    const width: int
    const height: int
    const baseRadius: int
    const maxScale: real
    const numSpeakers: nat
    const positions: seq<Point>
    const colors: seq<Color>
    const bgColor: Color := Background
    const sin: real -> real
    const cos: real -> real

    /**
     * `__init__`: one position and one colour per speaker of the timeline.
     * `sin`, `cos` and `hsvToBgr` stand for numpy's and cv2's functions.
     */
    constructor (timeline: Timeline, sin: real -> real, cos: real -> real, hsvToBgr: (int, int, int) -> Color,
                 videoFps: nat := 30, width: int := 1920, height: int := 1080, baseRadius: int := 80,
                 maxScale: real := 1.5)
      ensures this.timeline == timeline && numSpeakers == |timeline.speakers|
      ensures this.fps == videoFps && this.width == width && this.height == height
      ensures this.baseRadius == baseRadius && this.maxScale == maxScale
      ensures this.sin == sin && this.cos == cos
      ensures |positions| == |colors| == numSpeakers
      ensures numSpeakers == 1 ==> positions == [Point(width / 2, height / 2)]
      ensures numSpeakers != 1 ==>
                forall k :: 0 <= k < numSpeakers ==> positions[k] == ArcPosition(width, height, k, numSpeakers, sin, cos)
      ensures forall i :: 0 <= i < numSpeakers ==> colors[i] == hsvToBgr(Hue(i, numSpeakers), 200, 255)
    {
      var n := |timeline.speakers|;
      var ps := CalculatePositions(width, height, n, sin, cos);
      var cs := GenerateColors(n, hsvToBgr);
      this.timeline := timeline;
      this.fps := videoFps;
      this.width := width;
      this.height := height;
      this.baseRadius := baseRadius;
      this.maxScale := maxScale;
      this.numSpeakers := n;
      this.positions := ps;
      this.colors := cs;
      this.sin := sin;
      this.cos := cos;
    }

    /** What the render loop needs of this generator's timeline and layout. */
    predicate Ready()
    {
      Renderable(timeline) && |positions| == |colors| == numSpeakers == |timeline.speakers|
    }

    /** Frame f: the background, then the bob of every speaker at its energy in frame f. */
    function FrameAt(f: nat): (frame: Frame)
      requires Ready() && f < timeline.totalFrames
      ensures |frame.bobs| == numSpeakers
    {
      Frame(bgColor, seq(numSpeakers, s requires 0 <= s < numSpeakers =>
        BobAt(timeline, s, f, positions, colors, baseRadius, maxScale, sin, cos)))
    }

    /**
     * The frame loop of `render`: one frame per index below `total_frames`,
     * each as `FrameAt` describes it; `reports` lists the frame counts at
     * which the progress line is due.
     */
    method RenderFrames() returns (frames: seq<Frame>, reports: seq<nat>)
      requires Ready()
      ensures |frames| == timeline.totalFrames
      ensures forall f :: 0 <= f < |frames| ==> frames[f] == FrameAt(f)
      ensures reports == ProgressReports(timeline.totalFrames, timeline.totalFrames)
    {
      var total := timeline.totalFrames;
      frames := [];
      reports := [];
      var f := 0;
      while f < total
        invariant 0 <= f <= total
        invariant frames == FramesUpTo(f)
        invariant reports == ProgressReports(f, total)
      {
        var bobs := DrawSpeakers(f);
        frames := frames + [Frame(bgColor, bobs)];
        ProgressReportsNext(f, total);
        if (f + 1) % Max(total / 10, 1) == 0 {
          reports := reports + [f + 1];
        }
        f := f + 1;
      }
      FramesUpToIndex(total);
    }

    /** The first n frames, in order. */
    function FramesUpTo(n: nat): seq<Frame>
      requires Ready() && n <= timeline.totalFrames
    {
      if n == 0 then [] else FramesUpTo(n - 1) + [FrameAt(n - 1)]
    }

    /** Frame g of the first n is frame g of the video. */
    lemma {:induction false} FramesUpToIndex(n: nat)
      requires Ready() && n <= timeline.totalFrames
      ensures |FramesUpTo(n)| == n
      ensures forall g :: 0 <= g < n ==> FramesUpTo(n)[g] == FrameAt(g)
    {
      if n > 0 {
        FramesUpToIndex(n - 1);
        var prefix := FramesUpTo(n - 1);
        assert FramesUpTo(n) == prefix + [FrameAt(n - 1)];
        assert forall g :: 0 <= g < n - 1 ==> FramesUpTo(n)[g] == prefix[g];
      }
    }

    /** The speaker loop of one frame. */
    method DrawSpeakers(f: nat) returns (bobs: seq<seq<DrawOp>>)
      requires Ready() && f < timeline.totalFrames
      ensures Frame(bgColor, bobs) == FrameAt(f)
    {
      bobs := [];
      var s := 0;
      while s < numSpeakers
        invariant 0 <= s <= numSpeakers && |bobs| == s
        invariant forall j :: 0 <= j < s ==>
                    bobs[j] == BobAt(timeline, j, f, positions, colors, baseRadius, maxScale, sin, cos)
      {
        var energy := timeline.speakers[s][f];
        bobs := bobs + [DrawBob(positions[s], energy, colors[s], f, baseRadius, maxScale, sin, cos)];
        s := s + 1;
      }
    }
  }

  /**
   * Every timeline `build_timeline` returns can be rendered, and every bob in
   * it is drawn from an energy in [0.1, 1].
   */
  lemma BuiltTimelineRenders(cs: seq<Chunk>, clock: real, n: int, fps: nat, alpha: real)
    requires fps > 0 && AllPlaced(cs, clock)
    requires TimelineOf(cs, clock, n, fps, alpha).Success?
    ensures var t := TimelineOf(cs, clock, n, fps, alpha).value;
            && Renderable(t)
            && forall s, f :: 0 <= s < |t.speakers| && 0 <= f < t.totalFrames ==>
                 EnergyFloor <= t.speakers[s][f] <= 1.0
  {
    TimelineShape(cs, clock, n, fps, alpha);
    TimelineEnergyRange(cs, clock, n, fps, alpha);
  }

  /**
   * In every frame of a built timeline, each bob's core and glow radii are
   * non-negative, the core never exceeds the glow ring, and neither exceeds
   * its size at full energy, `int(base*k*1.45)`.
   */
  lemma BuiltTimelineRings(cs: seq<Chunk>, clock: real, n: int, fps: nat, alpha: real, baseRadius: int)
    requires fps > 0 && AllPlaced(cs, clock) && 0 <= baseRadius
    requires TimelineOf(cs, clock, n, fps, alpha).Success?
    ensures var t := TimelineOf(cs, clock, n, fps, alpha).value;
            forall s, f :: 0 <= s < |t.speakers| && 0 <= f < t.totalFrames ==>
              && 0 <= InnerRadius(baseRadius, t.speakers[s][f]) <= GlowRadius(baseRadius, t.speakers[s][f])
              && InnerRadius(baseRadius, t.speakers[s][f]) <= InnerRadius(baseRadius, 1.0)
              && GlowRadius(baseRadius, t.speakers[s][f]) <= GlowRadius(baseRadius, 1.0)
  {
    BuiltTimelineRenders(cs, clock, n, fps, alpha);
    var t := TimelineOf(cs, clock, n, fps, alpha).value;
    forall s, f | 0 <= s < |t.speakers| && 0 <= f < t.totalFrames
      ensures && 0 <= InnerRadius(baseRadius, t.speakers[s][f]) <= GlowRadius(baseRadius, t.speakers[s][f])
              && InnerRadius(baseRadius, t.speakers[s][f]) <= InnerRadius(baseRadius, 1.0)
              && GlowRadius(baseRadius, t.speakers[s][f]) <= GlowRadius(baseRadius, 1.0)
    {
      RingRadii(baseRadius, t.speakers[s][f], 1.0);
    }
  }
}
