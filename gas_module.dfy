/** The gas particle container of animations/gas_module.py: a rectangle with a
    temperature, a fixed particle radius and scale, and one position, velocity
    and colour per particle. The pure parts (colour bands, speed law, bounds,
    the per-axis wall rule, proportional rescaling) are functions; the class
    Gas holds the state that the source updates in place. */
module GasModule {
  import opened Vectors

  // ---------------------------------------------------------------------------
  // Temperature to colour
  // ---------------------------------------------------------------------------

  /** The framework colours the source names. */
  datatype Color = BlueE | BlueD | GreenD | Orange | RedD

  /** A colour as the source computes it: a named colour, or the framework's
      interpolate_color(from, to, t) kept symbolically. */
  datatype Shade = Solid(color: Color) | Blend(from: Color, to: Color, t: real)

  /** The five temperature bands of the colour map. */
  datatype Band = Cold | Cool | Mild | Warm | Hot

  predicate InBand(temperature: real, b: Band)
  {
    match b
    case Cold => temperature < 250.0
    case Cool => 250.0 <= temperature < 300.0
    case Mild => 300.0 <= temperature < 400.0
    case Warm => 400.0 <= temperature < 500.0
    case Hot => 500.0 <= temperature
  }

  /** The band the if/elif chain of the colour map selects. */
  function BandOf(temperature: real): (b: Band)
    ensures InBand(temperature, b)
  {
    if temperature < 250.0 then Cold
    else if temperature < 300.0 then Cool
    else if temperature < 400.0 then Mild
    else if temperature < 500.0 then Warm
    else Hot
  }

  /** The bands with a colour gradient. */
  predicate Blended(b: Band)
  {
    b == Mild || b == Warm || b == Hot
  }

  function BandStart(b: Band): real
    requires Blended(b)
  {
    match b
    case Mild => 300.0
    case Warm => 400.0
    case Hot => 500.0
  }

  /** The temperature span over which the gradient of a band runs to its end colour. */
  function BandSpan(b: Band): real
    requires Blended(b)
  {
    match b
    case Mild => 100.0
    case Warm => 100.0
    case Hot => 300.0
  }

  function GradientFrom(b: Band): Color
    requires Blended(b)
  {
    match b
    case Mild => BlueD
    case Warm => GreenD
    case Hot => Orange
  }

  function GradientTo(b: Band): Color
    requires Blended(b)
  {
    match b
    case Mild => GreenD
    case Warm => Orange
    case Hot => RedD
  }

  /** Gas._temperature_to_color: the colour depends on the temperature alone;
      blended bands report the fraction of their span covered, capped at 1. */
  function TemperatureToColor(temperature: real): (s: Shade)
    ensures BandOf(temperature) == Cold ==> s == Solid(BlueE)
    ensures BandOf(temperature) == Cool ==> s == Solid(BlueD)
    ensures Blended(BandOf(temperature)) ==>
      var b := BandOf(temperature);
      s == Blend(GradientFrom(b), GradientTo(b), Min((temperature - BandStart(b)) / BandSpan(b), 1.0))
    ensures s.Blend? <==> 300.0 <= temperature
    ensures s.Blend? ==> 0.0 <= s.t <= 1.0
  {
    if temperature < 250.0 then Solid(BlueE)
    else if temperature < 300.0 then Solid(BlueD)
    else if temperature < 400.0 then Blend(BlueD, GreenD, (temperature - 300.0) / 100.0)
    else if temperature < 500.0 then Blend(GreenD, Orange, (temperature - 400.0) / 100.0)
    else Blend(Orange, RedD, Min((temperature - 500.0) / 300.0, 1.0))
  }

  /** Every temperature lies in exactly one band, the one BandOf selects. */
  lemma BandsPartition(temperature: real, b: Band)
    ensures InBand(temperature, b) <==> b == BandOf(temperature)
  {
  }

  /** From 800 K on the colour is the end of the last gradient. */
  lemma ColorSaturates(temperature: real)
    requires temperature >= 800.0
    ensures TemperatureToColor(temperature) == Blend(Orange, RedD, 1.0)
  {
  }

  /** Within one band the blend parameter does not decrease with temperature. */
  lemma ColorBlendMonotone(t1: real, t2: real)
    requires BandOf(t1) == BandOf(t2) && Blended(BandOf(t1))
    requires t1 <= t2
    ensures TemperatureToColor(t1).t <= TemperatureToColor(t2).t
  {
  }

  /** Each gradient starts (parameter 0, at the band's lower edge) from the
      colour on which the band below it ends. */
  lemma GradientsChain(temperature: real)
    requires Blended(BandOf(temperature)) && temperature == BandStart(BandOf(temperature))
    ensures TemperatureToColor(temperature).t == 0.0
    ensures BandOf(temperature) == Mild ==>
      forall t :: 250.0 <= t < 300.0 ==> TemperatureToColor(t) == Solid(GradientFrom(Mild))
    ensures BandOf(temperature) == Warm ==> GradientFrom(Warm) == GradientTo(Mild)
    ensures BandOf(temperature) == Hot ==> GradientFrom(Hot) == GradientTo(Warm)
  {
  }

  // ---------------------------------------------------------------------------
  // Temperature to speed
  // ---------------------------------------------------------------------------

  const BaseSpeed: real := 0.15
  const RoomTemperature: real := 300.0

  /** Gas._get_wiggle_speed: linear in the temperature (not its square root). */
  function WiggleSpeed(temperature: real): real
  {
    BaseSpeed * (temperature / RoomTemperature)
  }

  lemma WiggleSpeedLinear(k: real, temperature: real)
    ensures WiggleSpeed(k * temperature) == k * WiggleSpeed(temperature)
    ensures WiggleSpeed(RoomTemperature) == BaseSpeed
    ensures WiggleSpeed(2.0 * RoomTemperature) == 2.0 * WiggleSpeed(RoomTemperature)
  {
  }

  /** Scaling a velocity of the speed for `from` by `to / from` gives the speed
      for `to`: rescaling by a temperature ratio follows the speed law. */
  lemma RatioRescalingFollowsSpeedLaw(v: Vec, from: real, to: real)
    requires from != 0.0
    requires NormSq(v) == Sq(WiggleSpeed(from))
    ensures NormSq(Scale(to / from, v)) == Sq(WiggleSpeed(to))
  {
    NormSqScale(to / from, v);
    assert WiggleSpeed(to) == (to / from) * WiggleSpeed(from);
    assert Sq((to / from) * WiggleSpeed(from)) == Sq(to / from) * Sq(WiggleSpeed(from));
  }

  // ---------------------------------------------------------------------------
  // Container bounds
  // ---------------------------------------------------------------------------

  datatype Bounds = Bounds(left: real, right: real, bottom: real, top: real)

  predicate Inside(p: Vec, b: Bounds)
  {
    b.left <= p.x <= b.right && b.bottom <= p.y <= b.top
  }

  /** The bounds are not inverted on either axis. */
  predicate Proper(b: Bounds)
  {
    b.left <= b.right && b.bottom <= b.top
  }

  /** b pulled in by margin on every side. */
  function Inset(b: Bounds, margin: real): Bounds
  {
    Bounds(b.left + margin, b.right - margin, b.bottom + margin, b.top - margin)
  }

  /** Gas.get_bounds: the container edges, with no particle margin. */
  function ContainerBounds(cx: real, cy: real, width: real, height: real): (b: Bounds)
    ensures b.right - b.left == width && b.top - b.bottom == height
    ensures (b.left + b.right) / 2.0 == cx && (b.bottom + b.top) / 2.0 == cy
  {
    Bounds(cx - width / 2.0, cx + width / 2.0, cy - height / 2.0, cy + height / 2.0)
  }

  /** The bounds a particle centre may occupy: the container edges pulled in
      by the scaled particle radius. */
  function InnerBounds(cx: real, cy: real, width: real, height: real, margin: real): (b: Bounds)
    ensures b == Inset(ContainerBounds(cx, cy, width, height), margin)
    ensures Proper(b) <==> width >= 2.0 * margin && height >= 2.0 * margin
  {
    Bounds(cx - width / 2.0 + margin, cx + width / 2.0 - margin,
           cy - height / 2.0 + margin, cy + height / 2.0 - margin)
  }

  // ---------------------------------------------------------------------------
  // Wall reflection
  // ---------------------------------------------------------------------------

  datatype AxisState = AxisState(pos: real, vel: real)

  /** One axis of the wall rule: a tentative coordinate p outside [lo, hi]
      negates the velocity component v and is clamped back into range. */
  function Reflect(p: real, v: real, lo: real, hi: real): (r: AxisState)
    ensures lo <= p <= hi ==> r == AxisState(p, v)
    ensures !(lo <= p <= hi) ==> r.vel == -v
    ensures p < lo ==> r.pos == lo
    ensures p > hi && lo <= hi ==> r.pos == hi
    ensures lo <= hi ==> lo <= r.pos <= hi
    ensures Abs(r.vel) == Abs(v) && Sq(r.vel) == Sq(v)
  {
    if p < lo || p > hi then AxisState(Max(lo, Min(p, hi)), -v) else AxisState(p, v)
  }

  /** Where a particle would be after dt with no walls: pos + v * dt * 10. */
  function Tentative(pos: Vec, vel: Vec, dt: real): Vec
  {
    Add(pos, Scale(10.0, Scale(dt, vel)))
  }

  datatype Particle = Particle(pos: Vec, vel: Vec)

  /** One updater step of one particle inside bounds b, the two axes handled
      one after the other and independently. */
  function Step(p: Particle, dt: real, b: Bounds): (r: Particle)
    ensures Proper(b) ==> Inside(r.pos, b)
    ensures NormSq(r.vel) == NormSq(p.vel)
    ensures Inside(Tentative(p.pos, p.vel, dt), b) ==> r == Particle(Tentative(p.pos, p.vel, dt), p.vel)
  {
    var q := Tentative(p.pos, p.vel, dt);
    var rx := Reflect(q.x, p.vel.x, b.left, b.right);
    var ry := Reflect(q.y, p.vel.y, b.bottom, b.top);
    Particle(Vec(rx.pos, ry.pos), Vec(rx.vel, ry.vel))
  }

  /** The outcome on one axis depends only on that axis's coordinate and
      velocity component. */
  lemma StepAxesIndependent(p: Particle, q: Particle, dt: real, b: Bounds)
    ensures p.pos.x == q.pos.x && p.vel.x == q.vel.x ==>
      Step(p, dt, b).pos.x == Step(q, dt, b).pos.x && Step(p, dt, b).vel.x == Step(q, dt, b).vel.x
    ensures p.pos.y == q.pos.y && p.vel.y == q.vel.y ==>
      Step(p, dt, b).pos.y == Step(q, dt, b).pos.y && Step(p, dt, b).vel.y == Step(q, dt, b).vel.y
  {
    var tp, tq := Tentative(p.pos, p.vel, dt), Tentative(q.pos, q.vel, dt);
    assert Step(p, dt, b).pos.x == Reflect(tp.x, p.vel.x, b.left, b.right).pos;
    assert Step(p, dt, b).vel.x == Reflect(tp.x, p.vel.x, b.left, b.right).vel;
    assert Step(q, dt, b).pos.x == Reflect(tq.x, q.vel.x, b.left, b.right).pos;
    assert Step(q, dt, b).vel.x == Reflect(tq.x, q.vel.x, b.left, b.right).vel;
    assert Step(p, dt, b).pos.y == Reflect(tp.y, p.vel.y, b.bottom, b.top).pos;
    assert Step(p, dt, b).vel.y == Reflect(tp.y, p.vel.y, b.bottom, b.top).vel;
    assert Step(q, dt, b).pos.y == Reflect(tq.y, q.vel.y, b.bottom, b.top).pos;
    assert Step(q, dt, b).vel.y == Reflect(tq.y, q.vel.y, b.bottom, b.top).vel;
  }

  // ---------------------------------------------------------------------------
  // Proportional resize
  // ---------------------------------------------------------------------------

  /** p with its offset from (cx, cy) multiplied by sx on x and sy on y. */
  function Rescaled(p: Vec, cx: real, cy: real, sx: real, sy: real): Vec
  {
    Vec(cx + (p.x - cx) * sx, cy + (p.y - cy) * sy)
  }

  /** Rescaling by new/old size keeps each offset's fraction of the size. */
  lemma RescaledKeepsPlacement(p: Vec, cx: real, cy: real, oldWidth: real, oldHeight: real, newWidth: real, newHeight: real)
    requires oldWidth != 0.0 && oldHeight != 0.0 && newWidth != 0.0 && newHeight != 0.0
    ensures var q := Rescaled(p, cx, cy, newWidth / oldWidth, newHeight / oldHeight);
      (q.x - cx) / newWidth == (p.x - cx) / oldWidth && (q.y - cy) / newHeight == (p.y - cy) / oldHeight
  {
  }

  /** A particle inside the container is inside the resized container. */
  lemma {:induction false} RescaledStaysInContainer(p: Vec, cx: real, cy: real, oldWidth: real, oldHeight: real, newWidth: real, newHeight: real)
    requires oldWidth > 0.0 && oldHeight > 0.0 && newWidth > 0.0 && newHeight > 0.0
    requires Inside(p, ContainerBounds(cx, cy, oldWidth, oldHeight))
    ensures Inside(Rescaled(p, cx, cy, newWidth / oldWidth, newHeight / oldHeight), ContainerBounds(cx, cy, newWidth, newHeight))
  {
    AxisStaysWithin(cx, p.x, oldWidth, newWidth);
    AxisStaysWithin(cy, p.y, oldHeight, newHeight);
  }

  /** One axis of RescaledStaysInContainer, about centre c. */
  lemma AxisStaysWithin(c: real, q: real, oldSize: real, newSize: real)
    requires 0.0 < oldSize && 0.0 < newSize
    requires c - oldSize / 2.0 <= q <= c + oldSize / 2.0
    ensures c - newSize / 2.0 <= c + (q - c) * (newSize / oldSize) <= c + newSize / 2.0
  {
    var s := newSize / oldSize;
    assert (oldSize / 2.0) * s == newSize / 2.0;
    ScaledOffsetWithin(q - c, oldSize / 2.0, s);
  }

  /** |d| <= h and s > 0 give |d * s| <= h * s. */
  lemma ScaledOffsetWithin(d: real, h: real, s: real)
    requires -h <= d <= h && s > 0.0
    ensures -(h * s) <= d * s <= h * s
  {
  }

  /** Growing the container keeps a particle inside the inner bounds. */
  lemma {:induction false} GrowingKeepsInnerBounds(p: Vec, cx: real, cy: real, oldWidth: real, oldHeight: real, newWidth: real, newHeight: real, margin: real)
    requires 0.0 < oldWidth <= newWidth && 0.0 < oldHeight <= newHeight && margin >= 0.0
    requires Inside(p, InnerBounds(cx, cy, oldWidth, oldHeight, margin))
    ensures Inside(Rescaled(p, cx, cy, newWidth / oldWidth, newHeight / oldHeight), InnerBounds(cx, cy, newWidth, newHeight, margin))
  {
    AxisGrowWithinMargin(cx, p.x, oldWidth, newWidth, margin);
    AxisGrowWithinMargin(cy, p.y, oldHeight, newHeight, margin);
  }

  /** One axis of GrowingKeepsInnerBounds, about centre c. */
  lemma AxisGrowWithinMargin(c: real, q: real, oldSize: real, newSize: real, m: real)
    requires 0.0 < oldSize <= newSize && m >= 0.0
    requires c - oldSize / 2.0 + m <= q <= c + oldSize / 2.0 - m
    ensures c - newSize / 2.0 + m <= c + (q - c) * (newSize / oldSize) <= c + newSize / 2.0 - m
  {
    var s := newSize / oldSize;
    RatioAtLeastOne(newSize, oldSize);
    assert (oldSize / 2.0) * s == newSize / 2.0;
    GrowWithinMargin(q - c, oldSize / 2.0, s, m);
  }

  /** |d| <= h - m, s >= 1 and m >= 0 give |d * s| <= h * s - m. */
  lemma GrowWithinMargin(d: real, h: real, s: real, m: real)
    requires -(h - m) <= d <= h - m && s >= 1.0 && m >= 0.0
    ensures -(h * s - m) <= d * s <= h * s - m
  {
    assert (h - m) * s == h * s - m * s;
    assert m * s >= m;
    if d >= 0.0 {
      assert d * s <= (h - m) * s;
    } else {
      assert -d * s <= (h - m) * s;
    }
  }

  /** Shrinking the container can leave a particle in the radius margin: inside
      the container, outside the inner bounds, until the next updater step. */
  lemma ShrinkingCanLeaveInnerBounds()
    ensures var p := Vec(0.9, 0.0);
      Inside(p, InnerBounds(0.0, 0.0, 2.0, 2.0, 0.1)) &&
      !Inside(Rescaled(p, 0.0, 0.0, 1.0 / 2.0, 2.0 / 2.0), InnerBounds(0.0, 0.0, 1.0, 2.0, 0.1)) &&
      Inside(Rescaled(p, 0.0, 0.0, 1.0 / 2.0, 2.0 / 2.0), ContainerBounds(0.0, 0.0, 1.0, 2.0))
  {
  }

  // ---------------------------------------------------------------------------
  // The container
  // ---------------------------------------------------------------------------

  /** n particles all painted s. */
  function Uniform(n: nat, s: Shade): seq<Shade>
  {
    seq(n, _ => s)
  }

  /** What animate_temperature captures for its per-frame update_temp. */
  datatype TemperatureAnimation = TemperatureAnimation(from: real, to: real, snapshot: seq<Vec>)

  class Gas {
    const numParticles: nat
    const particleRadius: real
    const particleScale: real
    var centerX: real
    var centerY: real
    var width: real
    var height: real
    var temperature: real
    var positions: seq<Vec>
    var velocities: seq<Vec>
    var colors: seq<Shade>

    ghost predicate Valid()
      reads this
    {
      |positions| == numParticles && |velocities| == numParticles && |colors| == numParticles
    }

    function ScaledRadius(): real
    {
      particleRadius * particleScale
    }

    /** Gas.get_bounds. */
    function GetBounds(): (b: Bounds)
      reads this
      ensures b.right - b.left == width && b.top - b.bottom == height
      ensures (b.left + b.right) / 2.0 == centerX && (b.bottom + b.top) / 2.0 == centerY
    {
      ContainerBounds(centerX, centerY, width, height)
    }

    /** The bounds the updater clamps particle centres to. */
    function Inner(): (b: Bounds)
      reads this
      ensures b == Inset(GetBounds(), ScaledRadius())
    {
      InnerBounds(centerX, centerY, width, height, ScaledRadius())
    }

    /** Gas.__init__ with the random placement and the random angles given:
        each position inside the inner bounds, each direction a unit vector. */
    constructor (width: real, height: real, temperature: real, particleRadius: real, particleScale: real,
                 centerX: real, centerY: real, initialPositions: seq<Vec>, directions: seq<Vec>)
      requires |directions| == |initialPositions|
      requires forall i :: 0 <= i < |initialPositions| ==>
        Inside(initialPositions[i], InnerBounds(centerX, centerY, width, height, particleRadius * particleScale))
      requires forall i :: 0 <= i < |directions| ==> NormSq(directions[i]) == 1.0
      ensures Valid() && numParticles == |initialPositions|
      ensures this.width == width && this.height == height && this.temperature == temperature
      ensures this.particleRadius == particleRadius && this.particleScale == particleScale
      ensures this.centerX == centerX && this.centerY == centerY
      ensures positions == initialPositions
      ensures forall i :: 0 <= i < numParticles ==> Inside(positions[i], Inner())
      ensures colors == Uniform(numParticles, TemperatureToColor(temperature))
      ensures forall i :: 0 <= i < numParticles ==> velocities[i] == Scale(WiggleSpeed(temperature), directions[i])
      ensures forall i :: 0 <= i < numParticles ==> NormSq(velocities[i]) == Sq(WiggleSpeed(temperature))
    {
      var speed := WiggleSpeed(temperature);
      var vs: seq<Vec> := [];
      var i := 0;
      while i < |directions|
        invariant 0 <= i <= |directions| && |vs| == i
        invariant forall k :: 0 <= k < i ==> vs[k] == Scale(speed, directions[k])
      {
        vs := vs + [Scale(speed, directions[i])];
        i := i + 1;
      }
      forall k | 0 <= k < |vs|
        ensures NormSq(vs[k]) == Sq(speed)
      {
        NormSqScale(speed, directions[k]);
      }
      this.numParticles := |initialPositions|;
      this.particleRadius := particleRadius;
      this.particleScale := particleScale;
      this.centerX := centerX;
      this.centerY := centerY;
      this.width := width;
      this.height := height;
      this.temperature := temperature;
      this.positions := initialPositions;
      this.colors := Uniform(|initialPositions|, TemperatureToColor(temperature));
      this.velocities := vs;
    }

    /** Gives every particle the colour c, one particle at a time. */
    method Paint(c: Shade)
      requires Valid()
      modifies this
      ensures Valid() && colors == Uniform(numParticles, c)
      ensures positions == old(positions) && velocities == old(velocities)
      ensures temperature == old(temperature) && width == old(width) && height == old(height)
      ensures centerX == old(centerX) && centerY == old(centerY)
    {
      var i := 0;
      while i < numParticles
        invariant 0 <= i <= numParticles && Valid()
        invariant forall k :: 0 <= k < i ==> colors[k] == c
        invariant positions == old(positions) && velocities == old(velocities)
        invariant temperature == old(temperature) && width == old(width) && height == old(height)
        invariant centerX == old(centerX) && centerY == old(centerY)
      {
        colors := colors[i := c];
        i := i + 1;
      }
    }

    /** Gas._wiggle_updater: every particle moves by v * dt * 10 and bounces
        off the inner bounds axis by axis. */
    method Wiggle(dt: real)
      requires Valid()
      modifies this
      ensures Valid()
      ensures temperature == old(temperature) && colors == old(colors)
      ensures width == old(width) && height == old(height)
      ensures centerX == old(centerX) && centerY == old(centerY)
      ensures forall i :: 0 <= i < numParticles ==>
        Particle(positions[i], velocities[i]) == Step(Particle(old(positions[i]), old(velocities[i])), dt, Inner())
      ensures forall i :: 0 <= i < numParticles ==> NormSq(velocities[i]) == NormSq(old(velocities[i]))
      ensures width >= 2.0 * ScaledRadius() && height >= 2.0 * ScaledRadius() ==>
        forall i :: 0 <= i < numParticles ==> Inside(positions[i], Inner())
    {
      var b := Inner();
      var i := 0;
      while i < numParticles
        invariant 0 <= i <= numParticles && Valid()
        invariant temperature == old(temperature) && colors == old(colors)
        invariant width == old(width) && height == old(height)
        invariant centerX == old(centerX) && centerY == old(centerY)
        invariant forall k :: 0 <= k < i ==>
          Particle(positions[k], velocities[k]) == Step(Particle(old(positions[k]), old(velocities[k])), dt, b)
        invariant forall k :: i <= k < numParticles ==>
          positions[k] == old(positions[k]) && velocities[k] == old(velocities[k])
      {
        var v := velocities[i];
        var newPos := Add(positions[i], Scale(10.0, Scale(dt, v)));
        if newPos.x < b.left || newPos.x > b.right {
          v := v.(x := -v.x);
          newPos := newPos.(x := Max(b.left, Min(newPos.x, b.right)));
        }
        if newPos.y < b.bottom || newPos.y > b.top {
          v := v.(y := -v.y);
          newPos := newPos.(y := Max(b.bottom, Min(newPos.y, b.top)));
        }
        velocities := velocities[i := v];
        positions := positions[i := newPos];
        i := i + 1;
      }
    }

    /** Gas.set_temperature: the temperature and a uniform recolouring; the
        particles' motion is untouched. */
    method SetTemperature(newTemperature: real)
      requires Valid()
      modifies this
      ensures Valid() && temperature == newTemperature
      ensures colors == Uniform(numParticles, TemperatureToColor(newTemperature))
      ensures positions == old(positions) && velocities == old(velocities)
      ensures width == old(width) && height == old(height)
      ensures centerX == old(centerX) && centerY == old(centerY)
    {
      temperature := newTemperature;
      var newColor := TemperatureToColor(temperature);
      Paint(newColor);
    }

    /** Gas.animate_temperature: the state its update_temp closure captures.
        The interpolation starts at the current temperature and ends at the
        target, and at the start the velocities are rebuilt unchanged. */
    function AnimateTemperature(newTemperature: real): (a: TemperatureAnimation)
      reads this
      ensures Lerp(a.from, a.to, 0.0) == temperature && Lerp(a.from, a.to, 1.0) == newTemperature
      ensures |a.snapshot| == |velocities|
      ensures temperature != 0.0 ==> ScaleAll(Lerp(a.from, a.to, 0.0) / a.from, a.snapshot) == velocities
    {
      ScaleAllOne(velocities);
      assert temperature != 0.0 ==> Lerp(temperature, newTemperature, 0.0) / temperature == 1.0;
      TemperatureAnimation(temperature, newTemperature, velocities)
    }

    /** update_temp(alpha): the interpolated temperature, a uniform colour, and
        every velocity the snapshot's scaled by the temperature ratio. */
    method UpdateTemp(anim: TemperatureAnimation, alpha: real)
      requires Valid() && anim.from != 0.0 && |anim.snapshot| == numParticles
      modifies this
      ensures Valid() && temperature == Lerp(anim.from, anim.to, alpha)
      ensures colors == Uniform(numParticles, TemperatureToColor(temperature))
      ensures velocities == ScaleAll(temperature / anim.from, anim.snapshot)
      ensures alpha == 0.0 ==> velocities == anim.snapshot
      ensures (forall i :: 0 <= i < numParticles ==> NormSq(anim.snapshot[i]) == Sq(WiggleSpeed(anim.from))) ==>
        forall i :: 0 <= i < numParticles ==> NormSq(velocities[i]) == Sq(WiggleSpeed(temperature))
      ensures positions == old(positions)
      ensures width == old(width) && height == old(height)
      ensures centerX == old(centerX) && centerY == old(centerY)
    {
      var interpTemp := Lerp(anim.from, anim.to, alpha);
      temperature := interpTemp;
      var interpColor := TemperatureToColor(temperature);
      Paint(interpColor);
      var velocityScale := interpTemp / anim.from;
      var i := 0;
      while i < numParticles
        invariant 0 <= i <= numParticles && Valid()
        invariant temperature == interpTemp && colors == Uniform(numParticles, interpColor)
        invariant forall k :: 0 <= k < i ==> velocities[k] == Scale(velocityScale, anim.snapshot[k])
        invariant positions == old(positions)
        invariant width == old(width) && height == old(height)
        invariant centerX == old(centerX) && centerY == old(centerY)
      {
        velocities := velocities[i := Scale(velocityScale, anim.snapshot[i])];
        i := i + 1;
      }
      if alpha == 0.0 {
        assert velocityScale == 1.0;
        ScaleAllOne(anim.snapshot);
      }
      forall k | 0 <= k < numParticles && NormSq(anim.snapshot[k]) == Sq(WiggleSpeed(anim.from))
        ensures NormSq(velocities[k]) == Sq(WiggleSpeed(temperature))
      {
        RatioRescalingFollowsSpeedLaw(anim.snapshot[k], anim.from, interpTemp);
      }
    }

    /** One frame, at alpha, of the animation animate_temperature returns:
        capture the state, then run update_temp on it. */
    method PlayTemperatureAnimation(newTemperature: real, alpha: real)
      requires Valid() && temperature != 0.0
      modifies this
      ensures Valid() && temperature == Lerp(old(temperature), newTemperature, alpha)
      ensures colors == Uniform(numParticles, TemperatureToColor(temperature))
      ensures velocities == ScaleAll(temperature / old(temperature), old(velocities))
      ensures alpha == 0.0 ==> temperature == old(temperature) && velocities == old(velocities)
      ensures alpha == 1.0 ==>
        temperature == newTemperature && velocities == ScaleAll(newTemperature / old(temperature), old(velocities))
      ensures (forall i :: 0 <= i < numParticles ==> NormSq(old(velocities[i])) == Sq(WiggleSpeed(old(temperature)))) ==>
        forall i :: 0 <= i < numParticles ==> NormSq(velocities[i]) == Sq(WiggleSpeed(temperature))
      ensures positions == old(positions)
      ensures width == old(width) && height == old(height)
      ensures centerX == old(centerX) && centerY == old(centerY)
    {
      var anim := AnimateTemperature(newTemperature);
      UpdateTemp(anim, alpha);
    }

    /** Gas.resize: the new size, and every particle's offset from the
        (unchanged) centre scaled by new/old per axis. */
    method Resize(newWidth: real, newHeight: real)
      requires Valid() && width != 0.0 && height != 0.0
      modifies this
      ensures Valid() && width == newWidth && height == newHeight
      ensures centerX == old(centerX) && centerY == old(centerY)
      ensures temperature == old(temperature) && velocities == old(velocities) && colors == old(colors)
      ensures forall i :: 0 <= i < numParticles ==>
        positions[i] == Rescaled(old(positions[i]), centerX, centerY, newWidth / old(width), newHeight / old(height))
    {
      var widthScale := newWidth / width;
      var heightScale := newHeight / height;
      width := newWidth;
      height := newHeight;
      var i := 0;
      while i < numParticles
        invariant 0 <= i <= numParticles && Valid()
        invariant width == newWidth && height == newHeight
        invariant centerX == old(centerX) && centerY == old(centerY)
        invariant temperature == old(temperature) && velocities == old(velocities) && colors == old(colors)
        invariant forall k :: 0 <= k < i ==> positions[k] == Rescaled(old(positions[k]), centerX, centerY, widthScale, heightScale)
        invariant forall k :: i <= k < numParticles ==> positions[k] == old(positions[k])
      {
        var relPos := Vec(positions[i].x - centerX, positions[i].y - centerY);
        relPos := Vec(relPos.x * widthScale, relPos.y * heightScale);
        positions := positions[i := Vec(centerX + relPos.x, centerY + relPos.y)];
        i := i + 1;
      }
    }
  }

  /** Back-to-back temperature animations run to the end (alpha = 1) compose:
      the ratios telescope to the overall ratio, and speeds follow the speed law. */
  lemma {:induction false} AnimationsCompose(v0: seq<Vec>, t0: real, t1: real, t2: real)
    requires t0 != 0.0 && t1 != 0.0
    ensures ScaleAll(t2 / t1, ScaleAll(t1 / t0, v0)) == ScaleAll(t2 / t0, v0)
    ensures (forall i :: 0 <= i < |v0| ==> NormSq(v0[i]) == Sq(WiggleSpeed(t0))) ==>
      forall i :: 0 <= i < |v0| ==> NormSq(Scale(t2 / t0, v0[i])) == Sq(WiggleSpeed(t2))
  {
    ScaleAllRatio(t0, t1, t2, v0);
    if forall i :: 0 <= i < |v0| ==> NormSq(v0[i]) == Sq(WiggleSpeed(t0)) {
      forall i | 0 <= i < |v0|
        ensures NormSq(Scale(t2 / t0, v0[i])) == Sq(WiggleSpeed(t2))
      {
        RatioRescalingFollowsSpeedLaw(v0[i], t0, t2);
      }
    }
  }

  /** Two temperature animations played to the end, one after the other, on
      the same gas: the result is that of one animation straight to the final
      temperature. */
  method PlayTwoAnimations(g: Gas, t1: real, t2: real)
    requires g.Valid() && g.temperature != 0.0 && t1 != 0.0
    modifies g
    ensures g.Valid() && g.temperature == t2
    ensures g.velocities == ScaleAll(t2 / old(g.temperature), old(g.velocities))
    ensures g.colors == Uniform(g.numParticles, TemperatureToColor(t2))
    ensures (forall i :: 0 <= i < g.numParticles ==> NormSq(old(g.velocities[i])) == Sq(WiggleSpeed(old(g.temperature)))) ==>
      forall i :: 0 <= i < g.numParticles ==> NormSq(g.velocities[i]) == Sq(WiggleSpeed(t2))
    ensures g.positions == old(g.positions)
    ensures g.width == old(g.width) && g.height == old(g.height)
    ensures g.centerX == old(g.centerX) && g.centerY == old(g.centerY)
  {
    g.PlayTemperatureAnimation(t1, 1.0);
    g.PlayTemperatureAnimation(t2, 1.0);
    ScaleAllRatio(old(g.temperature), t1, t2, old(g.velocities));
  }
}
