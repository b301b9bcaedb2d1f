/** The per-frame closures of animations/fisica/gas_perfetto/gas_perfetto.py
    that drive a Gas: following a moving piston (compress_gas, expand_gas),
    heating with a tracked temperature (update_gas_temp), and expanding while
    heating (expand_and_heat_gas). The values the closures capture from their
    scene are parameters. */
module GasPerfetto {
  import opened Vectors
  import opened GasModule

  // ---------------------------------------------------------------------------
  // Following the piston
  // ---------------------------------------------------------------------------

  /** Where a particle of a gas centred at (cx, cy) and sized oldWidth by
      oldHeight ends up when the gas is resized to newWidth by newHeight and
      shifted up to rest on the floor `bottom`. */
  function PistonPosition(p: Vec, cx: real, cy: real, oldWidth: real, oldHeight: real,
                          newWidth: real, newHeight: real, bottom: real): (r: Vec)
    requires oldWidth != 0.0 && oldHeight != 0.0
    ensures r.x - cx == (p.x - cx) * (newWidth / oldWidth)
    ensures r.y - (bottom + newHeight / 2.0) == (p.y - cy) * (newHeight / oldHeight)
  {
    Add(Rescaled(p, cx, cy, newWidth / oldWidth, newHeight / oldHeight), Vec(0.0, bottom + newHeight / 2.0 - cy))
  }

  /** A gas centred on the vertical axis keeps its particles inside the
      container while the piston moves. */
  lemma {:induction false} PistonKeepsInContainer(p: Vec, cy: real, oldWidth: real, oldHeight: real,
                                                  newWidth: real, newHeight: real, bottom: real)
    requires oldWidth > 0.0 && oldHeight > 0.0 && newWidth > 0.0 && newHeight > 0.0
    requires Inside(p, ContainerBounds(0.0, cy, oldWidth, oldHeight))
    ensures Inside(PistonPosition(p, 0.0, cy, oldWidth, oldHeight, newWidth, newHeight, bottom),
                   ContainerBounds(0.0, bottom + newHeight / 2.0, newWidth, newHeight))
  {
    RescaledStaysInContainer(p, 0.0, cy, oldWidth, oldHeight, newWidth, newHeight);
  }

  /** The block the three piston closures share: resize the gas to the current
      height at fixed width, then shift every particle up so that the gas sits
      on the container floor, and move the centre there. */
  method FollowPiston(gas: Gas, containerBottom: real, gasWidth: real, currentHeight: real)
    requires gas.Valid() && gas.width != 0.0 && gas.height != 0.0
    modifies gas
    ensures gas.Valid()
    ensures gas.width == gasWidth && gas.height == currentHeight
    ensures gas.centerX == 0.0 && gas.centerY == containerBottom + currentHeight / 2.0
    ensures gas.GetBounds().bottom == containerBottom
    ensures gas.temperature == old(gas.temperature) && gas.colors == old(gas.colors)
    ensures gas.velocities == old(gas.velocities)
    ensures forall i :: 0 <= i < gas.numParticles ==>
      gas.positions[i] == PistonPosition(old(gas.positions[i]), old(gas.centerX), old(gas.centerY),
                                         old(gas.width), old(gas.height), gasWidth, currentHeight, containerBottom)
  {
    var newCenterY := containerBottom + currentHeight / 2.0;
    gas.Resize(gasWidth, currentHeight);
    ghost var resized := gas.positions;
    var shiftAmount := newCenterY - gas.centerY;
    var i := 0;
    while i < gas.numParticles
      invariant 0 <= i <= gas.numParticles && gas.Valid()
      invariant gas.width == gasWidth && gas.height == currentHeight
      invariant gas.centerX == old(gas.centerX) && gas.centerY == old(gas.centerY)
      invariant gas.temperature == old(gas.temperature) && gas.colors == old(gas.colors)
      invariant gas.velocities == old(gas.velocities)
      invariant forall k :: 0 <= k < i ==> gas.positions[k] == Add(resized[k], Vec(0.0, shiftAmount))
      invariant forall k :: i <= k < gas.numParticles ==> gas.positions[k] == resized[k]
    {
      gas.positions := gas.positions[i := Add(gas.positions[i], Vec(0.0, shiftAmount))];
      i := i + 1;
    }
    gas.centerX := 0.0;
    gas.centerY := newCenterY;
  }

  /** compress_gas(mob, alpha): the piston moves down from the starting height
      to the compressed height. */
  method CompressGas(gas: Gas, containerBottom: real, gasWidth: real,
                     gasHeightStart: real, gasHeightCompressed: real, alpha: real)
    requires gas.Valid() && gas.width != 0.0 && gas.height != 0.0
    modifies gas
    ensures gas.Valid()
    ensures gas.height == Lerp(gasHeightStart, gasHeightCompressed, alpha) && gas.width == gasWidth
    ensures gas.centerX == 0.0 && gas.centerY == containerBottom + gas.height / 2.0
    ensures gas.GetBounds().bottom == containerBottom
    ensures gas.temperature == old(gas.temperature) && gas.colors == old(gas.colors)
    ensures gas.velocities == old(gas.velocities)
    ensures forall i :: 0 <= i < gas.numParticles ==>
      gas.positions[i] == PistonPosition(old(gas.positions[i]), old(gas.centerX), old(gas.centerY),
                                         old(gas.width), old(gas.height), gasWidth, gas.height, containerBottom)
  {
    var currentHeight := Lerp(gasHeightStart, gasHeightCompressed, alpha);
    FollowPiston(gas, containerBottom, gasWidth, currentHeight);
  }

  /** expand_gas(mob, alpha): the piston moves back up from the compressed
      height to the starting height. */
  method ExpandGas(gas: Gas, containerBottom: real, gasWidth: real,
                   gasHeightCompressed: real, gasHeightStart: real, alpha: real)
    requires gas.Valid() && gas.width != 0.0 && gas.height != 0.0
    modifies gas
    ensures gas.Valid()
    ensures gas.height == Lerp(gasHeightCompressed, gasHeightStart, alpha) && gas.width == gasWidth
    ensures gas.centerX == 0.0 && gas.centerY == containerBottom + gas.height / 2.0
    ensures gas.GetBounds().bottom == containerBottom
    ensures gas.temperature == old(gas.temperature) && gas.colors == old(gas.colors)
    ensures gas.velocities == old(gas.velocities)
    ensures forall i :: 0 <= i < gas.numParticles ==>
      gas.positions[i] == PistonPosition(old(gas.positions[i]), old(gas.centerX), old(gas.centerY),
                                         old(gas.width), old(gas.height), gasWidth, gas.height, containerBottom)
  {
    var currentHeight := Lerp(gasHeightCompressed, gasHeightStart, alpha);
    FollowPiston(gas, containerBottom, gasWidth, currentHeight);
  }

  // ---------------------------------------------------------------------------
  // Heating with a tracked temperature
  // ---------------------------------------------------------------------------

  /** The one-element list `prev_temp` that update_gas_temp keeps its state in. */
  class TemperatureCell {
    var value: real

    constructor (value: real)
      ensures this.value == value
    {
      this.value := value;
    }
  }

  /** Temperature changes up to this size are ignored. */
  const Threshold: real := 0.01

  /** What update_gas_temp reads and writes of the velocities, with the
      previous temperature it keeps. */
  datatype TempTrack = TempTrack(prev: real, velocities: seq<Vec>)

  /** update_gas_temp divides by the previous temperature only once a change
      gets past the threshold. */
  predicate CanStep(t: TempTrack, reading: real)
  {
    Abs(reading - t.prev) > Threshold ==> t.prev != 0.0
  }

  /** One call of update_gas_temp on a tracker reading. */
  function TempStep(t: TempTrack, reading: real): (r: TempTrack)
    requires CanStep(t, reading)
    ensures Abs(reading - r.prev) <= Threshold
    ensures |r.velocities| == |t.velocities|
    ensures r == t || r.prev == reading
    ensures Abs(reading - t.prev) <= Threshold ==> r == t
  {
    if Abs(reading - t.prev) > Threshold then
      TempTrack(reading, ScaleAll(reading / t.prev, t.velocities))
    else
      t
  }

  /** Every call of a run divides only by a nonzero previous temperature. */
  predicate CanRun(t: TempTrack, readings: seq<real>)
    decreases |readings|
  {
    readings == [] || (CanStep(t, readings[0]) && CanRun(TempStep(t, readings[0]), readings[1..]))
  }

  /** update_gas_temp called on successive tracker readings: after a nonempty
      run the kept temperature is within the threshold of the last reading. */
  function TempRun(t: TempTrack, readings: seq<real>): (r: TempTrack)
    requires CanRun(t, readings)
    ensures |r.velocities| == |t.velocities|
    ensures readings != [] ==> Abs(readings[|readings| - 1] - r.prev) <= Threshold
    decreases |readings|
  {
    if readings == [] then t else TempRun(TempStep(t, readings[0]), readings[1..])
  }

  /** A step keeps every velocity its reference value times prev / base. */
  lemma TempStepKeepsRatio(t: TempTrack, reading: real, v0: seq<Vec>, base: real)
    requires CanStep(t, reading) && base != 0.0
    requires t.velocities == ScaleAll(t.prev / base, v0)
    ensures TempStep(t, reading).velocities == ScaleAll(TempStep(t, reading).prev / base, v0)
  {
    if Abs(reading - t.prev) > Threshold {
      ScaleAllRatio(base, t.prev, reading, v0);
    }
  }

  /** Over any run with no other change to the velocities the ratios
      telescope: every velocity stays its reference value times prev / base. */
  lemma {:induction false} TempRunTelescopes(t: TempTrack, readings: seq<real>, v0: seq<Vec>, base: real)
    requires CanRun(t, readings) && base != 0.0
    requires t.velocities == ScaleAll(t.prev / base, v0)
    ensures TempRun(t, readings).velocities == ScaleAll(TempRun(t, readings).prev / base, v0)
    decreases |readings|
  {
    if readings != [] {
      TempStepKeepsRatio(t, readings[0], v0, base);
      TempRunTelescopes(TempStep(t, readings[0]), readings[1..], v0, base);
    }
  }

  /** The heating scene with no wall reflection in between: starting from
      300 K with the initial velocities, every velocity is its initial value
      times prev / 300, and velocities that had the speed for 300 K have the
      speed for the kept temperature. */
  lemma HeatingFromRoomTemperature(v0: seq<Vec>, readings: seq<real>)
    requires CanRun(TempTrack(300.0, v0), readings)
    ensures var r := TempRun(TempTrack(300.0, v0), readings);
      r.velocities == ScaleAll(r.prev / 300.0, v0) &&
      forall i :: 0 <= i < |v0| && NormSq(v0[i]) == Sq(WiggleSpeed(300.0)) ==>
        NormSq(r.velocities[i]) == Sq(WiggleSpeed(r.prev))
  {
    ScaleAllOne(v0);
    assert 300.0 / 300.0 == 1.0;
    TempRunTelescopes(TempTrack(300.0, v0), readings, v0, 300.0);
    var r := TempRun(TempTrack(300.0, v0), readings);
    forall i | 0 <= i < |v0| && NormSq(v0[i]) == Sq(WiggleSpeed(300.0))
      ensures NormSq(r.velocities[i]) == Sq(WiggleSpeed(r.prev))
    {
      RatioRescalingFollowsSpeedLaw(v0[i], 300.0, r.prev);
    }
  }

  /** A particle at 0.5 moving at (1, 0) bounces off the wall at x = 1. */
  lemma BounceOffRightWall()
    ensures Step(Particle(Vec(0.5, 0.0), Vec(1.0, 0.0)), 1.0, Bounds(-1.0, 1.0, -1.0, 1.0)).vel == Vec(-1.0, 0.0)
  {
    TentativeMovePastWall();
    ReflectPastWall();
  }

  /** The move of BounceOffRightWall, before the wall rule. */
  lemma TentativeMovePastWall()
    ensures Tentative(Vec(0.5, 0.0), Vec(1.0, 0.0), 1.0) == Vec(10.5, 0.0)
  {
  }

  /** The wall rule on x for that move. */
  lemma ReflectPastWall()
    ensures Reflect(10.5, 1.0, -1.0, 1.0) == AxisState(1.0, -1.0)
  {
  }

  /** One wall reflection between two calls breaks the ratio identity: after
      the bounce of BounceOffRightWall, heating from 300 K to 600 K gives
      (-2, 0), not twice the initial velocity (1, 0). */
  lemma ReflectionBreaksRatio()
    ensures TempStep(TempTrack(300.0, [Vec(-1.0, 0.0)]), 600.0) == TempTrack(600.0, [Vec(-2.0, 0.0)])
    ensures ScaleAll(600.0 / 300.0, [Vec(1.0, 0.0)]) == [Vec(2.0, 0.0)]
  {
    assert ScaleAll(600.0 / 300.0, [Vec(-1.0, 0.0)])[0] == Vec(-2.0, 0.0);
    assert ScaleAll(600.0 / 300.0, [Vec(1.0, 0.0)])[0] == Vec(2.0, 0.0);
  }

  /** Every velocity has the speed for the kept temperature. Unlike the
      ratios, this survives wall reflections, which keep each speed. */
  predicate FollowsSpeedLaw(t: TempTrack)
  {
    forall i :: 0 <= i < |t.velocities| ==> NormSq(t.velocities[i]) == Sq(WiggleSpeed(t.prev))
  }

  lemma TempStepKeepsSpeedLaw(t: TempTrack, reading: real)
    requires CanStep(t, reading) && FollowsSpeedLaw(t)
    ensures FollowsSpeedLaw(TempStep(t, reading))
  {
    if Abs(reading - t.prev) > Threshold {
      var r := TempStep(t, reading);
      forall i | 0 <= i < |r.velocities|
        ensures NormSq(r.velocities[i]) == Sq(WiggleSpeed(r.prev))
      {
        RatioRescalingFollowsSpeedLaw(t.velocities[i], t.prev, reading);
      }
    }
  }

  lemma {:induction false} TempRunKeepsSpeedLaw(t: TempTrack, readings: seq<real>)
    requires CanRun(t, readings) && FollowsSpeedLaw(t)
    ensures FollowsSpeedLaw(TempRun(t, readings))
    decreases |readings|
  {
    if readings != [] {
      TempStepKeepsSpeedLaw(t, readings[0]);
      TempRunKeepsSpeedLaw(TempStep(t, readings[0]), readings[1..]);
    }
  }

  /** update_gas_temp(mob) on the tracker reading newTemp. */
  method UpdateGasTemp(gas: Gas, prevTemp: TemperatureCell, newTemp: real)
    requires gas.Valid() && CanStep(TempTrack(prevTemp.value, gas.velocities), newTemp)
    modifies gas, prevTemp
    ensures gas.Valid()
    ensures TempTrack(prevTemp.value, gas.velocities) == TempStep(TempTrack(old(prevTemp.value), old(gas.velocities)), newTemp)
    ensures Abs(newTemp - old(prevTemp.value)) > Threshold ==>
      prevTemp.value == newTemp && gas.temperature == newTemp &&
      gas.velocities == ScaleAll(newTemp / old(prevTemp.value), old(gas.velocities)) &&
      gas.colors == Uniform(gas.numParticles, TemperatureToColor(newTemp))
    ensures Abs(newTemp - old(prevTemp.value)) <= Threshold ==>
      prevTemp.value == old(prevTemp.value) && gas.temperature == old(gas.temperature) &&
      gas.velocities == old(gas.velocities) && gas.colors == old(gas.colors)
    ensures gas.positions == old(gas.positions)
    ensures gas.width == old(gas.width) && gas.height == old(gas.height)
    ensures gas.centerX == old(gas.centerX) && gas.centerY == old(gas.centerY)
  {
    if Abs(newTemp - prevTemp.value) > Threshold {
      var tempRatio := newTemp / prevTemp.value;
      var i := 0;
      while i < gas.numParticles
        invariant 0 <= i <= gas.numParticles && gas.Valid()
        invariant prevTemp.value == old(prevTemp.value) && gas.temperature == old(gas.temperature)
        invariant gas.colors == old(gas.colors) && gas.positions == old(gas.positions)
        invariant gas.width == old(gas.width) && gas.height == old(gas.height)
        invariant gas.centerX == old(gas.centerX) && gas.centerY == old(gas.centerY)
        invariant forall k :: 0 <= k < i ==> gas.velocities[k] == Scale(tempRatio, old(gas.velocities[k]))
        invariant forall k :: i <= k < gas.numParticles ==> gas.velocities[k] == old(gas.velocities[k])
      {
        gas.velocities := gas.velocities[i := Scale(tempRatio, gas.velocities[i])];
        i := i + 1;
      }
      prevTemp.value := newTemp;
      gas.temperature := newTemp;
      var newColor := TemperatureToColor(gas.temperature);
      gas.Paint(newColor);
    }
  }

  /** One frame of the heating scene: the wall updater attached when the gas
      was built, then update_gas_temp, added after it. The kept temperature
      stays the gas temperature, and the speed law holds frame after frame. */
  method HeatingFrame(gas: Gas, prevTemp: TemperatureCell, dt: real, newTemp: real)
    requires gas.Valid() && CanStep(TempTrack(prevTemp.value, gas.velocities), newTemp)
    requires gas.temperature == prevTemp.value
    requires FollowsSpeedLaw(TempTrack(prevTemp.value, gas.velocities))
    modifies gas, prevTemp
    ensures gas.Valid() && gas.temperature == prevTemp.value
    ensures FollowsSpeedLaw(TempTrack(prevTemp.value, gas.velocities))
    ensures Abs(newTemp - prevTemp.value) <= Threshold
    ensures Abs(newTemp - old(prevTemp.value)) <= Threshold ==> prevTemp.value == old(prevTemp.value)
    ensures Abs(newTemp - old(prevTemp.value)) > Threshold ==> prevTemp.value == newTemp
    ensures gas.width == old(gas.width) && gas.height == old(gas.height)
    ensures gas.centerX == old(gas.centerX) && gas.centerY == old(gas.centerY)
    ensures forall i :: 0 <= i < gas.numParticles ==>
      gas.positions[i] == Step(Particle(old(gas.positions[i]), old(gas.velocities[i])), dt, gas.Inner()).pos
    ensures Abs(newTemp - old(prevTemp.value)) <= Threshold ==>
      forall i :: 0 <= i < gas.numParticles ==>
        gas.velocities[i] == Step(Particle(old(gas.positions[i]), old(gas.velocities[i])), dt, gas.Inner()).vel
    ensures Abs(newTemp - old(prevTemp.value)) > Threshold ==>
      forall i :: 0 <= i < gas.numParticles ==>
        gas.velocities[i] ==
        Scale(newTemp / old(prevTemp.value), Step(Particle(old(gas.positions[i]), old(gas.velocities[i])), dt, gas.Inner()).vel)
    ensures gas.width >= 2.0 * gas.ScaledRadius() && gas.height >= 2.0 * gas.ScaledRadius() ==>
      forall i :: 0 <= i < gas.numParticles ==> Inside(gas.positions[i], gas.Inner())
    ensures Abs(newTemp - old(prevTemp.value)) <= Threshold ==> gas.colors == old(gas.colors)
    ensures Abs(newTemp - old(prevTemp.value)) > Threshold ==>
      gas.colors == Uniform(gas.numParticles, TemperatureToColor(gas.temperature))
  {
    gas.Wiggle(dt);
    ghost var stepped := gas.velocities;
    assert FollowsSpeedLaw(TempTrack(prevTemp.value, gas.velocities));
    TempStepKeepsSpeedLaw(TempTrack(prevTemp.value, gas.velocities), newTemp);
    UpdateGasTemp(gas, prevTemp, newTemp);
    assert Abs(newTemp - old(prevTemp.value)) > Threshold ==>
      gas.velocities == ScaleAll(newTemp / old(prevTemp.value), stepped);
  }

  // ---------------------------------------------------------------------------
  // Expanding while heating
  // ---------------------------------------------------------------------------

  /** A velocity of Euclidean norm `speed` brought to norm `target`; a zero
      velocity is left as it is. */
  function Renormalized(v: Vec, speed: real, target: real): Vec
  {
    if speed > 0.0 then Scale(target / speed, v) else v
  }

  /** Renormalising reaches the target speed and keeps the direction; a zero
      velocity stays zero. */
  lemma RenormalizedSpeed(v: Vec, speed: real, target: real)
    requires speed >= 0.0 && Sq(speed) == NormSq(v)
    ensures speed > 0.0 ==> NormSq(Renormalized(v, speed, target)) == Sq(target)
    ensures speed > 0.0 && target > 0.0 ==> SameDirection(Renormalized(v, speed, target), v)
    ensures speed == 0.0 ==> Renormalized(v, speed, target) == v == Vec(0.0, 0.0)
  {
    NormSqZero(v);
    if speed > 0.0 {
      NormSqScale(target / speed, v);
      assert Sq(target / speed) * Sq(speed) == Sq(target);
      SquarePositive(speed);
      if target > 0.0 {
        ScaleSameDirection(target / speed, v);
      }
    }
  }

  /** expand_and_heat_gas(mob, alpha), with the Euclidean norm of each current
      velocity given as `speeds`. */
  method ExpandAndHeatGas(gas: Gas, containerBottom: real, gasWidth: real,
                          gasHeightStart: real, gasHeightEnd: real, alpha: real, speeds: seq<real>)
    requires gas.Valid() && gas.width != 0.0 && gas.height != 0.0
    requires |speeds| == gas.numParticles
    requires forall i :: 0 <= i < |speeds| ==> speeds[i] >= 0.0 && Sq(speeds[i]) == NormSq(gas.velocities[i])
    modifies gas
    ensures gas.Valid()
    ensures gas.height == Lerp(gasHeightStart, gasHeightEnd, alpha) && gas.width == gasWidth
    ensures gas.centerX == 0.0 && gas.centerY == containerBottom + gas.height / 2.0
    ensures gas.GetBounds().bottom == containerBottom
    ensures forall i :: 0 <= i < gas.numParticles ==>
      gas.positions[i] == PistonPosition(old(gas.positions[i]), old(gas.centerX), old(gas.centerY),
                                         old(gas.width), old(gas.height), gasWidth, gas.height, containerBottom)
    ensures gas.temperature == Lerp(300.0, 600.0, alpha)
    ensures gas.colors == Uniform(gas.numParticles, TemperatureToColor(gas.temperature))
    ensures forall i :: 0 <= i < gas.numParticles ==>
      gas.velocities[i] == Renormalized(old(gas.velocities[i]), speeds[i], WiggleSpeed(gas.temperature))
    ensures forall i :: 0 <= i < gas.numParticles && speeds[i] > 0.0 ==>
      NormSq(gas.velocities[i]) == Sq(WiggleSpeed(gas.temperature))
    ensures forall i :: 0 <= i < gas.numParticles && speeds[i] == 0.0 ==>
      gas.velocities[i] == old(gas.velocities[i]) == Vec(0.0, 0.0)
  {
    var currentHeight := Lerp(gasHeightStart, gasHeightEnd, alpha);
    FollowPiston(gas, containerBottom, gasWidth, currentHeight);
    var currentTemp := Lerp(300.0, 600.0, alpha);
    gas.temperature := currentTemp;
    var interpColor := TemperatureToColor(gas.temperature);
    gas.Paint(interpColor);
    var velocityScale := currentTemp / 300.0;
    var baseSpeed := 0.15;
    var newSpeed := baseSpeed * velocityScale;
    assert newSpeed == WiggleSpeed(currentTemp);
    ghost var before := gas.positions;
    var i := 0;
    while i < gas.numParticles
      invariant 0 <= i <= gas.numParticles && gas.Valid()
      invariant gas.height == currentHeight && gas.width == gasWidth
      invariant gas.centerX == 0.0 && gas.centerY == containerBottom + currentHeight / 2.0
      invariant gas.positions == before
      invariant gas.temperature == currentTemp && gas.colors == Uniform(gas.numParticles, interpColor)
      invariant forall k :: 0 <= k < i ==>
        gas.velocities[k] == Renormalized(old(gas.velocities[k]), speeds[k], newSpeed)
      invariant forall k :: i <= k < gas.numParticles ==> gas.velocities[k] == old(gas.velocities[k])
    {
      var currentSpeed := speeds[i];
      if currentSpeed > 0.0 {
        gas.velocities := gas.velocities[i := Scale(newSpeed / currentSpeed, gas.velocities[i])];
      }
      i := i + 1;
    }
    forall k | 0 <= k < gas.numParticles
      ensures speeds[k] > 0.0 ==> NormSq(gas.velocities[k]) == Sq(WiggleSpeed(gas.temperature))
      ensures speeds[k] == 0.0 ==> gas.velocities[k] == old(gas.velocities[k]) == Vec(0.0, 0.0)
    {
      RenormalizedSpeed(old(gas.velocities[k]), speeds[k], newSpeed);
    }
  }
}
