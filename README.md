# Ideal gas container: a Dafny model

This project models the `Gas` animation object of `animations/gas_module.py`.
A `Gas` is a rectangular container. It has a centre, a width and a height, a
temperature, and a fixed particle radius and scale. It holds one position,
velocity and colour per particle. The project also models the four per-frame
closures of `animations/fisica/gas_perfetto/gas_perfetto.py` that drive a gas
through the three thermodynamic scenes:

- `compress_gas` and `expand_gas` move the piston down and back up.
- `update_gas_temp` heats the gas, following a temperature tracker.
- `expand_and_heat_gas` expands and heats the gas at the same time.

There are three modules:

- `Vectors` (`vectors.dfy`) holds two-dimensional real vectors. The source's
  arrays always have a zero z component, so only x and y are kept. It also
  holds the framework's scalar `interpolate`, as `Lerp`.
- `GasModule` (`gas_module.dfy`) holds the pure rules, as functions:
  - the five-band colour map;
  - the speed law;
  - container and inner bounds;
  - the per-axis wall rule;
  - proportional rescaling.

  It also holds the class `Gas`. Its fields are the state the source
  mutates, and its methods are the source's methods as loops over the
  particle sequences.
- `GasPerfetto` (`gas_perfetto.dfy`) holds the closures, as methods on a
  `Gas`. The one-element list `prev_temp` is a `TemperatureCell` object.
  The scene values a closure captures, such as the container floor, the gas
  width and the start and end heights, are parameters.

Where the comments and the code disagree, the model follows the code:

- The comment at `gas_module.py:79` says speed grows with the square root
  of the temperature. `_get_wiggle_speed` (lines 139-143) makes it linear,
  and so does `WiggleSpeed`.
- The docstring of `set_temperature` (line 181) says it changes the speed.
  The code (lines 188-194) changes only the temperature and the colours, and
  so does `SetTemperature`.
- The piston closures assign the whole centre as `[0, new_center_y, 0]`
  (lines 141, 167, 513). The model therefore sets `centerX` to 0, whatever
  it was before.

Facts about the source that the model makes visible:

- `resize` keeps particles inside the container edges. A shrinking resize
  can still leave a particle inside the particle-radius margin, where the
  wall rule does not allow it. The next updater step clamps it back. The
  lemma `ShrinkingCanLeaveInnerBounds` gives a concrete case.
- `update_temp` rebuilds every velocity from the snapshot taken when
  `animate_temperature` was called. So during a temperature animation, each
  frame overwrites the reflections the wall updater made in earlier frames.
  `UpdateTemp` states this outright: the velocities are the snapshot times
  the ratio, whatever they were before.
- `update_gas_temp` multiplies by one ratio at a time. The wall updater
  attached at construction (`gas_module.py:89`) runs in every frame beside
  it (`gas_perfetto.py:342`), and a reflection flips a velocity component.
  So the two closed forms hold only over stretches with no reflection:
  - over such a stretch the ratios telescope (`TempRunTelescopes`), and
    every velocity stays its 300 K value times (kept temperature / 300)
    (`HeatingFromRoomTemperature`);
  - `AnimationsCompose` and `PlayTwoAnimations` likewise assume no
    reflection between two animations.

  `ReflectionBreaksRatio`, together with `BounceOffRightWall`, gives a
  case where one bounce breaks the identity. What survives reflections is
  the speed law: every velocity has the speed for the kept temperature
  (`FollowsSpeedLaw`). `TempStepKeepsSpeedLaw` and `TempRunKeepsSpeedLaw`
  prove it is kept by `update_gas_temp`, and `HeatingFrame` proves it is
  kept from frame to frame, wall step included. `UpdateTemp` and
  `PlayTemperatureAnimation` carry it through `update_temp`.

## Model

| member | source | states |
|---|---|---|
| `Vectors.Lerp` | animations/gas_module.py:220 | `interpolate` returns the start at alpha = 0 and the end at alpha = 1, and moves from the start by alpha times the distance |
| `Vectors.LerpBetween` | animations/fisica/gas_perfetto/gas_perfetto.py:131 | for alpha in [0, 1] the interpolated height or temperature lies between the two end values |
| `Vectors.NormSqScale` | animations/gas_module.py:233 | scaling a velocity by k multiplies its squared magnitude by k squared |
| `Vectors.NormSqZero` | animations/fisica/gas_perfetto/gas_perfetto.py:530-531 | the norm is zero exactly for the zero velocity, the one case that is not rescaled |
| `Vectors.ScaleSameDirection` | animations/gas_module.py:228-233 | a positive multiple of a non-zero velocity keeps its direction |
| `Vectors.ScaleAllOne` | animations/gas_module.py:230-233 | scaling by 1 leaves every velocity as it is |
| `Vectors.ScaleAllRatio` | animations/fisica/gas_perfetto/gas_perfetto.py:330-334 | rescaling all velocities by b/a and then by c/b is rescaling by c/a |
| `GasModule.BandOf` | animations/gas_module.py:123-132 | the if/elif chain of the colour map selects a band that contains the temperature |
| `GasModule.TemperatureToColor` | animations/gas_module.py:116-132 | below 250 K the colour is BLUE_E and below 300 K it is BLUE_D. From 300 K on it is a gradient of the temperature's band, at the fraction of the band's span covered, capped at 1. It is a gradient exactly from 300 K on, and its parameter lies in [0, 1] |
| `GasModule.BandsPartition` | animations/gas_module.py:123-131 | every temperature lies in exactly one band |
| `GasModule.ColorSaturates` | animations/gas_module.py:132 | from 800 K on the colour is the end of the ORANGE to RED_D gradient |
| `GasModule.ColorBlendMonotone` | animations/gas_module.py:127-132 | within one band the gradient parameter does not decrease with temperature |
| `GasModule.GradientsChain` | animations/gas_module.py:125-132 | each gradient starts, at parameter 0, from the colour on which the band below ends. The band just below 300 K is that colour throughout |
| `GasModule.WiggleSpeedLinear` | animations/gas_module.py:134-143 | `WiggleSpeed`, the model of `_get_wiggle_speed` (0.15 times T / 300), is linear in the temperature. It is 0.15 at 300 K and doubles at 600 K |
| `GasModule.RatioRescalingFollowsSpeedLaw` | animations/gas_module.py:228-233 | a velocity with the speed for T0, scaled by T1/T0, has the speed for T1 |
| `GasModule.ContainerBounds` | animations/gas_module.py:275-280 | the bounds have the container's width and height and are centred on its centre |
| `GasModule.InnerBounds` | animations/gas_module.py:150-157 | the wall bounds are the container edges pulled in by the scaled radius. They are non-empty exactly when both sides are at least twice the radius |
| `GasModule.Reflect` | animations/gas_module.py:164-175 | in range, a coordinate and its velocity are unchanged. Out of range, the velocity is negated and the coordinate clamped to the nearer bound, and with proper bounds it ends in range. The speed is kept |
| `GasModule.Step` | animations/gas_module.py:159-177 | one particle's step first takes the tentative move `Tentative` (position plus velocity times dt times 10, line 162) and then applies `Reflect` on each axis. The step keeps the speed and ends inside proper bounds. A tentative move that stays inside is taken as it is |
| `GasModule.StepAxesIndependent` | animations/gas_module.py:165-175 | the x and y walls are handled independently |
| `GasModule.RescaledKeepsPlacement` | animations/gas_module.py:257-262 | `Rescaled`, the per-particle arithmetic of `resize` (the offset from the centre times new/old per axis), keeps each offset as the same fraction of the container size |
| `GasModule.RescaledStaysInContainer` | animations/gas_module.py:249-264 | a particle inside the container is inside the resized container |
| `GasModule.AxisStaysWithin` | animations/gas_module.py:259-262 | one axis of the resize keeps an offset within half the size |
| `GasModule.GrowingKeepsInnerBounds` | animations/gas_module.py:249-264 | a resize that does not shrink keeps every particle inside the wall bounds |
| `GasModule.AxisGrowWithinMargin` | animations/gas_module.py:259-262 | one axis of GrowingKeepsInnerBounds |
| `GasModule.ShrinkingCanLeaveInnerBounds` | animations/gas_module.py:249-264 | a concrete shrinking resize puts a particle inside the container but outside the wall bounds |
| `GasModule.Gas.GetBounds` | animations/gas_module.py:266-280 | `get_bounds` has the container's size and centre |
| `GasModule.Gas.Inner` | animations/gas_module.py:150-157 | the updater's bounds are `get_bounds` pulled in by the scaled radius |
| `GasModule.Gas.constructor` | animations/gas_module.py:61-114 | the fields are as given, and the particles are placed inside the wall bounds. Every particle has the colour for the temperature. Every velocity is the speed for the temperature times its unit direction, so its magnitude is that speed |
| `GasModule.Gas.Paint` | animations/gas_module.py:191-192 | every particle gets the colour, and nothing else changes |
| `GasModule.Gas.Wiggle` | animations/gas_module.py:145-177 | every particle takes one `Step` within the wall bounds. Speeds are kept, and with non-empty bounds every particle ends inside them. Size, centre, temperature and colours are unchanged |
| `GasModule.Gas.SetTemperature` | animations/gas_module.py:179-194 | the temperature is set and every particle recoloured. Positions and velocities are unchanged |
| `GasModule.Gas.AnimateTemperature` | animations/gas_module.py:213-216 | the captured interpolation starts at the current temperature and ends at the target. With a non-zero temperature, rebuilding the velocities at alpha = 0 gives back the current velocities |
| `GasModule.Gas.UpdateTemp` | animations/gas_module.py:219-233 | the temperature is the interpolated one and every particle has its colour. Every velocity is its snapshot value times the temperature ratio, so at alpha = 0 the snapshot. If the snapshot had the speed for the start temperature, every velocity has the speed for the new one. Positions, size and centre are unchanged |
| `GasModule.Gas.PlayTemperatureAnimation` | animations/gas_module.py:213-235 | one frame of the returned animation at alpha sets the interpolated temperature and colour, and every velocity becomes its current value times the temperature ratio. Alpha = 0 changes neither temperature nor velocities. Alpha = 1 reaches the target with velocities scaled by target / start. The speed law is carried through |
| `GasModule.Gas.Resize` | animations/gas_module.py:237-264 | the new size is set, and every particle's offset from the unchanged centre is scaled by new/old on each axis. Nothing else changes |
| `GasModule.AnimationsCompose` | animations/gas_module.py:213-233 | with no reflection in between, two temperature animations run to the end compose into one with the overall ratio. Speeds that followed the speed law at the start follow it at the end |
| `GasModule.PlayTwoAnimations` | animations/gas_module.py:213-235 | playing an animation to t1 and then one to t2, both to the end, leaves the gas at t2 with every velocity its starting value times t2 / start temperature, painted for t2. Speeds that followed the speed law at the start follow it for t2. Positions, size and centre are unchanged |
| `GasPerfetto.PistonPosition` | animations/fisica/gas_perfetto/gas_perfetto.py:132-141 | after a piston step, a particle's x offset is scaled by the width ratio. Its offset from the new centre on the floor is its old offset scaled by the height ratio |
| `GasPerfetto.PistonKeepsInContainer` | animations/fisica/gas_perfetto/gas_perfetto.py:130-141 | a gas centred on the vertical axis keeps its particles inside the moving container |
| `GasPerfetto.FollowPiston` | animations/fisica/gas_perfetto/gas_perfetto.py:132-141 | the gas takes the new size and rests on the floor, centred at x = 0. Every particle moves to its `PistonPosition`, and velocities, temperature and colours are unchanged |
| `GasPerfetto.CompressGas` | animations/fisica/gas_perfetto/gas_perfetto.py:130-141 | the height is interpolated from the start to the compressed height. The gas rests on the floor, and particles move as `FollowPiston` says |
| `GasPerfetto.ExpandGas` | animations/fisica/gas_perfetto/gas_perfetto.py:156-167 | the height is interpolated from the compressed to the start height. The gas rests on the floor, and particles move as `FollowPiston` says |
| `GasPerfetto.TemperatureCell.constructor` | animations/fisica/gas_perfetto/gas_perfetto.py:322 | the cell holds the given temperature |
| `GasPerfetto.TempStep` | animations/fisica/gas_perfetto/gas_perfetto.py:324-334 | afterwards the kept temperature is within 0.01 of the reading. A reading within 0.01 of the kept temperature leaves the state as it was; otherwise the reading becomes the kept temperature. The particle count is unchanged |
| `GasPerfetto.TempStepKeepsRatio` | animations/fisica/gas_perfetto/gas_perfetto.py:328-334 | one call keeps every velocity equal to its reference value times (kept temperature / reference temperature) |
| `GasPerfetto.TempRun` | animations/fisica/gas_perfetto/gas_perfetto.py:324-342 | successive calls on a run of readings, each allowed by `CanRun` only where it divides by a non-zero previous temperature: the particle count is kept, and after a non-empty run the kept temperature is within 0.01 of the last reading |
| `GasPerfetto.TempRunTelescopes` | animations/fisica/gas_perfetto/gas_perfetto.py:322-342 | over any run of readings with no other change to the velocities, every velocity stays its reference value times (kept temperature / reference temperature) |
| `GasPerfetto.HeatingFromRoomTemperature` | animations/fisica/gas_perfetto/gas_perfetto.py:321-342 | starting at 300 K, with no reflection in between, every velocity is its initial value times (kept temperature / 300). Speeds that followed the speed law at 300 K follow it at the kept temperature |
| `GasPerfetto.UpdateGasTemp` | animations/fisica/gas_perfetto/gas_perfetto.py:324-340 | the call is one `TempStep` on (prev_temp, velocities). Past the 0.01 threshold, prev_temp and the temperature become the reading, every velocity is scaled by the ratio and every particle recoloured. Otherwise nothing changes. Positions, size and centre are always unchanged |
| `GasPerfetto.BounceOffRightWall` | animations/gas_module.py:162-169 | a particle at x = 0.5 moving at (1, 0) has its velocity flipped to (-1, 0) by the wall at x = 1 |
| `GasPerfetto.ReflectionBreaksRatio` | animations/fisica/gas_perfetto/gas_perfetto.py:328-334 | after that bounce, heating from 300 K to 600 K gives (-2, 0), while the telescoped form predicts (2, 0) |
| `GasPerfetto.TempStepKeepsSpeedLaw` | animations/fisica/gas_perfetto/gas_perfetto.py:328-335 | if every velocity has the speed for the kept temperature, it still does after one call |
| `GasPerfetto.TempRunKeepsSpeedLaw` | animations/fisica/gas_perfetto/gas_perfetto.py:322-342 | the speed law for the kept temperature holds after any run of calls |
| `GasPerfetto.HeatingFrame` | animations/fisica/gas_perfetto/gas_perfetto.py:342 | one frame of the heating scene runs the wall updater and then `update_gas_temp`. Every position is the wall step of the old particle. Every velocity is the wall step's velocity, times new / kept temperature when the reading is past 0.01. The colours are repainted for the new temperature in that case and unchanged otherwise. Size and centre are unchanged, and the particles stay inside the inner bounds when those are proper. Within 0.01 the kept temperature and `temperature` stay as they were; past 0.01 both become the reading. The kept temperature stays the gas temperature and the speed law for it is kept |
| `GasPerfetto.RenormalizedSpeed` | animations/fisica/gas_perfetto/gas_perfetto.py:524-532 | `Renormalized`, the loop body of lines 529-532, takes a velocity with norm `speed` and scales it by target / speed when the speed is positive. A non-zero velocity brought to the target speed has that speed and keeps its direction. A zero velocity is left as it is |
| `GasPerfetto.ExpandAndHeatGas` | animations/fisica/gas_perfetto/gas_perfetto.py:501-532 | the height and the temperature (300 to 600 K) are interpolated, and the gas rests on the floor. Particles move as `FollowPiston` says and every particle is recoloured. Every moving particle has the speed for the new temperature, and a still one stays still |

## Left out

- Rendering is not modelled: the `VGroup`, the `Dot` objects, `add_updater` and the scenes' `play` and `wait`. A particle is its centre, and colours are symbolic (`Shade`). `interpolate_color` is kept as a value that records its two ends and its parameter.
- Randomness is not modelled. `np.random.uniform` positions and angles are constructor inputs. The constructor requires each position inside the wall bounds and each direction of unit length, which is what `uniform` over those ranges and `(cos, sin)` give.
- `np.linalg.norm` is not modelled. Real numbers have no square root here, so `ExpandAndHeatGas` takes each velocity's norm as `speeds`, with the requirement that it is non-negative and squares to the squared magnitude.
- Frame scheduling is mostly not modelled. The framework's updater order and the interleaving of closures with `_wiggle_updater` are modelled only by `HeatingFrame`, which runs the wall step before `update_gas_temp` (the order the two were added in). Every other closure is a method the caller invokes. A run of `update_gas_temp` with nothing in between is `TempRun` over a sequence of tracker readings.
- Floating-point rounding is not modelled: values are exact reals. The 0.01 threshold of `update_gas_temp` is kept as it stands.
- The z component is dropped. It is always 0 in the source.
- The rest of `gas_perfetto.py` is not part of this model: scene layout, axes, labels, the pressure and volume curves, the piston graphics and the `update_dot` tracker closures. The scenes also build a `Gas` (lines 63, 249, 426) and add and remove `update_gas_temp` as an updater (lines 342, 352). The model covers the objects built and the closures run, not the scene code that wires them up.
- The `run_time` argument of `animate_temperature` is not modelled. It only controls scheduling.
- The `num_particles` argument of the constructor is not a separate input. It is the length of the given position list.
- The constructor's default arguments (`gas_module.py:50-59`: width 2.5, height 3.5, 300 K, 20 particles, radius 0.06, scale 1.0, centre at the origin) are not modelled. Every argument is explicit.
- Division by zero is not modelled. Where the source would raise `ZeroDivisionError` or divide by a zero float, the model requires the divisor to be non-zero:
  - `Resize`, `FollowPiston` and its callers require a non-zero width and height, because of lines 250-251;
  - `UpdateTemp` and `PlayTemperatureAnimation` require a non-zero start temperature, because of line 230;
  - `UpdateGasTemp` requires `CanStep`, and `TempRun` requires `CanRun`: the previous temperature must be non-zero whenever the threshold is passed, because of line 330.
  The model does not describe what the source does in those cases.
