# RocketAutoLauncher, modelled in Dafny

This project models the Unity component `RocketAutoLauncher`. The component
reads a target and a rocket mass from the UI. It then searches a grid of
launch angles and speeds for the first one whose predicted flight reaches the
target, and launches the rocket with that velocity. After launch, each physics
tick burns fuel and returns the drag force to apply.

The model has one file per concern:

- `vectors.dfy` (`Vectors`): Unity's `Vector3` with real components.
  `Engine` holds the engine primitives that use square roots and
  trigonometry: `magnitude`, `normalized`, `Vector3.Distance` and
  `Quaternion.AngleAxis(deg, axis) * v`. They are parameters of the model.
  Two predicates, `NormalizesAt` and `MeasuresAt`, state what they compute
  where a lemma needs it.
- `physics.dfy` (`Physics`): the quadratic drag force, `Mathf.Clamp01`,
  `Mathf.Lerp`, and the fuel-burn mass law used by `FixedUpdate`.
- `trajectory.dfy` (`Trajectory`): the trajectory prediction of
  `SimulateTrajectory` as a specification. `Step` is one explicit Euler step
  that updates the velocity first and the position second. `Flight` is the
  stepping loop with its three exits (on target, below ground, out of steps).
  `Simulate` is the whole call. The drag-free case is related to free fall
  under gravity alone.
- `search.dfy` (`LaunchSearch`): the brute-force search of `TryAutoLaunch` as
  a specification. `ScanFrom` and `Search` walk the candidates in the
  source's order: angle outer, speed inner, both ascending by 1. The lemmas
  state that the result is the first hit in that order.
- `launcher.dfy` (`Launcher`): the component as a class.
  - Its fields are the serialized settings and the launch state.
  - It also has fields for what the component writes into engine objects:
    the rigid body's velocity, angular velocity and mass; the transform's
    position; and the points of the trajectory line.
  - Its methods are the source's handlers. `SimulateTrajectory` and the
    search are loops proved against the specification functions above.

Unity's `float` is modelled as `real`.

## Model

| member | source | states |
|---|---|---|
| Launcher.RocketAutoLauncher.constructor | RocketAutoLauncher.cs:25-54 | The field initializers: mass 1, drag coefficient 0.5, area 0.01, air density 1.225, gravity 9.81, angles 20..80, speeds 5..1000, time step 0.02, accepted distance 1, 1000 steps, masses 1 and 0.5, burn time 2, burn clock 0, not launched |
| Launcher.RocketAutoLauncher.Start | RocketAutoLauncher.cs:56-71 | The current mass starts at the initial mass and the burn clock at zero |
| Launcher.RocketAutoLauncher.OnLaunchButtonClicked | RocketAutoLauncher.cs:73-102 | When already launched, or when a target field does not parse, nothing changes. Otherwise the target is stored. A mass that does not parse leaves the mass, the body's mass and the launch state alone. A parsed mass becomes the rocket's and the body's mass, and the launch state is then `Commit` of the search over the new settings |
| Launcher.Commit | RocketAutoLauncher.cs:117-135 | The launch state a search leaves: on the first hit, launched with that candidate's angle, speed, launch velocity and predicted points; with no hit, the previous state. `CommitShowsHit` proves what a committed launch shows, and `TryAutoLaunch` is proved to leave exactly this state |
| Launcher.RocketAutoLauncher.TryAutoLaunch | RocketAutoLauncher.cs:104-136 | The launch state afterwards is `Commit(grid, before)`. On a hit it is launched with the first hit in scan order: its angle, speed, launch velocity and predicted trajectory. When nothing hits, nothing changes |
| Launcher.RocketAutoLauncher.TrySpeeds | RocketAutoLauncher.cs:112-131 | The inner loop for one angle, given that all earlier angles missed. It reports a launch only with the search result, and otherwise extends the misses to the next angle without changing anything |
| Launcher.CommitShowsHit | RocketAutoLauncher.cs:117-129 | A committed launch is launched. Its shown trajectory starts at the start position and ends within the accepted distance of the target. Its angle and speed lie within the configured ranges |
| Launcher.RocketAutoLauncher.SimulateTrajectory | RocketAutoLauncher.cs:138-166 | The loop returns exactly `Simulate` of the current settings: the same outcome and the same list of points |
| Launcher.RocketAutoLauncher.FixedUpdate | RocketAutoLauncher.cs:174-200 | Before launch nothing changes and no force is applied. After launch the burn clock and mass follow `BurnStep`. No force is applied at speeds up to 0.01, and above that the force is the drag force of the body's velocity |
| Launcher.RocketAutoLauncher.Update | RocketAutoLauncher.cs:208-214 | The reset key resets the launch; otherwise nothing changes |
| Launcher.RocketAutoLauncher.ResetLaunch | RocketAutoLauncher.cs:216-240 | Not launched; velocity, angular velocity and position are zero; the trajectory line is empty; the burn clock and the mass are unchanged |
| Trajectory.Acceleration | RocketAutoLauncher.cs:150-152 | The net force over the mass: the weight `mass * down * gravity` plus `DragForce`, divided by the mass. `DragFreeStep` gives its value without drag |
| Trajectory.Step | RocketAutoLauncher.cs:154-155 | One Euler step: the velocity gains `dt` times the acceleration first, then the position moves by `dt` times the new velocity. `FlightFollowsEuler` and `SimulateFollowsEuler` tie the recorded points to it, and `DragFreeStep` relates it to free fall |
| Trajectory.Flight | RocketAutoLauncher.cs:144-165 | The stepping loop from a given state: each step records its new position, then stops with a hit when that position is on target, without one when it is below ground, or when no steps remain. `FlightShape`, `FlightStopsAtFirstEnd` and `FlightFollowsEuler` carry its properties |
| Trajectory.Simulate | RocketAutoLauncher.cs:138-166 | The whole prediction: a flight from the start point, with the start point recorded first and `maxSteps` steps allowed (none when `maxSteps <= 0`). `SimulateShape`, `SimulateMissEndsBelowOrCapped` and `SimulateFollowsEuler` carry its properties, and `SimulateTrajectory` is proved to compute it |
| Trajectory.FlightShape | RocketAutoLauncher.cs:140-165 | A flight keeps the points already recorded and adds at most one point per allowed step. It succeeds exactly when its last point is within tolerance of the target. When it stops early, its last point is on target or below ground |
| Trajectory.FlightStopsAtFirstEnd | RocketAutoLauncher.cs:158-163 | No point before the last one is on target or below ground. A failed flight has no point on target at all |
| Trajectory.FlightFollowsEuler | RocketAutoLauncher.cs:146-156 | The k-th new point is the position after k Euler steps |
| Trajectory.SimulateShape | RocketAutoLauncher.cs:140-165 | The first point is the start point and there are at most `maxSteps + 1` points. The result is a success exactly when some step was taken and the last point is within tolerance. With `maxSteps <= 0` the result is a failure with only the start point |
| Trajectory.SimulateMissEndsBelowOrCapped | RocketAutoLauncher.cs:144-165 | A failed prediction either ends below ground or used all `maxSteps` steps, and none of its points is on target |
| Trajectory.SimulateFollowsEuler | RocketAutoLauncher.cs:146-156 | Every recorded point after the first is the Euler iterate of the launch state |
| Trajectory.DragFreeStep | RocketAutoLauncher.cs:146-155 | Without drag one step is the step under gravity alone |
| Trajectory.DragFreeIsFreeFall | RocketAutoLauncher.cs:144-156 | Without drag the Euler iterate is free fall with a velocity change of `gravity * dt` downwards per step |
| Trajectory.FreeFallVelocity | RocketAutoLauncher.cs:154 | After n free-fall steps the velocity has gained n times the per-step change |
| Trajectory.FreeFallX | RocketAutoLauncher.cs:154-155 | With no horizontal change, x advances by `n dt vx` |
| Trajectory.FreeFallZ | RocketAutoLauncher.cs:154-155 | With no horizontal change, z advances by `n dt vz` |
| Trajectory.FreeFallHeight | RocketAutoLauncher.cs:154-155 | With `g dt` lost per step, the height is `y + n dt vy - g dt^2 n(n+1)/2` |
| Physics.DragForce | RocketAutoLauncher.cs:146-148 | The drag force of a velocity, used by both the prediction and the physics tick (lines 193-196): `0.5 * airDensity * dragCoefficient * area * speed^2` along the reversed `normalized` velocity. `DragVanishes`, `DragClosedForm`, `DragOpposesVelocity` and `DragLength` carry its properties |
| Physics.DragVanishes | RocketAutoLauncher.cs:146-148 | There is no drag at zero speed or with a zero drag coefficient |
| Physics.DragClosedForm | RocketAutoLauncher.cs:146-148 | Where `normalized` divides by the magnitude, drag is `-k |v| v` above the normalization threshold and zero below it |
| Physics.DragOpposesVelocity | RocketAutoLauncher.cs:193-196 | With a non-negative drag constant, drag never has a positive component along the velocity. This needs only `normalized` to divide by a non-negative magnitude |
| Physics.DragLength | RocketAutoLauncher.cs:193-196 | Above the threshold the squared length of drag is `(k |v|^2)^2` |
| Physics.Clamp01 | RocketAutoLauncher.cs:182 | The result lies in [0, 1]. It is 0 below 0, 1 above 1, and the argument itself within [0, 1] |
| Physics.Lerp | RocketAutoLauncher.cs:183 | The result lies between the two ends. Within [0, 1] it is `(1 - t) a + t b`; at or below 0 it is `a`, and at or above 1 it is `b` |
| Physics.MassAt | RocketAutoLauncher.cs:181-183 | The recomputed mass lies between the initial and dry masses. It is the initial mass at time 0 and the dry mass from the burn duration on |
| Physics.MassAtMonotone | RocketAutoLauncher.cs:179-184 | As the burn clock advances, the mass only moves towards the dry mass |
| Physics.BurnStep | RocketAutoLauncher.cs:179-184 | Short of the burn duration the clock advances by `dt` and the mass stays between the two masses. Crossing the duration gives the dry mass. From the duration on, and for a non-positive duration, nothing changes |
| Physics.StaleBurnKeepsMass | RocketAutoLauncher.cs:179-184 | Once the burn clock is at or past the burn duration, any number of ticks leaves the clock and the mass as they are, whatever the mass |
| Physics.StaleBurnLeavesRange | RocketAutoLauncher.cs:179-184 | With the default settings, a burn clock left at 2 by a reset and a parsed mass of 3, the mass stays 3 on every tick, outside the range from 1 to 0.5 |
| Physics.BurnTicksKeepRange | RocketAutoLauncher.cs:179-184 | A mass within the range from the full to the dry mass stays within it for any number of ticks |
| Physics.RestartedBurnStaysInRange | RocketAutoLauncher.cs:179-184 | From a burn clock at zero and a positive burn duration, every tick from the first on leaves the mass within the burn range, whatever mass was parsed |
| Launcher.RocketAutoLauncher.ResetLaunchRestartingBurn | RocketAutoLauncher.cs:216-240 | The reset of `ResetLaunch` (not launched; zero velocity, angular velocity and position; empty line), with the burn clock back at zero and the mass kept |
| Physics.BurnTicks | RocketAutoLauncher.cs:179-184 | The burn step repeated for `n` ticks of the same length; the clock stays non-negative. `StaleBurnKeepsMass`, `BurnTicksKeepRange` and `RestartedBurnStaysInRange` carry its properties |
| Physics.BurnScenario | RocketAutoLauncher.cs:179-184 | A 2 s burn from mass 1 to 0.5 in 1 s ticks gives 0.75, then 0.5, then stays at 0.5 |
| LaunchSearch.LaunchVelocity | RocketAutoLauncher.cs:114-116 | The launch velocity of an angle and speed: the `normalized` horizontal direction towards the target, turned by `angle` degrees about `dir x up` with the engine's `AngleAxis`, times the speed. `CommitShowsHit` and `SearchIsFirstHit` speak about the flights it starts |
| LaunchSearch.ScanFrom | RocketAutoLauncher.cs:110-133 | The scan over the candidates from `(i, j)` in loop order, angle outer and speed inner, giving the first whose flight hits. `ScanFromFindsFirst` carries its properties |
| LaunchSearch.Search | RocketAutoLauncher.cs:110-133 | The scan from the first candidate. `SearchIsFirstHit` and `SearchFailsIffNoHit` characterise it |
| LaunchSearch.ScanFromFindsFirst | RocketAutoLauncher.cs:110-130 | The scan from a candidate finds a hit of the grid no earlier than that candidate. Every candidate scanned before the one it finds (or before the end) misses |
| LaunchSearch.SearchIsFirstHit | RocketAutoLauncher.cs:110-130 | The search returns a candidate if and only if that candidate is in the grid, hits, and every earlier candidate of the grid misses |
| LaunchSearch.SearchFailsIffNoHit | RocketAutoLauncher.cs:110-135 | The search finds nothing if and only if no candidate of the grid hits |
| LaunchSearch.CountIsRange | RocketAutoLauncher.cs:110-112 | The loop test `lo + k <= hi` holds exactly for the first `Count(lo, hi)` values of k |
| LaunchSearch.InGridIsLoopRange | RocketAutoLauncher.cs:110-112 | A candidate index pair is in the grid exactly when both loop tests accept its angle and speed |

## Left out

- The UI is left out: input fields, button listener, angle and speed texts. A target field that does not parse (`float.Parse` throws) is the `None` target of `OnLaunchButtonClicked`. A mass that does not parse (`float.TryParse` fails) is the `None` mass.
- The trajectory line (`LineRenderer`, `ShowTrajectory`, its widths) is the field `shownTrajectory`. Clearing it is the empty sequence.
- The model assumes the trajectory line and both output texts are assigned in the scene. The source checks `trajectoryLine != null` only in `Start` and `ResetLaunch` (lines 65 and 229), not in `ShowTrajectory` (line 170). When the line or a text is missing, a hit runs part way and then throws:
  - It sets the body's velocity (line 120).
  - It then throws at line 170, or at line 126 or 127 for a missing text after line 123.
  - `launched` keeps its old value (false). A missing line also leaves the selection and the shown points unchanged. A missing text comes after the points and the selection are written (lines 121-123).
  - The rocket flies off with no burn and no drag (`FixedUpdate` returns at line 176), and the launch button stays live.
  - `TryAutoLaunch` instead always commits the whole launch state.
- `Debug.Log` calls and the unused `heightDiff` (line 108) are not modelled. They compute nothing the component uses.
- `targetTransform.position = targetPos` (lines 95-98) only moves a marker object and is not modelled.
- Engine side effects in `Start` are not modelled: `GetComponent`, setting `Physics.gravity`, registering the listener.
- The rigid body's own motion between ticks is not modelled. `rb.AddForce(dragForce)` is the force `FixedUpdate` returns.
- `CalculateLaunchSpeed` (lines 202-206) is never called and is not modelled.
- `CameraMovement.cs` and `RocketController.cs` are not part of this model. They are keyboard glue around the engine.
- Floating point is not modelled: rounding, infinities and NaN. The float loop counters `angle += 1f` and `speed += 1f` (lines 110 and 112) are exact reals here. So the model does not show the drift binary floats would have. Nor does it show a loop that never ends: a counter that reaches 2^24 without a hit stays there, because `+= 1f` no longer changes it. So a range whose maximum is at or above 2^24 can keep the source loop running forever. The model's `decreases` holds only because reals are exact.
- The engine primitives (`magnitude`, `normalized`, `Distance`, `AngleAxis`) are opaque parameters. Properties that need their Euclidean meaning take it as a precondition (`NormalizesAt`, `MeasuresAt`).
- Launcher.RocketAutoLauncher.SimulateTrajectory: requires `rocketMass != 0`. The source divides by the mass and would produce infinities or NaN for 0.
- Launcher.RocketAutoLauncher.TryAutoLaunch: requires `rocketMass != 0` for the same reason.
- Launcher.RocketAutoLauncher.OnLaunchButtonClicked: requires a parsed mass to be non-zero, since that mass then reaches the division.
- Launcher.RocketAutoLauncher.TrySpeeds: the source writes the inner speed loop inside `TryAutoLaunch`. Here it is a method of its own with the same loop and the same early exit. Its `found` result carries the source's `return` out of the outer loop.
- No target is rejected. A target straight above the start gives Unity's zero `normalized` vector, and the search goes on with it.
- No setting is rejected either:
  - A non-positive `burnDuration` means the burn never runs.
  - A non-positive `maxSteps` makes every predicted flight a miss (`Trajectory.SimulateShape`).
  - An angle or speed range whose minimum is above its maximum makes the search find nothing (`LaunchSearch.SearchFailsIffNoHit`).
- `ResetLaunch` keeps the burn clock and the current mass.
- A failed search keeps the previous trajectory line and selection.
- The current mass is not kept between the full and the dry mass:
  - A parsed mass of any value is stored (line 85).
  - On the first launch, the first tick overwrites it with the burn law (line 183).
  - On a later launch, the burn picks up wherever the clock stopped, since `ResetLaunch` leaves it alone:
    - If earlier flights ran the clock up to the burn duration, lines 179-184 never run again, and the parsed mass stays for good (see Findings).
    - If the reset came before burnout, the next flight continues the burn part-way through. Its first tick replaces the parsed mass with the burn-law mass at the old clock plus one tick, which is neither the parsed nor the initial mass.
- The rigid body's mass is set only from the parsed mass (line 86). It never follows the burn. `FixedUpdate` changes `rocketMass`, which only the trajectory prediction reads, and its frame leaves `rbMass` alone.

## Findings

| source | as written | input that shows it | evidently intended | confidence | as-written member | corrected member |
|---|---|---|---|---|---|---|
| RocketAutoLauncher.cs:216-240 | `ResetLaunch` leaves the burn clock where the earlier flights left it. Once it has reached the burn duration, lines 179-184 never recompute the mass on a later launch, and the parsed mass stays. After a reset before burnout, the next flight instead continues the burn part-way through | default settings; a first flight burns out (clock 2 of 2); reset; a mass field of 3: every tick keeps the mass at 3, outside 0.5..1 | a reset also restarts the burn clock, so every launch burns fuel and the mass stays within the full-to-dry range from the first tick | medium, not executed | Physics.StaleBurnLeavesRange | Launcher.RocketAutoLauncher.ResetLaunchRestartingBurn |

The corrected reset is proved together with `Physics.RestartedBurnStaysInRange`. `Update` calls `ResetLaunch` as written, since that is what the reset key does in the source.
