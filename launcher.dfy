/** The `RocketAutoLauncher` component: its serialized settings, its launch
    state (`launched`, the burn clock, the current mass, the chosen angle
    and speed) and the handlers that change them. The engine objects it
    writes to (the rigid body, the transform, the trajectory line) appear
    as the fields they would hold. */
module Launcher {
  import opened Vectors
  import opened Physics
  import opened Trajectory
  import opened LaunchSearch
  import opened Options

  /** Below this speed the fixed-step update applies no drag. */
  const DragSpeedThreshold: real := 0.01

  /** The part of the launcher's state a launch search writes: whether the
      rocket is launched, the chosen angle and speed, the rigid body's
      velocity and the points of the trajectory line. */
  datatype LaunchState = LaunchState(
    launched: bool,
    angle: real,
    speed: real,
    velocity: Vec3,
    trajectory: seq<Vec3>)

  /** The launch state after searching grid `g` from state `prev`: on a hit
      the rocket is launched with the first hit's angle, speed, launch
      velocity and predicted trajectory; on a miss nothing changes. */
  function Commit(g: Grid, prev: LaunchState): LaunchState
    requires g.sim.mass != 0.0
  {
    match Search(g)
    case None => prev
    case Some((i, j)) =>
      var v := LaunchVelocity(g, AngleAt(g, i), SpeedAt(g, j));
      LaunchState(true, AngleAt(g, i), SpeedAt(g, j), v, Simulate(g.sim, g.start, v).1)
  }

  /** When the search finds a candidate, the committed launch is launched,
      its shown trajectory starts at the start position and ends within the
      accepted distance of the target, and its angle and speed lie inside
      the configured ranges. */
  lemma CommitShowsHit(g: Grid, prev: LaunchState)
    requires g.sim.mass != 0.0 && Search(g).Some?
    ensures var c := Commit(g, prev);
      && c.launched
      && |c.trajectory| > 1 && c.trajectory[0] == g.start && Within(g.sim, Last(c.trajectory))
      && g.angleMin <= c.angle <= g.angleMax && g.speedMin <= c.speed <= g.speedMax
  {
    var (i, j) := Search(g).value;
    SearchIsFirstHit(g, i, j);
    InGridIsLoopRange(g, i, j);
    SimulateShape(g.sim, g.start, LaunchVelocity(g, AngleAt(g, i), SpeedAt(g, j)));
  }

  class RocketAutoLauncher {
    /** The engine's vector primitives. */
    const engine: Engine

    // Physics parameters.
    var rocketMass: real
    var dragCoefficient: real
    var crossSectionalArea: real
    var airDensity: real
    var gravity: real

    // Launch search settings.
    var angleMin: real
    var angleMax: real
    var speedMin: real
    var speedMax: real
    var simulationTimeStep: real
    var acceptableDistance: real
    var maxSteps: int

    // Fuel burn settings and clock.
    var initialRocketMass: real
    var dryMass: real
    var burnDuration: real
    var burnTimer: real

    // Launch state.
    var launched: bool
    var targetPos: Vec3
    var selectedAngle: real
    var selectedSpeed: real

    // What the launcher writes into the engine's objects: the transform's
    // position, the rigid body's velocity, angular velocity and mass, and
    // the points of the trajectory line.
    var position: Vec3
    var rbVelocity: Vec3
    var rbAngularVelocity: Vec3
    var rbMass: real
    var shownTrajectory: seq<Vec3>

    /** The burn clock never runs backwards from zero. */
    ghost predicate Valid()
      reads this
    {
      burnTimer >= 0.0
    }

    function Aerodynamics(): Aero
      reads this`airDensity, this`dragCoefficient, this`crossSectionalArea
    {
      Aero(airDensity, dragCoefficient, crossSectionalArea)
    }

    /** What `SimulateTrajectory` reads from the fields. */
    function Params(): SimParams
      reads this`airDensity, this`dragCoefficient, this`crossSectionalArea, this`rocketMass, this`gravity
      reads this`simulationTimeStep, this`targetPos, this`acceptableDistance, this`maxSteps
    {
      SimParams(engine, Aerodynamics(), rocketMass, gravity, simulationTimeStep,
                targetPos, acceptableDistance, maxSteps)
    }

    /** What `TryAutoLaunch` reads from the fields. */
    function SearchGrid(): Grid
      reads this`airDensity, this`dragCoefficient, this`crossSectionalArea, this`rocketMass, this`gravity
      reads this`simulationTimeStep, this`targetPos, this`acceptableDistance, this`maxSteps
      reads this`position, this`angleMin, this`angleMax, this`speedMin, this`speedMax
    {
      Grid(Params(), position, angleMin, angleMax, speedMin, speedMax)
    }

    function Fuel(): FuelBurn
      reads this`initialRocketMass, this`dryMass, this`burnDuration
    {
      FuelBurn(initialRocketMass, dryMass, burnDuration)
    }

    /** The launch state the search writes. */
    function Shot(): LaunchState
      reads this`launched, this`selectedAngle, this`selectedSpeed, this`rbVelocity, this`shownTrajectory
    {
      LaunchState(launched, selectedAngle, selectedSpeed, rbVelocity, shownTrajectory)
    }

    /** The field initializers of the component. */
    constructor (engine: Engine, position: Vec3)
      ensures Valid() && !launched && this.engine == engine && this.position == position
      ensures rocketMass == 1.0 && dragCoefficient == 0.5 && crossSectionalArea == 0.01
      ensures airDensity == 1.225 && gravity == 9.81
      ensures angleMin == 20.0 && angleMax == 80.0 && speedMin == 5.0 && speedMax == 1000.0
      ensures simulationTimeStep == 0.02 && acceptableDistance == 1.0 && maxSteps == 1000
      ensures initialRocketMass == 1.0 && dryMass == 0.5 && burnDuration == 2.0 && burnTimer == 0.0
    {
      this.engine := engine;
      rocketMass, dragCoefficient, crossSectionalArea, airDensity, gravity := 1.0, 0.5, 0.01, 1.225, 9.81;
      angleMin, angleMax, speedMin, speedMax := 20.0, 80.0, 5.0, 1000.0;
      simulationTimeStep, acceptableDistance, maxSteps := 0.02, 1.0, 1000;
      initialRocketMass, dryMass, burnDuration, burnTimer := 1.0, 0.5, 2.0, 0.0;
      launched, targetPos, selectedAngle, selectedSpeed := false, Zero, 0.0, 0.0;
      this.position := position;
      rbVelocity, rbAngularVelocity, rbMass, shownTrajectory := Zero, Zero, 1.0, [];
    }

    /** `Start`: the current mass starts full and the burn clock at zero. */
    method Start()
      modifies this`rocketMass, this`burnTimer
      ensures Valid() && rocketMass == initialRocketMass && burnTimer == 0.0
    {
      rocketMass := initialRocketMass;
      burnTimer := 0.0;
    }

    /** The launch button. `target` is the parsed target field triple, or
        `None` when one of them does not parse (the handler then stops with
        an exception); `userMass` is the result of parsing the mass field. */
    method OnLaunchButtonClicked(target: Option<Vec3>, userMass: Option<real>)
      requires Valid()
      requires !launched && target.Some? && userMass.Some? ==> userMass.value != 0.0
      modifies this`targetPos, this`rocketMass, this`rbMass, this`launched,
               this`selectedAngle, this`selectedSpeed, this`rbVelocity, this`shownTrajectory
      ensures Valid()
      ensures old(launched) || target.None? ==> unchanged(this)
      ensures !old(launched) && target.Some? ==> targetPos == target.value
      ensures !old(launched) && target.Some? && userMass.None? ==>
        && rocketMass == old(rocketMass) && rbMass == old(rbMass) && launched == old(launched)
        && selectedAngle == old(selectedAngle) && selectedSpeed == old(selectedSpeed)
        && rbVelocity == old(rbVelocity) && shownTrajectory == old(shownTrajectory)
      ensures !old(launched) && target.Some? && userMass.Some? ==>
        && rocketMass == userMass.value && rbMass == userMass.value
        && Shot() == Commit(SearchGrid(), old(Shot()))
    {
      if launched {
        return;
      }
      if target.None? {
        return;
      }
      targetPos := target.value;
      if userMass.Some? {
        rocketMass := userMass.value;
        rbMass := userMass.value;
      } else {
        return;
      }
      TryAutoLaunch();
    }

    /** The grid search with the real-valued loop counters of the source;
        the ghost index `i` counts the angles tried. The inner loop over the
        speeds is `TrySpeeds`. */
    method TryAutoLaunch()
      requires rocketMass != 0.0
      modifies this`launched, this`selectedAngle, this`selectedSpeed, this`rbVelocity, this`shownTrajectory
      ensures Shot() == Commit(SearchGrid(), old(Shot()))
    {
      var startPos := position;
      var horizontal := Vec3(targetPos.x - startPos.x, 0.0, targetPos.z - startPos.z);
      ghost var g := SearchGrid();
      ghost var na := Count(angleMin, angleMax);

      var angle := angleMin;
      ghost var i: nat := 0;
      while angle <= angleMax
        invariant angle == AngleAt(g, i) && i <= na
        invariant MissesBefore(g, i, 0)
        invariant Shot() == old(Shot())
        decreases na - i
      {
        CountIsRange(angleMin, angleMax, i);
        var found := TrySpeeds(startPos, horizontal, angle, g, i);
        if found {
          return;
        }
        angle := angle + 1.0;
        i := i + 1;
      }
      CountIsRange(angleMin, angleMax, i);
      MissesBeforeEnd(g, i);
    }

    /** The inner loop of `TryAutoLaunch`: every speed for the `i`-th angle,
        after the earlier angles all missed. It launches with the first speed
        that hits (which is then the search result); when none does, the
        misses extend to the next angle and nothing changes. */
    method TrySpeeds(startPos: Vec3, horizontal: Vec3, angle: real, ghost g: Grid, ghost i: nat)
      returns (found: bool)
      requires rocketMass != 0.0 && g == SearchGrid()
      requires startPos == position
      requires horizontal == Vec3(targetPos.x - startPos.x, 0.0, targetPos.z - startPos.z)
      requires i < Count(angleMin, angleMax) && angle == AngleAt(g, i)
      requires MissesBefore(g, i, 0)
      modifies this`launched, this`selectedAngle, this`selectedSpeed, this`rbVelocity, this`shownTrajectory
      ensures found ==> Shot() == Commit(g, old(Shot()))
      ensures !found ==> Shot() == old(Shot()) && MissesBefore(g, i + 1, 0)
    {
      ghost var ns := Count(speedMin, speedMax);
      var speed := speedMin;
      ghost var j: nat := 0;
      while speed <= speedMax
        invariant speed == SpeedAt(g, j) && j <= ns
        invariant MissesBefore(g, i, j)
        invariant Shot() == old(Shot())
        decreases ns - j
      {
        CountIsRange(speedMin, speedMax, j);
        var dir := engine.normalized(horizontal);
        var launchDir := engine.angleAxis(angle, Cross(dir, Up), dir);
        var velocity := Scale(speed, launchDir);
        var hit, points := SimulateTrajectory(startPos, velocity);
        assert hit == Hits(g, i, j) by {
          assert g.sim.engine == engine && g.sim.target == targetPos && g.start == startPos;
          assert velocity == LaunchVelocity(g, angle, speed);
          assert Params() == g.sim;
        }
        if hit {
          FirstHitIsFound(g, i, j);
          assert Commit(g, Shot()) == LaunchState(true, angle, speed, velocity, points);
          rbVelocity := velocity;
          shownTrajectory := points;
          selectedAngle := angle;
          selectedSpeed := speed;
          launched := true;
          return true;
        }
        MissesBeforeNextSpeed(g, i, j);
        speed := speed + 1.0;
        j := j + 1;
      }
      CountIsRange(speedMin, speedMax, j);
      MissesBeforeNextAngle(g, i, j);
      return false;
    }

    /** One predicted flight from `startPos` with `velocity`: the sampled
        positions and whether the last one is on the target. */
    method SimulateTrajectory(startPos: Vec3, velocity: Vec3) returns (hit: bool, trajectoryPoints: seq<Vec3>)
      requires rocketMass != 0.0
      ensures (hit, trajectoryPoints) == Simulate(Params(), startPos, velocity)
    {
      ghost var p := Params();
      ghost var n := StepBudget(maxSteps);
      var pos := startPos;
      var vel := velocity;
      trajectoryPoints := [pos];
      var i := 0;
      while i < maxSteps
        invariant 0 <= i <= n
        invariant Simulate(p, startPos, velocity) == Flight(p, trajectoryPoints, pos, vel, n - i)
      {
        ghost var pos0, vel0 := pos, vel;
        var dragForce := DragForce(Aerodynamics(), engine, vel);
        var gravityForce := Scale(gravity, Scale(rocketMass, Down));
        var totalForce := Add(gravityForce, dragForce);
        var acceleration := Div(totalForce, rocketMass);

        vel := Add(vel, Scale(simulationTimeStep, acceleration));
        pos := Add(pos, Scale(simulationTimeStep, vel));
        assert (pos, vel) == Step(p, pos0, vel0);
        trajectoryPoints := trajectoryPoints + [pos];

        if engine.distance(pos, targetPos) < acceptableDistance {
          hit := true;
          return;
        }
        if pos.y < 0.0 {
          break;
        }
        i := i + 1;
      }
      hit := false;
    }

    /** The physics tick after launch: burn fuel while the burn clock is
        short of the burn duration, then hand back the drag force for the
        rigid body's current velocity unless it is nearly at rest. */
    method FixedUpdate(fixedDeltaTime: real) returns (appliedForce: Option<Vec3>)
      requires Valid() && fixedDeltaTime > 0.0
      modifies this`burnTimer, this`rocketMass
      ensures Valid()
      ensures !launched ==> burnTimer == old(burnTimer) && rocketMass == old(rocketMass) && appliedForce.None?
      ensures launched ==> (burnTimer, rocketMass) == BurnStep(Fuel(), old(burnTimer), old(rocketMass), fixedDeltaTime)
      ensures launched && engine.magnitude(rbVelocity) <= DragSpeedThreshold ==> appliedForce.None?
      ensures launched && engine.magnitude(rbVelocity) > DragSpeedThreshold ==>
        appliedForce == Some(DragForce(Aerodynamics(), engine, rbVelocity))
    {
      if !launched {
        return None;
      }
      if burnTimer < burnDuration {
        burnTimer := burnTimer + fixedDeltaTime;
        var t := Clamp01(burnTimer / burnDuration);
        rocketMass := Lerp(initialRocketMass, dryMass, t);
      }
      var speed := engine.magnitude(rbVelocity);
      if speed <= DragSpeedThreshold {
        return None;
      }
      appliedForce := Some(DragForce(Aerodynamics(), engine, rbVelocity));
    }

    /** The per-frame handler: the reset key resets the launch. */
    method Update(resetKeyDown: bool)
      modifies this`rbVelocity, this`rbAngularVelocity, this`position, this`launched, this`shownTrajectory
      ensures resetKeyDown ==> !launched && rbVelocity == Zero && rbAngularVelocity == Zero && position == Zero && shownTrajectory == []
      ensures !resetKeyDown ==> unchanged(this)
    {
      if resetKeyDown {
        ResetLaunch();
      }
    }

    /** Stop the rocket, put it back at the origin, clear the trajectory
        line and allow the next launch. The burn clock and the current mass
        are left as they are. */
    method ResetLaunch()
      modifies this`rbVelocity, this`rbAngularVelocity, this`position, this`launched, this`shownTrajectory
      ensures !launched && rbVelocity == Zero && rbAngularVelocity == Zero && position == Zero
      ensures shownTrajectory == []
      ensures burnTimer == old(burnTimer) && rocketMass == old(rocketMass)
    {
      rbVelocity := Zero;
      rbAngularVelocity := Zero;
      position := Zero;
      launched := false;
      shownTrajectory := [];
    }

    /** `ResetLaunch` as it is evidently meant: the burn clock also starts
        again, so that a later launch burns fuel the way the first one does
        (`Physics.RestartedBurnStaysInRange`). */
    method ResetLaunchRestartingBurn()
      modifies this`rbVelocity, this`rbAngularVelocity, this`position, this`launched, this`shownTrajectory
      modifies this`burnTimer
      ensures Valid()
      ensures !launched && rbVelocity == Zero && rbAngularVelocity == Zero && position == Zero
      ensures shownTrajectory == []
      ensures burnTimer == 0.0 && rocketMass == old(rocketMass)
    {
      ResetLaunch();
      burnTimer := 0.0;
    }
  }
}
