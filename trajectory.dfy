/** The launcher's trajectory prediction: a fixed-step explicit Euler
    integration of gravity and quadratic drag at constant mass, stopped at
    the first sample within tolerance of the target, the first sample below
    the ground plane, or after the step cap. */
module Trajectory {
  import opened Vectors
  import opened Physics
  import Arith

  /** Everything one simulated flight reads from the launcher: the engine's
      primitives, the drag constants, the mass (held constant for the whole
      flight), gravity, the simulation time step, the target, the accepted
      distance to it, and the step cap `maxSteps`. */
  datatype SimParams = SimParams(
    engine: Engine,
    aero: Aero,
    mass: real,
    gravity: real,
    timeStep: real,
    target: Vec3,
    tolerance: real,
    maxSteps: int)

  /** The success test: strictly closer to the target than the tolerance. */
  predicate Within(p: SimParams, x: Vec3) {
    p.engine.distance(x, p.target) < p.tolerance
  }

  /** Net force over mass: the weight `mass * down * gravity` plus drag. */
  function Acceleration(p: SimParams, vel: Vec3): Vec3
    requires p.mass != 0.0
  {
    var gravityForce := Scale(p.gravity, Scale(p.mass, Down));
    Div(Add(gravityForce, DragForce(p.aero, p.engine, vel)), p.mass)
  }

  /** One Euler step: the velocity is updated first and the position then
      moves by the NEW velocity. Gives the new position and velocity. */
  function Step(p: SimParams, pos: Vec3, vel: Vec3): (Vec3, Vec3)
    requires p.mass != 0.0
  {
    var vel' := Add(vel, Scale(p.timeStep, Acceleration(p, vel)));
    (Add(pos, Scale(p.timeStep, vel')), vel')
  }

  /** The state after `n` Euler steps, ignoring every stopping rule. */
  function Iterate(p: SimParams, pos: Vec3, vel: Vec3, n: nat): (Vec3, Vec3)
    requires p.mass != 0.0
    decreases n
  {
    if n == 0 then (pos, vel)
    else
      var s := Step(p, pos, vel);
      Iterate(p, s.0, s.1, n - 1)
  }

  function Last(s: seq<Vec3>): Vec3
    requires |s| > 0
  {
    s[|s| - 1]
  }

  /** The rest of a simulated flight: `pts` holds the points recorded so
      far, the rocket is at `pos` with velocity `vel`, and at most `fuel`
      more steps remain. Each step records its new position; the flight
      ends with a hit when that position is within tolerance of the target,
      without one when it is below the ground plane (the target is tested
      first) or when no steps remain. Gives the outcome and all recorded
      points. */
  function Flight(p: SimParams, pts: seq<Vec3>, pos: Vec3, vel: Vec3, fuel: nat): (bool, seq<Vec3>)
    requires p.mass != 0.0
    decreases fuel
  {
    if fuel == 0 then (false, pts)
    else
      var s := Step(p, pos, vel);
      var pts' := pts + [s.0];
      if Within(p, s.0) then (true, pts')
      else if s.0.y < 0.0 then (false, pts')
      else Flight(p, pts', s.0, s.1, fuel - 1)
  }

  /** A flight keeps the points it was given and records at most one more
      per step; it reports a hit exactly when it recorded a point and the
      last one is on target; and when it stops before its steps run out, it
      recorded a point that is on target or below the ground. */
  lemma {:induction false} FlightShape(p: SimParams, pts: seq<Vec3>, pos: Vec3, vel: Vec3, fuel: nat)
    requires p.mass != 0.0
    ensures var r := Flight(p, pts, pos, vel, fuel);
      && |pts| <= |r.1| <= |pts| + fuel && r.1[..|pts|] == pts
      && (r.0 <==> |r.1| > |pts| && Within(p, Last(r.1)))
      && (|r.1| < |pts| + fuel ==> |r.1| > |pts| && (Within(p, Last(r.1)) || Last(r.1).y < 0.0))
    decreases fuel
  {
    if fuel > 0 {
      var s := Step(p, pos, vel);
      var pts' := pts + [s.0];
      if !Within(p, s.0) && s.0.y >= 0.0 {
        var r := Flight(p, pts', s.0, s.1, fuel - 1);
        FlightShape(p, pts', s.0, s.1, fuel - 1);
        assert r.1[..|pts|] == pts' [..|pts|] == pts;
        assert |r.1| == |pts'| ==> Last(r.1) == r.1[..|pts'|][|pts|] == s.0;
      }
    }
  }

  /** Every point the flight records before its last one is above ground
      and off target, and a flight that ends without a hit recorded no
      point on target. */
  lemma {:induction false} FlightStopsAtFirstEnd(p: SimParams, pts: seq<Vec3>, pos: Vec3, vel: Vec3, fuel: nat)
    requires p.mass != 0.0
    ensures var r := Flight(p, pts, pos, vel, fuel);
      && (forall k :: |pts| <= k < |r.1| - 1 ==> !Within(p, r.1[k]) && r.1[k].y >= 0.0)
      && (!r.0 ==> forall k :: |pts| <= k < |r.1| ==> !Within(p, r.1[k]))
    decreases fuel
  {
    if fuel > 0 {
      var s := Step(p, pos, vel);
      var pts' := pts + [s.0];
      if !Within(p, s.0) && s.0.y >= 0.0 {
        var r := Flight(p, pts', s.0, s.1, fuel - 1);
        FlightStopsAtFirstEnd(p, pts', s.0, s.1, fuel - 1);
        FlightShape(p, pts', s.0, s.1, fuel - 1);
        assert r.1[..|pts'|] == pts';
        assert r.1[|pts|] == pts'[|pts|] == s.0;
      }
    }
  }

  /** The point recorded `k` steps into the flight is the position after
      `k` explicit Euler steps. */
  lemma {:induction false} FlightFollowsEuler(p: SimParams, pts: seq<Vec3>, pos: Vec3, vel: Vec3, fuel: nat)
    requires p.mass != 0.0
    ensures var r := Flight(p, pts, pos, vel, fuel);
      forall k :: |pts| <= k < |r.1| ==> r.1[k] == Iterate(p, pos, vel, k - |pts| + 1).0
    decreases fuel
  {
    if fuel > 0 {
      var s := Step(p, pos, vel);
      var pts' := pts + [s.0];
      var r := Flight(p, pts, pos, vel, fuel);
      if Within(p, s.0) || s.0.y < 0.0 {
        assert r.1 == pts';
      } else {
        FlightFollowsEuler(p, pts', s.0, s.1, fuel - 1);
        FlightShape(p, pts', s.0, s.1, fuel - 1);
        assert r == Flight(p, pts', s.0, s.1, fuel - 1);
        assert r.1[..|pts'|] == pts';
        forall k | |pts| <= k < |r.1|
          ensures r.1[k] == Iterate(p, pos, vel, k - |pts| + 1).0
        {
          var m := k - |pts|;
          assert Iterate(p, pos, vel, m + 1) == Iterate(p, s.0, s.1, m);
          if k == |pts| {
            assert r.1[k] == pts'[k] == s.0;
            assert Iterate(p, s.0, s.1, 0) == (s.0, s.1);
          } else {
            assert k - |pts'| + 1 == m;
          }
        }
      }
    }
  }

  /** The number of loop iterations the step cap allows. */
  function StepBudget(maxSteps: int): nat {
    if maxSteps > 0 then maxSteps else 0
  }

  /** `SimulateTrajectory`: the outcome and the recorded points of a flight
      from `start` with `velocity` that begins with the start point and may
      take `StepBudget(maxSteps)` steps. */
  function Simulate(p: SimParams, start: Vec3, velocity: Vec3): (bool, seq<Vec3>)
    requires p.mass != 0.0
  {
    Flight(p, [start], start, velocity, StepBudget(p.maxSteps))
  }

  /** A simulated flight begins at the start point, records at most one
      point per allowed step, hits exactly when its last recorded point is
      on target, and with no steps allowed is just the start point. */
  lemma SimulateShape(p: SimParams, start: Vec3, velocity: Vec3)
    requires p.mass != 0.0
    ensures var r := Simulate(p, start, velocity);
      && 1 <= |r.1| <= StepBudget(p.maxSteps) + 1 && r.1[0] == start
      && (r.0 <==> |r.1| > 1 && Within(p, Last(r.1)))
      && (p.maxSteps <= 0 ==> r == (false, [start]))
  {
    var r := Simulate(p, start, velocity);
    FlightShape(p, [start], start, velocity, StepBudget(p.maxSteps));
    assert r.1[0] == r.1[..1][0];
  }

  /** A simulated flight that misses has no recorded point on target, and
      it ended in one of the two other ways: its last point fell below the
      ground, or it used up the step cap. */
  lemma SimulateMissEndsBelowOrCapped(p: SimParams, start: Vec3, velocity: Vec3)
    requires p.mass != 0.0
    ensures var r := Simulate(p, start, velocity);
      !r.0 ==>
        && (forall k :: 1 <= k < |r.1| ==> !Within(p, r.1[k]))
        && (|| (|r.1| > 1 && Last(r.1).y < 0.0)
            || |r.1| == StepBudget(p.maxSteps) + 1)
  {
    FlightShape(p, [start], start, velocity, StepBudget(p.maxSteps));
    FlightStopsAtFirstEnd(p, [start], start, velocity, StepBudget(p.maxSteps));
  }

  /** Point `k` of a simulated flight is the state after `k` Euler steps. */
  lemma SimulateFollowsEuler(p: SimParams, start: Vec3, velocity: Vec3)
    requires p.mass != 0.0
    ensures var pts := Simulate(p, start, velocity).1;
      forall k :: 0 <= k < |pts| ==> pts[k] == Iterate(p, start, velocity, k).0
  {
    var pts := Simulate(p, start, velocity).1;
    FlightFollowsEuler(p, [start], start, velocity, StepBudget(p.maxSteps));
    SimulateShape(p, start, velocity);
    assert pts == Flight(p, [start], start, velocity, StepBudget(p.maxSteps)).1;
  }

  /** The Euler step with time step `dt` whose velocity change is the
      constant `dv`. */
  function FreeStep(dt: real, dv: Vec3, pos: Vec3, vel: Vec3): (Vec3, Vec3) {
    var vel' := Add(vel, dv);
    (Add(pos, Scale(dt, vel')), vel')
  }

  /** `n` such steps. */
  function FreeFall(dt: real, dv: Vec3, pos: Vec3, vel: Vec3, n: nat): (Vec3, Vec3)
    decreases n
  {
    if n == 0 then (pos, vel)
    else
      var s := FreeStep(dt, dv, pos, vel);
      FreeFall(dt, dv, s.0, s.1, n - 1)
  }

  /** The velocity change of one step under gravity `g` alone. */
  function GravityStep(p: SimParams): Vec3 {
    Scale(p.timeStep, Scale(p.gravity, Down))
  }

  /** Without drag the launcher's step is the step under gravity alone. */
  lemma DragFreeStep(p: SimParams, pos: Vec3, vel: Vec3)
    requires p.mass != 0.0 && p.aero.dragCoefficient == 0.0
    ensures Step(p, pos, vel) == FreeStep(p.timeStep, GravityStep(p), pos, vel)
  {
    var m, g := p.mass, p.gravity;
    DragVanishes(p.aero, p.engine, vel);
    var w := Scale(g, Scale(m, Down));
    assert Add(w, Zero) == Vec3(g * (m * 0.0) + 0.0, g * (m * -1.0) + 0.0, g * (m * 0.0) + 0.0);
    Arith.DivProduct(g, m);
    assert Acceleration(p, vel) == Scale(g, Down);
  }

  /** So without drag the launcher's Euler iterate is free fall. */
  lemma {:induction false} DragFreeIsFreeFall(p: SimParams, pos: Vec3, vel: Vec3, n: nat)
    requires p.mass != 0.0 && p.aero.dragCoefficient == 0.0
    ensures Iterate(p, pos, vel, n) == FreeFall(p.timeStep, GravityStep(p), pos, vel, n)
    decreases n
  {
    if n > 0 {
      var s := Step(p, pos, vel);
      DragFreeStep(p, pos, vel);
      DragFreeIsFreeFall(p, s.0, s.1, n - 1);
    }
  }

  /** In free fall each step adds the constant change to the velocity. */
  lemma {:induction false} FreeFallVelocity(dt: real, dv: Vec3, pos: Vec3, vel: Vec3, n: nat)
    ensures var w := FreeFall(dt, dv, pos, vel, n).1;
      w.x == vel.x + (n as real) * dv.x && w.y == vel.y + (n as real) * dv.y && w.z == vel.z + (n as real) * dv.z
    decreases n
  {
    if n > 0 {
      var s := FreeStep(dt, dv, pos, vel);
      assert FreeFall(dt, dv, pos, vel, n) == FreeFall(dt, dv, s.0, s.1, n - 1);
      FreeFallVelocity(dt, dv, s.0, s.1, n - 1);
      var u, m := (n - 1) as real, n as real;
      Arith.Accumulate(vel.x, dv.x, u, m);
      Arith.Accumulate(vel.y, dv.y, u, m);
      Arith.Accumulate(vel.z, dv.z, u, m);
    }
  }

  /** With no horizontal velocity change, free fall advances `x` by `dt`
      times the constant `x` velocity per step. */
  lemma {:induction false} FreeFallX(dt: real, dv: Vec3, pos: Vec3, vel: Vec3, n: nat)
    requires dv.x == 0.0
    ensures FreeFall(dt, dv, pos, vel, n).0.x == pos.x + (n as real) * dt * vel.x
    decreases n
  {
    if n > 0 {
      var s := FreeStep(dt, dv, pos, vel);
      FreeFallX(dt, dv, s.0, s.1, n - 1);
      Arith.ConstantVelocity(pos.x, vel.x, s.0.x, s.1.x, FreeFall(dt, dv, s.0, s.1, n - 1).0.x, dt, n);
    }
  }

  /** Likewise for `z`. */
  lemma {:induction false} FreeFallZ(dt: real, dv: Vec3, pos: Vec3, vel: Vec3, n: nat)
    requires dv.z == 0.0
    ensures FreeFall(dt, dv, pos, vel, n).0.z == pos.z + (n as real) * dt * vel.z
    decreases n
  {
    if n > 0 {
      var s := FreeStep(dt, dv, pos, vel);
      FreeFallZ(dt, dv, s.0, s.1, n - 1);
      Arith.ConstantVelocity(pos.z, vel.z, s.0.z, s.1.z, FreeFall(dt, dv, s.0, s.1, n - 1).0.z, dt, n);
    }
  }

  /** The height after `n` steps that each lose `g dt` of vertical
      velocity is the discrete projectile law `y + n dt vy - g dt^2 n(n+1)/2`. */
  lemma {:induction false} FreeFallHeight(dt: real, g: real, dv: Vec3, pos: Vec3, vel: Vec3, n: nat)
    requires dv.y == -(g * dt)
    ensures FreeFall(dt, dv, pos, vel, n).0.y == pos.y + (n as real) * dt * vel.y - g * dt * dt * Arith.Triangle(n as real)
    decreases n
  {
    if n > 0 {
      var s := FreeStep(dt, dv, pos, vel);
      assert FreeFall(dt, dv, pos, vel, n) == FreeFall(dt, dv, s.0, s.1, n - 1);
      FreeFallHeight(dt, g, dv, s.0, s.1, n - 1);
      Arith.FallingHeight(pos.y, vel.y, s.0.y, s.1.y, FreeFall(dt, dv, s.0, s.1, n - 1).0.y, g, dt, n);
    }
  }
}
