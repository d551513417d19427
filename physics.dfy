/** The two pure expressions of the launcher: the quadratic drag force and
    the fuel-burn mass law built from Unity's `Mathf.Clamp01` and `Mathf.Lerp`. */
module Physics {
  import opened Vectors
  import Arith

  /** The serialized air-resistance fields of the launcher. */
  datatype Aero = Aero(airDensity: real, dragCoefficient: real, crossSectionalArea: real)

  /** The factor `0.5 * airDensity * dragCoefficient * crossSectionalArea`
      that multiplies the squared speed. */
  function DragConstant(a: Aero): real {
    0.5 * a.airDensity * a.dragCoefficient * a.crossSectionalArea
  }

  /** The drag force the launcher computes from a velocity, both in its
      trajectory simulation and in its fixed-step update: the squared speed
      times the drag constant, along the reversed normalized velocity. */
  function DragForce(a: Aero, e: Engine, v: Vec3): Vec3 {
    var dragDir := Neg(e.normalized(v));
    var speed := e.magnitude(v);
    Scale(DragConstant(a) * speed * speed, dragDir)
  }

  /** There is no drag at rest, and none without a drag coefficient. */
  lemma DragVanishes(a: Aero, e: Engine, v: Vec3)
    ensures e.magnitude(v) == 0.0 ==> DragForce(a, e, v) == Zero
    ensures a.dragCoefficient == 0.0 ==> DragForce(a, e, v) == Zero
  {
    var c := DragConstant(a) * e.magnitude(v) * e.magnitude(v);
    if e.magnitude(v) == 0.0 || a.dragCoefficient == 0.0 {
      assert c == 0.0;
    }
  }

  /** Where the engine's primitives are Euclidean, drag is `-k |v| v`, and
      it vanishes below the normalization threshold. */
  lemma DragClosedForm(a: Aero, e: Engine, v: Vec3)
    requires NormalizesAt(e, v)
    ensures e.magnitude(v) > NormalizeEpsilon ==> DragForce(a, e, v) == Scale(-(DragConstant(a) * e.magnitude(v)), v)
    ensures e.magnitude(v) <= NormalizeEpsilon ==> DragForce(a, e, v) == Zero
  {
    if e.magnitude(v) > NormalizeEpsilon {
      DragAboveThreshold(a, e, v);
    } else {
      DragBelowThreshold(a, e, v);
    }
  }

  /** Above the threshold, with `normalized` dividing by the magnitude. */
  lemma DragAboveThreshold(a: Aero, e: Engine, v: Vec3)
    requires e.magnitude(v) > NormalizeEpsilon && e.normalized(v) == Div(v, e.magnitude(v))
    ensures DragForce(a, e, v) == Scale(-(DragConstant(a) * e.magnitude(v)), v)
  {
    ScaleAgainst(DragConstant(a), e.magnitude(v), v);
  }

  /** Below the threshold, where `normalized` gives zero. */
  lemma DragBelowThreshold(a: Aero, e: Engine, v: Vec3)
    requires e.normalized(v) == Zero
    ensures DragForce(a, e, v) == Zero
  {
    ScaleZero(DragConstant(a) * e.magnitude(v) * e.magnitude(v));
  }

  lemma ScaleZero(c: real)
    ensures Scale(c, Neg(Zero)) == Zero
  {
    assert Neg(Zero) == Zero;
  }

  lemma ScaleAgainst(k: real, m: real, v: Vec3)
    requires m != 0.0
    ensures Scale(k * m * m, Neg(Div(v, m))) == Scale(-(k * m), v)
  {
    Arith.DivCancel(k, m, v.x);
    Arith.DivCancel(k, m, v.y);
    Arith.DivCancel(k, m, v.z);
  }

  /** So drag (for a non-negative drag constant) never points along the
      velocity. */
  lemma DragOpposesVelocity(a: Aero, e: Engine, v: Vec3)
    requires NormalizesAt(e, v) && DragConstant(a) >= 0.0
    ensures Dot(DragForce(a, e, v), v) <= 0.0
  {
    if e.magnitude(v) > NormalizeEpsilon {
      OpposesAbove(a, e, v);
    } else {
      DragBelowThreshold(a, e, v);
      ZeroAgainst(DragForce(a, e, v), v);
    }
  }

  /** The case of `DragOpposesVelocity` above the threshold. */
  lemma OpposesAbove(a: Aero, e: Engine, v: Vec3)
    requires e.magnitude(v) > NormalizeEpsilon && e.normalized(v) == Div(v, e.magnitude(v))
    requires DragConstant(a) >= 0.0
    ensures Dot(DragForce(a, e, v), v) <= 0.0
  {
    DragAboveThreshold(a, e, v);
    AgainstSign(DragConstant(a), e.magnitude(v), v, DragForce(a, e, v));
  }

  lemma ZeroAgainst(f: Vec3, v: Vec3)
    requires f == Zero
    ensures Dot(f, v) <= 0.0
  {
  }

  /** And above the threshold its length is `k |v|^2`: the squared length
      is `(k |v|^2)^2`. */
  lemma DragLength(a: Aero, e: Engine, v: Vec3)
    requires NormalizesAt(e, v) && MeasuresAt(e, v) && e.magnitude(v) > NormalizeEpsilon
    ensures var m, k := e.magnitude(v), DragConstant(a);
      Dot(DragForce(a, e, v), DragForce(a, e, v)) == (k * m * m) * (k * m * m)
  {
    DragClosedForm(a, e, v);
    AgainstLength(DragConstant(a), e.magnitude(v), v);
  }

  /** The squared length of `-(k m) v` when `m` is the length of `v`. */
  lemma AgainstLength(k: real, m: real, v: Vec3)
    requires m * m == Dot(v, v)
    ensures Dot(Scale(-(k * m), v), Scale(-(k * m), v)) == (k * m * m) * (k * m * m)
  {
    var s, d := -(k * m), Dot(v, v);
    DotScaleLeft(s, v, Scale(s, v));
    DotScaleRight(s, v, v);
    assert Dot(Scale(s, v), Scale(s, v)) == s * (s * d);
    assert s * (s * d) == s * (s * (m * m));
    Arith.SquareOfProduct(k, m);
  }

  /** `-(k m) v` points against `v` when `k` and `m` are non-negative. */
  lemma AgainstSign(k: real, m: real, v: Vec3, f: Vec3)
    requires m >= 0.0 && k >= 0.0 && f == Scale(-(k * m), v)
    ensures Dot(f, v) <= 0.0
  {
    var s, d := -(k * m), Dot(v, v);
    DotScaleLeft(s, v, v);
    assert Dot(f, v) == s * d;
    assert d >= 0.0 by {
      Arith.SquareNonNegative(v.x);
      Arith.SquareNonNegative(v.y);
      Arith.SquareNonNegative(v.z);
    }
    Arith.MulLeq(k, 0.0, m);
    Arith.MulLeq(k * m, 0.0, d);
  }

  /** `Mathf.Clamp01`. */
  function Clamp01(t: real): (r: real)
    ensures 0.0 <= r <= 1.0
    ensures 0.0 <= t <= 1.0 ==> r == t
    ensures t < 0.0 ==> r == 0.0
    ensures t > 1.0 ==> r == 1.0
  {
    if t < 0.0 then 0.0 else if t > 1.0 then 1.0 else t
  }

  /** `r` lies on the closed segment between `a` and `b`, whichever is larger. */
  predicate Between(r: real, a: real, b: real) {
    (a <= b && a <= r <= b) || (b <= a && b <= r <= a)
  }

  /** `Mathf.Lerp`, which clamps its parameter to `[0, 1]` itself. */
  function Lerp(a: real, b: real, t: real): (r: real)
    ensures Between(r, a, b)
    ensures 0.0 <= t <= 1.0 ==> r == (1.0 - t) * a + t * b
    ensures t <= 0.0 ==> r == a
    ensures t >= 1.0 ==> r == b
  {
    var c, w := Clamp01(t), b - a;
    Arith.MulUnit(w, c);
    a + w * c
  }

  /** The fuel-burn fields: mass when full, mass when empty, burn time. */
  datatype FuelBurn = FuelBurn(initialMass: real, dryMass: real, burnDuration: real)

  /** The mass the launcher assigns once the burn clock reads `timer`. */
  function MassAt(f: FuelBurn, timer: real): (m: real)
    requires f.burnDuration > 0.0
    ensures Between(m, f.initialMass, f.dryMass)
    ensures timer <= 0.0 ==> m == f.initialMass
    ensures timer >= f.burnDuration ==> m == f.dryMass
  {
    var q := timer / f.burnDuration;
    Arith.DivBounds(timer, f.burnDuration);
    Lerp(f.initialMass, f.dryMass, Clamp01(q))
  }

  /** As the burn clock advances the mass only moves towards the dry mass. */
  lemma MassAtMonotone(f: FuelBurn, t1: real, t2: real)
    requires f.burnDuration > 0.0 && t1 <= t2
    ensures f.dryMass <= f.initialMass ==> MassAt(f, t2) <= MassAt(f, t1)
    ensures f.initialMass <= f.dryMass ==> MassAt(f, t1) <= MassAt(f, t2)
  {
    var d := f.burnDuration;
    Arith.DivLeq(t1, t2, d);
    LerpMonotone(f.initialMass, f.dryMass, Clamp01(t1 / d), Clamp01(t2 / d));
  }

  /** Moving the parameter forward moves the interpolant towards `b`. */
  lemma LerpMonotone(a: real, b: real, t1: real, t2: real)
    requires t1 <= t2
    ensures b <= a ==> Lerp(a, b, t2) <= Lerp(a, b, t1)
    ensures a <= b ==> Lerp(a, b, t1) <= Lerp(a, b, t2)
  {
    Arith.AffineMonotone(a, b, Clamp01(t1), Clamp01(t2));
  }

  /** One fixed step of the burn: while the clock is short of the burn
      duration it advances by `dt` and the mass is recomputed from it;
      afterwards neither changes. */
  function BurnStep(f: FuelBurn, timer: real, mass: real, dt: real): (r: (real, real))
    requires timer >= 0.0
    ensures timer < f.burnDuration ==> r.0 == timer + dt && Between(r.1, f.initialMass, f.dryMass)
    ensures timer < f.burnDuration && timer + dt >= f.burnDuration ==> r.1 == f.dryMass
    ensures timer >= f.burnDuration ==> r == (timer, mass)
    ensures f.burnDuration <= 0.0 ==> r == (timer, mass)
  {
    if timer < f.burnDuration then
      var timer' := timer + dt;
      (timer', MassAt(f, timer'))
    else
      (timer, mass)
  }

  /** `n` fixed steps of the burn from clock `timer` and mass `mass`. */
  function BurnTicks(f: FuelBurn, timer: real, mass: real, dt: real, n: nat): (r: (real, real))
    requires timer >= 0.0 && dt >= 0.0
    ensures r.0 >= 0.0
    decreases n
  {
    if n == 0 then (timer, mass)
    else
      var s := BurnStep(f, timer, mass, dt);
      BurnTicks(f, s.0, s.1, dt, n - 1)
  }

  /** Once the clock has reached the burn duration, no number of further
      steps changes the clock or the mass, whatever the mass is. */
  lemma {:induction false} StaleBurnKeepsMass(f: FuelBurn, timer: real, mass: real, dt: real, n: nat)
    requires timer >= 0.0 && dt >= 0.0 && timer >= f.burnDuration
    ensures BurnTicks(f, timer, mass, dt, n) == (timer, mass)
    decreases n
  {
    if n > 0 {
      assert BurnStep(f, timer, mass, dt) == (timer, mass);
      StaleBurnKeepsMass(f, timer, mass, dt, n - 1);
    }
  }

  /** The launcher's defaults after a first burn has run out (clock 2 of 2)
      and a second launch with a parsed mass of 3: at 0.02 s a step the mass
      stays 3, outside the range from the full mass 1 to the dry mass 0.5. */
  lemma StaleBurnLeavesRange(n: nat)
    ensures var r := BurnTicks(FuelBurn(1.0, 0.5, 2.0), 2.0, 3.0, 0.02, n);
      r.1 == 3.0 && !Between(r.1, 1.0, 0.5)
  {
    StaleBurnKeepsMass(FuelBurn(1.0, 0.5, 2.0), 2.0, 3.0, 0.02, n);
  }

  /** A mass within the burn range stays within it, tick after tick. */
  lemma {:induction false} BurnTicksKeepRange(f: FuelBurn, timer: real, mass: real, dt: real, n: nat)
    requires timer >= 0.0 && dt >= 0.0 && Between(mass, f.initialMass, f.dryMass)
    ensures Between(BurnTicks(f, timer, mass, dt, n).1, f.initialMass, f.dryMass)
    decreases n
  {
    if n > 0 {
      var s := BurnStep(f, timer, mass, dt);
      BurnTicksKeepRange(f, s.0, s.1, dt, n - 1);
    }
  }

  /** With the burn clock restarted at zero, every tick from the first on
      leaves the mass within the burn range, whatever mass was parsed. */
  lemma RestartedBurnStaysInRange(f: FuelBurn, mass: real, dt: real, n: nat)
    requires f.burnDuration > 0.0 && dt >= 0.0 && n >= 1
    ensures Between(BurnTicks(f, 0.0, mass, dt, n).1, f.initialMass, f.dryMass)
  {
    var s := BurnStep(f, 0.0, mass, dt);
    assert BurnTicks(f, 0.0, mass, dt, n) == BurnTicks(f, s.0, s.1, dt, n - 1);
    BurnTicksKeepRange(f, s.0, s.1, dt, n - 1);
  }

  /** Burn duration 2, masses 1 and 0.5, ticks of 1: the mass goes
      1 -> 0.75 -> 0.5 and then stays at 0.5. */
  lemma BurnScenario()
    ensures var f := FuelBurn(1.0, 0.5, 2.0);
      && BurnStep(f, 0.0, 1.0, 1.0) == (1.0, 0.75)
      && BurnStep(f, 1.0, 0.75, 1.0) == (2.0, 0.5)
      && BurnStep(f, 2.0, 0.5, 1.0) == (2.0, 0.5)
  {
  }
}
