/** The launcher's brute-force launch search: every angle from `angleMin`
    in steps of one degree (outer loop) and, for each, every speed from
    `speedMin` in steps of one unit per second (inner loop), committing to
    the first candidate whose simulated flight reaches the target. */
module LaunchSearch {
  import opened Vectors
  import opened Trajectory
  import opened Options

  /** What one search reads: the simulation settings (target included), the
      start position, and the two ranges. */
  datatype Grid = Grid(
    sim: SimParams,
    start: Vec3,
    angleMin: real,
    angleMax: real,
    speedMin: real,
    speedMax: real)

  /** How many of `lo, lo + 1, lo + 2, ...` are at most `hi`. */
  function Count(lo: real, hi: real): nat {
    if lo <= hi then (hi - lo).Floor + 1 else 0
  }

  /** The loop test `lo + k <= hi` holds exactly for the first `Count` values. */
  lemma CountIsRange(lo: real, hi: real, k: nat)
    ensures lo + k as real <= hi <==> k < Count(lo, hi)
  {
    if lo <= hi {
      var f := (hi - lo).Floor;
      assert f as real <= hi - lo < f as real + 1.0;
      if k <= f {
        assert k as real <= f as real;
      } else {
        assert k as real >= f as real + 1.0;
      }
    }
  }

  function AngleAt(g: Grid, i: nat): real {
    g.angleMin + i as real
  }

  function SpeedAt(g: Grid, j: nat): real {
    g.speedMin + j as real
  }

  /** Candidate `(i, j)` is angle `angleMin + i` with speed `speedMin + j`,
      and lies inside both ranges. */
  predicate InGrid(g: Grid, i: nat, j: nat) {
    i < Count(g.angleMin, g.angleMax) && j < Count(g.speedMin, g.speedMax)
  }

  /** Candidate `(i, j)` is tried before `(i', j')`: angle first, then speed. */
  predicate Precedes(i: nat, j: nat, i': nat, j': nat) {
    i < i' || (i == i' && j < j')
  }

  /** The launch velocity for an angle and speed: the horizontal direction
      towards the target, tilted by `angle` degrees about `dir x up`, times
      `speed`. */
  function LaunchVelocity(g: Grid, angle: real, speed: real): Vec3 {
    var e := g.sim.engine;
    var horizontal := Vec3(g.sim.target.x - g.start.x, 0.0, g.sim.target.z - g.start.z);
    var dir := e.normalized(horizontal);
    var launchDir := e.angleAxis(angle, Cross(dir, Up), dir);
    Scale(speed, launchDir)
  }

  /** The simulated flight of candidate `(i, j)` reaches the target. */
  predicate Hits(g: Grid, i: nat, j: nat)
    requires g.sim.mass != 0.0
  {
    Simulate(g.sim, g.start, LaunchVelocity(g, AngleAt(g, i), SpeedAt(g, j))).0
  }

  /** No candidate of the grid tried before `(i, j)` hits. */
  ghost predicate MissesBefore(g: Grid, i: nat, j: nat)
    requires g.sim.mass != 0.0
  {
    forall a: nat, b: nat :: InGrid(g, a, b) && Precedes(a, b, i, j) ==> !Hits(g, a, b)
  }

  /** The first hit at or after candidate `(i, j)` in scan order. */
  function ScanFrom(g: Grid, i: nat, j: nat): Option<(nat, nat)>
    requires g.sim.mass != 0.0
    decreases Count(g.angleMin, g.angleMax) - i, Count(g.speedMin, g.speedMax) - j
  {
    if i >= Count(g.angleMin, g.angleMax) then None
    else if j >= Count(g.speedMin, g.speedMax) then ScanFrom(g, i + 1, 0)
    else if Hits(g, i, j) then Some((i, j))
    else ScanFrom(g, i, j + 1)
  }

  /** The scan from `(i, j)` finds a hit of the grid no earlier than
      `(i, j)`, and no candidate of the grid from `(i, j)` up to the one it
      finds (or to the end, when it finds none) hits. */
  lemma {:induction false} ScanFromFindsFirst(g: Grid, i: nat, j: nat)
    requires g.sim.mass != 0.0
    ensures var r := ScanFrom(g, i, j);
      && (r.Some? ==> InGrid(g, r.value.0, r.value.1) && Hits(g, r.value.0, r.value.1)
                      && !Precedes(r.value.0, r.value.1, i, j))
      && (forall a: nat, b: nat ::
            InGrid(g, a, b) && !Precedes(a, b, i, j) && (r.Some? ==> Precedes(a, b, r.value.0, r.value.1))
            ==> !Hits(g, a, b))
    decreases Count(g.angleMin, g.angleMax) - i, Count(g.speedMin, g.speedMax) - j
  {
    if i >= Count(g.angleMin, g.angleMax) {
    } else if j >= Count(g.speedMin, g.speedMax) {
      ScanFromFindsFirst(g, i + 1, 0);
    } else if !Hits(g, i, j) {
      ScanFromFindsFirst(g, i, j + 1);
    }
  }

  /** `TryAutoLaunch`'s choice: the first candidate in scan order whose
      flight hits. */
  function Search(g: Grid): Option<(nat, nat)>
    requires g.sim.mass != 0.0
  {
    ScanFrom(g, 0, 0)
  }

  /** The search result is exactly the earliest hit: a candidate is chosen
      if and only if it is in the grid, hits, and every earlier candidate
      of the grid misses. */
  lemma SearchIsFirstHit(g: Grid, i: nat, j: nat)
    requires g.sim.mass != 0.0
    ensures Search(g) == Some((i, j)) <==> InGrid(g, i, j) && Hits(g, i, j) && MissesBefore(g, i, j)
  {
    ScanFromFindsFirst(g, 0, 0);
    var r := Search(g);
    if InGrid(g, i, j) && Hits(g, i, j) && MissesBefore(g, i, j) {
      assert r.Some?;
    }
  }

  /** The search finds nothing exactly when no candidate of the grid hits. */
  lemma SearchFailsIffNoHit(g: Grid)
    requires g.sim.mass != 0.0
    ensures Search(g).None? <==> forall a: nat, b: nat :: InGrid(g, a, b) ==> !Hits(g, a, b)
  {
    ScanFromFindsFirst(g, 0, 0);
  }

  /** A miss at `(i, j)` extends the run of misses to the next speed. */
  lemma MissesBeforeNextSpeed(g: Grid, i: nat, j: nat)
    requires g.sim.mass != 0.0 && MissesBefore(g, i, j) && !Hits(g, i, j)
    ensures MissesBefore(g, i, j + 1)
  {
  }

  /** Past the last speed of a row, the run of misses reaches the next angle. */
  lemma MissesBeforeNextAngle(g: Grid, i: nat, j: nat)
    requires g.sim.mass != 0.0 && MissesBefore(g, i, j) && j >= Count(g.speedMin, g.speedMax)
    ensures MissesBefore(g, i + 1, 0)
  {
  }

  /** A hit of the grid after nothing but misses is the search result. */
  lemma FirstHitIsFound(g: Grid, i: nat, j: nat)
    requires g.sim.mass != 0.0 && MissesBefore(g, i, j) && Hits(g, i, j)
    requires i < Count(g.angleMin, g.angleMax) && j < Count(g.speedMin, g.speedMax)
    ensures Search(g) == Some((i, j))
  {
    SearchIsFirstHit(g, i, j);
  }

  /** Past the last angle, every candidate of the grid has missed. */
  lemma MissesBeforeEnd(g: Grid, i: nat)
    requires g.sim.mass != 0.0 && MissesBefore(g, i, 0) && i >= Count(g.angleMin, g.angleMax)
    ensures Search(g) == None
  {
    SearchFailsIffNoHit(g);
  }

  /** A candidate is in the grid exactly when the source's two loop tests
      `angle <= angleMax` and `speed <= speedMax` accept its values. */
  lemma InGridIsLoopRange(g: Grid, i: nat, j: nat)
    ensures InGrid(g, i, j) <==> AngleAt(g, i) <= g.angleMax && SpeedAt(g, j) <= g.speedMax
  {
    CountIsRange(g.angleMin, g.angleMax, i);
    CountIsRange(g.speedMin, g.speedMax, j);
  }
}
