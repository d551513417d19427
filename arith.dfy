/** Facts about real multiplication and division that the solver does not
    find unaided. */
module Arith {

  lemma MulLeq(w: real, a: real, b: real)
    requires 0.0 <= w && a <= b
    ensures w * a <= w * b
  {
    assert w * b - w * a == w * (b - a);
  }

  lemma MulGeq(w: real, a: real, b: real)
    requires w <= 0.0 && a <= b
    ensures w * b <= w * a
  {
    assert w * a - w * b == (-w) * (b - a);
  }

  lemma DivLeq(a: real, b: real, d: real)
    requires d > 0.0 && a <= b
    ensures a / d <= b / d
  {
    var qa, qb := a / d, b / d;
    assert qa * d == a && qb * d == b;
  }

  lemma DivCancel(k: real, m: real, x: real)
    requires m != 0.0
    ensures (k * m * m) * -(x / m) == -(k * m) * x
  {
    var q := x / m;
    assert q * m == x;
    calc {
      (k * m * m) * -q;
      -(k * m) * (m * q);
      -(k * m) * x;
    }
  }

  /** Scaling by a factor in `[0, 1]` stays between zero and the value. */
  lemma MulUnit(w: real, c: real)
    requires 0.0 <= c <= 1.0
    ensures w >= 0.0 ==> 0.0 <= w * c <= w
    ensures w <= 0.0 ==> w <= w * c <= 0.0
  {
    if w >= 0.0 {
      MulLeq(w, 0.0, c);
      MulLeq(w, c, 1.0);
    } else {
      MulGeq(w, 0.0, c);
      MulGeq(w, c, 1.0);
    }
  }

  lemma DivBounds(t: real, d: real)
    requires d > 0.0
    ensures t <= 0.0 ==> t / d <= 0.0
    ensures t >= d ==> t / d >= 1.0
  {
    if t <= 0.0 {
      DivLeq(t, 0.0, d);
    }
    if t >= d {
      DivLeq(d, t, d);
    }
  }

  /** `a + (b - a) * c` moves towards `b` as `c` grows. */
  lemma AffineMonotone(a: real, b: real, c1: real, c2: real)
    requires c1 <= c2
    ensures a <= b ==> a + (b - a) * c1 <= a + (b - a) * c2
    ensures b <= a ==> a + (b - a) * c2 <= a + (b - a) * c1
  {
    if a <= b {
      MulLeq(b - a, c1, c2);
    }
    if b <= a {
      MulGeq(b - a, c1, c2);
    }
  }

  lemma SquareNonNegative(x: real)
    ensures x * x >= 0.0
  {
    if x < 0.0 {
      MulGeq(x, x, 0.0);
    } else {
      MulLeq(x, 0.0, x);
    }
  }

  lemma SquareOfProduct(k: real, m: real)
    ensures -(k * m) * (-(k * m) * (m * m)) == (k * m * m) * (k * m * m)
  {
  }

  lemma DivProduct(g: real, m: real)
    requires m != 0.0
    ensures (g * (m * -1.0) + 0.0) / m == -g
    ensures (g * (m * 0.0) + 0.0) / m == 0.0
  {
    assert g * (m * -1.0) + 0.0 == -g * m;
  }

  /** `t (t + 1) / 2`: the sum `1 + 2 + ... + t` for a natural `t`. */
  function Triangle(t: real): real {
    t * (t + 1.0) / 2.0
  }

  /** Adding `d` once and then `u` more times is adding it `u + 1` times. */
  lemma Accumulate(v: real, d: real, u: real, m: real)
    requires m == u + 1.0
    ensures (v + d) + u * d == v + m * d
  {
  }

  /** One step at constant velocity `vx` from `x` to `x1`, then `n - 1`
      more, is `n` steps. */
  lemma ConstantVelocity(x: real, vx: real, x1: real, vx1: real, r: real, dt: real, n: nat)
    requires n > 0 && x1 == x + dt * vx1 && vx1 == vx
    requires r == x1 + ((n - 1) as real) * dt * vx1
    ensures r == x + (n as real) * dt * vx
  {
    var u := (n - 1) as real;
    assert n as real == u + 1.0;
    assert u * dt * vx + dt * vx == (u + 1.0) * dt * vx;
  }

  /** One drag-free step of height, then `n - 1` more, is `n` steps. */
  lemma FallingHeight(y: real, vy: real, y1: real, vy1: real, r: real, g: real, dt: real, n: nat)
    requires n > 0 && vy1 == vy - g * dt && y1 == y + dt * vy1
    requires r == y1 + ((n - 1) as real) * dt * vy1 - g * dt * dt * Triangle((n - 1) as real)
    ensures r == y + (n as real) * dt * vy - g * dt * dt * Triangle(n as real)
  {
    var u := (n - 1) as real;
    assert n as real == u + 1.0;
    assert Triangle(u + 1.0) == Triangle(u) + u + 1.0;
    calc {
      r;
      y + dt * vy1 + u * dt * vy1 - g * dt * dt * Triangle(u);
      y + (u + 1.0) * dt * (vy - g * dt) - g * dt * dt * Triangle(u);
      y + (u + 1.0) * dt * vy - g * dt * dt * (u + 1.0) - g * dt * dt * Triangle(u);
      y + (n as real) * dt * vy - g * dt * dt * Triangle(n as real);
    }
  }
}
