/** Positions in 3D space and the linear blend Unity's Vector3.Lerp performs,
    over the reals instead of single-precision floats. */
module Geometry {

  datatype Vec3 = Vec3(x: real, y: real, z: real)

  /** Vector3.zero, where every proxy is instantiated. */
  const Origin: Vec3 := Vec3(0.0, 0.0, 0.0)

  /** Vector3.Lerp clamps its interpolant to [0, 1] before blending. */
  function Clamp01(t: real): (c: real)
    ensures 0.0 <= c <= 1.0
    ensures 0.0 <= t <= 1.0 ==> c == t
    ensures t < 0.0 ==> c == 0.0
    ensures t > 1.0 ==> c == 1.0
  {
    if t < 0.0 then 0.0 else if t > 1.0 then 1.0 else t
  }

  /** One coordinate of `a + (b - a) * t` with `t` already clamped. */
  function Mix(a: real, b: real, c: real): real
  {
    a + (b - a) * c
  }

  /** Vector3.Lerp(a, b, t): the point a fraction Clamp01(t) of the way from a to b. */
  function Lerp(a: Vec3, b: Vec3, t: real): Vec3
  {
    var c := Clamp01(t);
    Vec3(Mix(a.x, b.x, c), Mix(a.y, b.y, c), Mix(a.z, b.z, c))
  }

  /** `v` lies, coordinate by coordinate, in the box spanned by `a` and `b`. */
  predicate Between(a: Vec3, b: Vec3, v: Vec3)
  {
    (a.x <= v.x <= b.x || b.x <= v.x <= a.x) &&
    (a.y <= v.y <= b.y || b.y <= v.y <= a.y) &&
    (a.z <= v.z <= b.z || b.z <= v.z <= a.z)
  }

  lemma MulNonneg(a: real, b: real)
    requires a >= 0.0 && b >= 0.0
    ensures a * b >= 0.0
  {
  }

  /** A blend by a factor in [0, 1] lies between its two endpoints. */
  lemma MixBetween(a: real, b: real, c: real)
    requires 0.0 <= c <= 1.0
    ensures a <= Mix(a, b, c) <= b || b <= Mix(a, b, c) <= a
  {
    var d := b - a;
    var m, n := d * c, d * (1.0 - c);
    assert n == d - m;
    assert Mix(a, b, c) == a + m;
    if d >= 0.0 {
      MulNonneg(d, c);
      MulNonneg(d, 1.0 - c);
    } else {
      MulNonneg(-d, c);
      MulNonneg(-d, 1.0 - c);
      assert (-d) * c == -m;
      assert (-d) * (1.0 - c) == -n;
    }
  }

  /** No overshoot: whatever the interpolant, every coordinate of the blend
      lies between the current value and the target. */
  lemma LerpBetween(a: Vec3, b: Vec3, t: real)
    ensures Between(a, b, Lerp(a, b, t))
  {
    var c := Clamp01(t);
    MixBetween(a.x, b.x, c);
    MixBetween(a.y, b.y, c);
    MixBetween(a.z, b.z, c);
  }

  /** The endpoints: a zero interpolant stays put, an interpolant of one or
      more lands exactly on the target. */
  lemma LerpEndpoints(a: Vec3, b: Vec3, t: real)
    ensures t <= 0.0 ==> Lerp(a, b, t) == a
    ensures t >= 1.0 ==> Lerp(a, b, t) == b
  {
  }

  /** One blend leaves the fraction 1 - c of the offset to the target. */
  lemma MixOffset(a: real, g: real, c: real)
    ensures Mix(a, g, c) - g == (a - g) * (1.0 - c)
  {
    assert (g - a) * c == -((a - g) * c);
    assert (a - g) * (1.0 - c) == (a - g) - (a - g) * c;
  }

  /** One blend toward `target` shrinks the offset on every axis by the
      factor 1 - c, where c = Clamp01(t) is in [0, 1]. */
  lemma LerpOffset(p: Vec3, target: Vec3, t: real)
    ensures Lerp(p, target, t).x - target.x == (p.x - target.x) * (1.0 - Clamp01(t))
    ensures Lerp(p, target, t).y - target.y == (p.y - target.y) * (1.0 - Clamp01(t))
    ensures Lerp(p, target, t).z - target.z == (p.z - target.z) * (1.0 - Clamp01(t))
  {
    var c := Clamp01(t);
    MixOffset(p.x, target.x, c);
    MixOffset(p.y, target.y, c);
    MixOffset(p.z, target.z, c);
  }

  /** The position reached from `p` after `n` successive blends toward `target`. */
  function Approach(p: Vec3, target: Vec3, t: real, n: nat): Vec3
    decreases n
  {
    if n == 0 then p else Approach(Lerp(p, target, t), target, t, n - 1)
  }

  lemma BetweenTrans(a: Vec3, g: Vec3, v: Vec3, w: Vec3)
    requires Between(a, g, v) && Between(v, g, w)
    ensures Between(a, g, w)
  {
  }

  /** Monotone approach without overshoot: every repeated blend toward a
      fixed target stays between the start and the target, and each further
      step stays between the previous position and the target. */
  lemma {:induction false} ApproachMonotone(p: Vec3, target: Vec3, t: real, n: nat)
    ensures Between(p, target, Approach(p, target, t, n))
    ensures Between(Approach(p, target, t, n), target, Approach(p, target, t, n + 1))
    decreases n
  {
    var p' := Lerp(p, target, t);
    LerpBetween(p, target, t);
    if n > 0 {
      ApproachMonotone(p', target, t, n - 1);
      BetweenTrans(p, target, p', Approach(p, target, t, n));
    }
  }

  /** Once the interpolant reaches one, a single step lands on the target,
      and the proxy then stays there. */
  lemma ApproachReaches(p: Vec3, target: Vec3, t: real, n: nat)
    requires t >= 1.0 && n >= 1
    ensures Approach(p, target, t, n) == target
  {
    LerpEndpoints(p, target, t);
    ApproachMonotone(target, target, t, n - 1);
  }
}
