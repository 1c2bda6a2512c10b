/** Rigid transforms standing in for the wrapper's Eigen::Affine3d and Sophus::SE3f poses.
    A pose is a rotation by a whole number of quarter turns about the z axis followed by a
    translation. This is a genuine, non-commutative group, so every equation the wrapper
    relies on (the order of composition in particular) is checked exactly, without floating
    point. */
module Rigid {

  /** A point or translation in 3D. */
  datatype Vec = Vec(x: real, y: real, z: real)

  /** Number of quarter turns about z, kept in 0..3. */
  type Turns = n: int | 0 <= n < 4

  /** A rigid transform: first rotate by `turns` quarter turns, then translate by `t`.
      Composition is not commutative: a quarter turn after a unit step along x lands at
      (0, 1, 0), the same step after the turn at (1, 0, 0). */
  datatype Pose = Pose(turns: Turns, t: Vec)

  function Add(a: Vec, b: Vec): Vec { Vec(a.x + b.x, a.y + b.y, a.z + b.z) }

  function Neg(a: Vec): Vec { Vec(-a.x, -a.y, -a.z) }

  /** Rotation of `v` by `k` quarter turns about the z axis. */
  function Rotate(k: Turns, v: Vec): Vec
  {
    if k == 0 then v
    else if k == 1 then Vec(-v.y, v.x, v.z)
    else if k == 2 then Vec(-v.x, -v.y, v.z)
    else Vec(v.y, -v.x, v.z)
  }

  function TurnsSum(a: Turns, b: Turns): Turns { if a + b < 4 then a + b else a + b - 4 }

  function TurnsNeg(a: Turns): Turns { if a == 0 then 0 else 4 - a }

  const Identity: Pose := Pose(0, Vec(0.0, 0.0, 0.0))

  /** `a * b` in Eigen: apply `b` first, then `a`. */
  function Compose(a: Pose, b: Pose): Pose
  {
    Pose(TurnsSum(a.turns, b.turns), Add(a.t, Rotate(a.turns, b.t)))
  }

  function Inverse(a: Pose): Pose
  {
    Pose(TurnsNeg(a.turns), Rotate(TurnsNeg(a.turns), Neg(a.t)))
  }

  /** Transform of a point (transformPointWithReference). */
  function Apply(a: Pose, p: Vec): Vec
  {
    Add(a.t, Rotate(a.turns, p))
  }

  /** Translation3d(x, y, 0) * Quaterniond(1, 0, 0, 0): the world-origin offset of root maps. */
  function Offset(x: real, y: real): (r: Pose)
    ensures Apply(r, Vec(0.0, 0.0, 0.0)) == Vec(x, y, 0.0)
    ensures forall p :: Rotate(r.turns, p) == p
  {
    Pose(0, Vec(x, y, 0.0))
  }

  lemma RotateRotate(a: Turns, b: Turns, v: Vec)
    ensures Rotate(a, Rotate(b, v)) == Rotate(TurnsSum(a, b), v)
  {
  }

  lemma RotateAdd(k: Turns, u: Vec, v: Vec)
    ensures Rotate(k, Add(u, v)) == Add(Rotate(k, u), Rotate(k, v))
  {
  }

  lemma ComposeAssociative(a: Pose, b: Pose, c: Pose)
    ensures Compose(Compose(a, b), c) == Compose(a, Compose(b, c))
  {
    RotateRotate(a.turns, b.turns, c.t);
    RotateAdd(a.turns, b.t, Rotate(b.turns, c.t));
  }

  lemma ComposeIdentity(a: Pose)
    ensures Compose(a, Identity) == a && Compose(Identity, a) == a
  {
  }

  lemma InverseCancels(a: Pose)
    ensures Compose(a, Inverse(a)) == Identity
    ensures Compose(Inverse(a), a) == Identity
  {
    RotateRotate(a.turns, TurnsNeg(a.turns), Neg(a.t));
  }

  lemma ApplyCompose(a: Pose, b: Pose, p: Vec)
    ensures Apply(Compose(a, b), p) == Apply(a, Apply(b, p))
  {
    RotateRotate(a.turns, b.turns, p);
    RotateAdd(a.turns, b.t, Rotate(b.turns, p));
  }
}
