/** The gravity direction seen from the robot body, and the fall check that reads it. */
module Gravity {

  datatype Vec3 = Vec3(x: real, y: real, z: real)

  datatype Quat = Quat(w: real, x: real, y: real, z: real) {

    function Conjugate(): Quat {
      Quat(w, -x, -y, -z)
    }

    /** Hamilton product. */
    function Times(r: Quat): Quat {
      Quat(w * r.w - x * r.x - y * r.y - z * r.z,
           w * r.x + x * r.w + y * r.z - z * r.y,
           w * r.y - x * r.z + y * r.w + z * r.x,
           w * r.z + x * r.y - y * r.x + z * r.w)
    }

    function NormSquared(): real {
      w * w + x * x + y * y + z * z
    }
  }

  /** The formula of `UpdateProjectedGravity`, in the order in which the code evaluates it. */
  function Projected(quat: Quat): Vec3 {
    var w, x, y, z := quat.w, -quat.x, -quat.y, -quat.z;
    var x2, y2, z2, w2 := x * x, y * y, z * z, w * w;
    var xz, yz, wx, wy := x * z, y * z, w * x, w * y;
    Vec3(-2.0 * (xz + wy), -2.0 * (yz - wx), -(w2 - x2 - y2 + z2))
  }

  /** The test of `CheckTermination`. */
  predicate Fallen(g: Vec3) {
    g.z > 0.0
  }

  /** The formula is the inverse rotation of straight down: the vector part of q* (0,0,0,-1) q, whose scalar part is zero. */
  lemma ProjectedIsInverseRotation(q: Quat)
    ensures var g := Projected(q);
            q.Conjugate().Times(Quat(0.0, 0.0, 0.0, -1.0)).Times(q) == Quat(0.0, g.x, g.y, g.z)
  {
    var d := q.Conjugate().Times(Quat(0.0, 0.0, 0.0, -1.0));
    assert d == Quat(-q.z, q.y, -q.x, -q.w);
  }

  /** Its length is the squared norm of the quaternion, so one for a unit quaternion. */
  lemma ProjectedLength(q: Quat)
    ensures var g := Projected(q);
            g.x * g.x + g.y * g.y + g.z * g.z == q.NormSquared() * q.NormSquared()
  {
    var w, x, y, z := q.w, q.x, q.y, q.z;
    var g := Projected(q);
    assert g.x == -2.0 * (x * z - w * y);
    assert g.y == -2.0 * (y * z + w * x);
    SquareExpansion(w * w, x * x, y * y, z * z);
    assert (x * z - w * y) * (x * z - w * y) == (x * x) * (z * z) - 2.0 * (w * x * y * z) + (w * w) * (y * y);
    assert (y * z + w * x) * (y * z + w * x) == (y * y) * (z * z) + 2.0 * (w * x * y * z) + (w * w) * (x * x);
  }

  lemma SquareExpansion(a: real, b: real, c: real, d: real)
    ensures (a + b + c + d) * (a + b + c + d)
            == (a - b - c + d) * (a - b - c + d) + 4.0 * (b * d + a * c + c * d + a * b)
  {
  }

  /** The fall check fires exactly when the body is tilted past the horizontal. */
  lemma FallenIff(q: Quat)
    ensures Fallen(Projected(q)) <==> q.x * q.x + q.y * q.y > q.w * q.w + q.z * q.z
  {
  }
}
