/** Option type used for nullable pointers and optional outputs. */
module Wrappers {
  datatype Option<T> = None | Some(value: T)
}

/**
 * Vectors and rigid transforms. The fixed-point scalar, vector and transform
 * types of the game are modelled on exact reals: no rounding and no overflow.
 * A transform is given by its rotation columns and its translation; a point
 * is mapped as m0 * v.x + m1 * v.y (+ m2 * v.z) + t.
 */
module Geometry {

  datatype Vec2 = Vec2(x: real, y: real)
  datatype Vec3 = Vec3(x: real, y: real, z: real)

  /** Sine and cosine of an angle, as produced by the game's sine table. */
  datatype Trig = Trig(sin: real, cos: real)

  function Add2(a: Vec2, b: Vec2): Vec2 { Vec2(a.x + b.x, a.y + b.y) }
  function Sub2(a: Vec2, b: Vec2): Vec2 { Vec2(a.x - b.x, a.y - b.y) }
  function Scale2(a: Vec2, k: real): Vec2 { Vec2(a.x * k, a.y * k) }
  function Dot2(a: Vec2, b: Vec2): real { a.x * b.x + a.y * b.y }

  function Add3(a: Vec3, b: Vec3): Vec3 { Vec3(a.x + b.x, a.y + b.y, a.z + b.z) }
  function Scale3(a: Vec3, k: real): Vec3 { Vec3(a.x * k, a.y * k, a.z * k) }
  function Neg3(a: Vec3): Vec3 { Vec3(-a.x, -a.y, -a.z) }

  function Abs(x: real): real { if x < 0.0 then -x else x }

  /** A 2D transform: rotation columns m0, m1 and translation t. */
  datatype Transform2D = Transform2D(m0: Vec2, m1: Vec2, t: Vec2)

  /** Rotation only (the library's rotateVector). */
  function Rotate2(tr: Transform2D, v: Vec2): Vec2
  {
    Add2(Scale2(tr.m0, v.x), Scale2(tr.m1, v.y))
  }

  /** Rotation then translation (the library's transformVector). */
  function Transform2(tr: Transform2D, v: Vec2): Vec2
  {
    Add2(Rotate2(tr, v), tr.t)
  }

  /** The rotation block has orthonormal columns: the transform is rigid. */
  predicate Orthonormal(tr: Transform2D)
  {
    Dot2(tr.m0, tr.m0) == 1.0 && Dot2(tr.m1, tr.m1) == 1.0 && Dot2(tr.m0, tr.m1) == 0.0
  }

  /**
   * The orthonormal-inverse shortcut: transpose the rotation block and
   * rotate-and-negate the translation. Valid only for rigid transforms.
   */
  function OrthonormalInvert(tr: Transform2D): (inv: Transform2D)
    ensures inv.m0 == Vec2(tr.m0.x, tr.m1.x) && inv.m1 == Vec2(tr.m0.y, tr.m1.y)
    ensures inv.t == Vec2(-Dot2(tr.m0, tr.t), -Dot2(tr.m1, tr.t))
  {
    var m0 := Vec2(tr.m0.x, tr.m1.x);
    var m1 := Vec2(tr.m0.y, tr.m1.y);
    var r := Rotate2(Transform2D(m0, m1, Vec2(0.0, 0.0)), tr.t);
    Transform2D(m0, m1, Vec2(-r.x, -r.y))
  }

  /** For a rigid transform, the shortcut inverse undoes the transform. */
  lemma InvertUndoesTransform(tr: Transform2D, p: Vec2)
    requires Orthonormal(tr)
    ensures Transform2(OrthonormalInvert(tr), Transform2(tr, p)) == p
    ensures Rotate2(OrthonormalInvert(tr), Rotate2(tr, p)) == p
  {
    InvertUndoesRotation(tr, p);
    InvertCancelsTranslation(tr, Rotate2(tr, p));
  }

  /** The transposed rotation undoes a rigid rotation. */
  lemma InvertUndoesRotation(tr: Transform2D, p: Vec2)
    requires Orthonormal(tr)
    ensures Rotate2(OrthonormalInvert(tr), Rotate2(tr, p)) == p
  {
    var a, b, c, d := tr.m0.x, tr.m0.y, tr.m1.x, tr.m1.y;
    TransposeTimes(a, b, c, d, p.x, p.y, a * p.x + c * p.y, b * p.x + d * p.y);
  }

  /** The shortcut inverse's translation cancels the rotated translation, for any transform. */
  lemma InvertCancelsTranslation(tr: Transform2D, q: Vec2)
    ensures Transform2(OrthonormalInvert(tr), Add2(q, tr.t)) == Rotate2(OrthonormalInvert(tr), q)
  {
    var a, b, c, d := tr.m0.x, tr.m0.y, tr.m1.x, tr.m1.y;
    var inv := OrthonormalInvert(tr);
    TransposeAdds(a, b, c, d, q, tr.t);
    assert Rotate2(inv, tr.t) == Vec2(a * tr.t.x + b * tr.t.y, c * tr.t.x + d * tr.t.y);
  }

  /** Transposed rotation times rotation is the identity, on one vector. */
  lemma TransposeTimes(a: real, b: real, c: real, d: real, px: real, py: real, qx: real, qy: real)
    requires a * a + b * b == 1.0 && c * c + d * d == 1.0 && a * c + b * d == 0.0
    requires qx == a * px + c * py && qy == b * px + d * py
    ensures a * qx + b * qy == px && c * qx + d * qy == py
  {
    calc {
      a * qx + b * qy;
      a * (a * px + c * py) + b * (b * px + d * py);
      (a * a + b * b) * px + (a * c + b * d) * py;
    }
    calc {
      c * qx + d * qy;
      c * (a * px + c * py) + d * (b * px + d * py);
      (a * c + b * d) * px + (c * c + d * d) * py;
    }
  }

  /** The transposed rotation is linear. */
  lemma TransposeAdds(a: real, b: real, c: real, d: real, u: Vec2, v: Vec2)
    ensures Rotate2(Transform2D(Vec2(a, c), Vec2(b, d), Vec2(0.0, 0.0)), Add2(u, v))
         == Add2(Rotate2(Transform2D(Vec2(a, c), Vec2(b, d), Vec2(0.0, 0.0)), u),
                 Rotate2(Transform2D(Vec2(a, c), Vec2(b, d), Vec2(0.0, 0.0)), v))
  {
  }

  /** For a rigid 2D transform the rows are orthonormal too, so the shortcut is also a right inverse. */
  lemma InvertIsRightInverse(tr: Transform2D, p: Vec2)
    requires Orthonormal(tr)
    ensures Transform2(tr, Transform2(OrthonormalInvert(tr), p)) == p
  {
    var a, b, c, d := tr.m0.x, tr.m0.y, tr.m1.x, tr.m1.y;
    RowsOrthonormal(a, b, c, d);
    var inv := OrthonormalInvert(tr);
    var q := Transform2(inv, p);
    var ux, uy := p.x - tr.t.x, p.y - tr.t.y;
    assert q == Vec2(a * ux + b * uy, c * ux + d * uy);
    TransposeTimes(a, c, b, d, ux, uy, q.x, q.y);
  }

  /** Orthonormal columns of a 2x2 matrix imply orthonormal rows. */
  lemma RowsOrthonormal(a: real, b: real, c: real, d: real)
    requires a * a + b * b == 1.0 && c * c + d * d == 1.0 && a * c + b * d == 0.0
    ensures a * a + c * c == 1.0 && b * b + d * d == 1.0 && a * b + c * d == 0.0
  {
    // The second column is the first turned by plus or minus a quarter turn.
    var det := a * d - b * c;
    assert det * det == 1.0 by {
      calc {
        det * det + (a * c + b * d) * (a * c + b * d);
        (a * a + b * b) * (c * c + d * d);
        1.0;
      }
    }
    assert c == -det * b by {
      calc {
        -det * b;
        b * b * c - a * (b * d);
        { assert b * d == -(a * c); }
        b * b * c + a * a * c;
        (a * a + b * b) * c;
      }
    }
    assert d == det * a by {
      calc {
        det * a;
        a * a * d - (a * c) * b;
        { assert a * c == -(b * d); }
        a * a * d + b * b * d;
        (a * a + b * b) * d;
      }
    }
  }

  /** The frame with no rotation: rotating is the identity and transforming is translating. */
  lemma UnrotatedFrame(t: Vec2, v: Vec2)
    ensures Rotate2(Transform2D(Vec2(1.0, 0.0), Vec2(0.0, 1.0), t), v) == v
    ensures Transform2(Transform2D(Vec2(1.0, 0.0), Vec2(0.0, 1.0), t), v) == Add2(v, t)
  {
  }

  /** The shortcut inverse of a pure translation is the opposite translation. */
  lemma InvertTranslation(t: Vec2)
    ensures OrthonormalInvert(Transform2D(Vec2(1.0, 0.0), Vec2(0.0, 1.0), t))
         == Transform2D(Vec2(1.0, 0.0), Vec2(0.0, 1.0), Vec2(-t.x, -t.y))
  {
  }

  /** A 3D pose: rotation columns m0 (model x), m1 (model y), m2 (model z) and translation t. */
  datatype Transform3D = Transform3D(m0: Vec3, m1: Vec3, m2: Vec3, t: Vec3)

  /** Rotation only (the library's rotateVector). */
  function Rotate3(tr: Transform3D, v: Vec3): Vec3
  {
    Add3(Add3(Scale3(tr.m0, v.x), Scale3(tr.m1, v.y)), Scale3(tr.m2, v.z))
  }

  /** The pose with its translation moved by a world-space step (the library's translate). */
  function Translate(tr: Transform3D, step: Vec3): Transform3D
  {
    tr.(t := Add3(tr.t, step))
  }

  /**
   * The rotation block of setRotationXYZ(0, yaw, 0): a turn about the
   * vertical axis, given the sine and cosine of the yaw. The translation is
   * kept.
   */
  function WithYaw(tr: Transform3D, yaw: Trig): Transform3D
  {
    tr.(m0 := Vec3(yaw.cos, 0.0, -yaw.sin), m1 := Vec3(0.0, 1.0, 0.0), m2 := Vec3(yaw.sin, 0.0, yaw.cos))
  }

  /** The identity pose moved to a position (setAsIdentity then setTranslation). */
  function IdentityAt(pos: Vec3): Transform3D
  {
    Transform3D(Vec3(1.0, 0.0, 0.0), Vec3(0.0, 1.0, 0.0), Vec3(0.0, 0.0, 1.0), pos)
  }
}
