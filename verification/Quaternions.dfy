/** Quaternion algebra over exact reals, and the class that updates its
    components in place. */
module Quaternions {
  import opened Elimination
  import opened MatrixLib

  datatype Vec3 = Vec3(x: real, y: real, z: real)

  datatype Quat = Quat(x: real, y: real, z: real, w: real)

  function MulX(p: Quat, q: Quat): real { p.w * q.x + p.x * q.w + p.y * q.z - p.z * q.y }
  function MulY(p: Quat, q: Quat): real { p.w * q.y + p.y * q.w + p.z * q.x - p.x * q.z }
  function MulZ(p: Quat, q: Quat): real { p.w * q.z + p.z * q.w + p.x * q.y - p.y * q.x }
  function MulW(p: Quat, q: Quat): real { p.w * q.w - p.x * q.x - p.y * q.y - p.z * q.z }

  function Mul(p: Quat, q: Quat): Quat {
    Quat(MulX(p, q), MulY(p, q), MulZ(p, q), MulW(p, q))
  }

  function Conj(q: Quat): Quat { Quat(-q.x, -q.y, -q.z, q.w) }

  function Norm2(q: Quat): real { q.x * q.x + q.y * q.y + q.z * q.z + q.w * q.w }

  function Length2(v: Vec3): real { v.x * v.x + v.y * v.y + v.z * v.z }

  function Pure(v: Vec3): Quat { Quat(v.x, v.y, v.z, 0.0) }

  function Times3(k: real, v: Vec3): Vec3 { Vec3(k * v.x, k * v.y, k * v.z) }

  function Turned(q: Quat, v: Vec3, vc: real, uc: real, cc: real): Vec3 {
    Vec3(vc * v.x + uc * q.x + cc * (q.y * v.z - q.z * v.y),
         vc * v.y + uc * q.y + cc * (q.z * v.x - q.x * v.z),
         vc * v.z + uc * q.z + cc * (q.x * v.y - q.y * v.x))
  }

  /** mult_vec, in the source's own form. */
  function Rotate(q: Quat, v: Vec3): Vec3 {
    var vc := q.w * q.w - q.x * q.x - q.y * q.y - q.z * q.z;
    var uc := 2.0 * (v.x * q.x + v.y * q.y + v.z * q.z);
    var cc := 2.0 * q.w;
    Turned(q, v, vc, uc, cc)
  }

  lemma RotateTurned(q: Quat, v: Vec3, vc: real, uc: real)
    requires vc == q.w * q.w - q.x * q.x - q.y * q.y - q.z * q.z
    requires uc == 2.0 * (v.x * q.x + v.y * q.y + v.z * q.z)
    ensures Rotate(q, v) == Turned(q, v, vc, uc, 2.0 * q.w)
  {
  }

  // ---------- the algebra ----------

  /** One vector component of the associative law, for a = pq and b = qr; the
      other two follow by renaming x, y, z cyclically. */
  lemma AssocVector(px: real, py: real, pz: real, pw: real, qx: real, qy: real, qz: real, qw: real,
                    rx: real, ry: real, rz: real, rw: real,
                    ax: real, ay: real, az: real, aw: real, bx: real, by': real, bz: real, bw: real)
    requires ax == pw * qx + px * qw + py * qz - pz * qy && ay == pw * qy + py * qw + pz * qx - px * qz
    requires az == pw * qz + pz * qw + px * qy - py * qx && aw == pw * qw - px * qx - py * qy - pz * qz
    requires bx == qw * rx + qx * rw + qy * rz - qz * ry && by' == qw * ry + qy * rw + qz * rx - qx * rz
    requires bz == qw * rz + qz * rw + qx * ry - qy * rx && bw == qw * rw - qx * rx - qy * ry - qz * rz
    ensures aw * rx + ax * rw + ay * rz - az * ry == pw * bx + px * bw + py * bz - pz * by'
  {
  }

  lemma AssocScalar(px: real, py: real, pz: real, pw: real, qx: real, qy: real, qz: real, qw: real,
                    rx: real, ry: real, rz: real, rw: real,
                    ax: real, ay: real, az: real, aw: real, bx: real, by': real, bz: real, bw: real)
    requires ax == pw * qx + px * qw + py * qz - pz * qy && ay == pw * qy + py * qw + pz * qx - px * qz
    requires az == pw * qz + pz * qw + px * qy - py * qx && aw == pw * qw - px * qx - py * qy - pz * qz
    requires bx == qw * rx + qx * rw + qy * rz - qz * ry && by' == qw * ry + qy * rw + qz * rx - qx * rz
    requires bz == qw * rz + qz * rw + qx * ry - qy * rx && bw == qw * rw - qx * rx - qy * ry - qz * rz
    ensures aw * rw - ax * rx - ay * ry - az * rz == pw * bw - px * bx - py * by' - pz * bz
  {
  }

  lemma AssocX(p: Quat, q: Quat, r: Quat)
    ensures Mul(Mul(p, q), r).x == Mul(p, Mul(q, r)).x
  {
    var a, b := Mul(p, q), Mul(q, r);
    AssocVector(p.x, p.y, p.z, p.w, q.x, q.y, q.z, q.w, r.x, r.y, r.z, r.w, a.x, a.y, a.z, a.w, b.x, b.y, b.z, b.w);
  }

  lemma AssocY(p: Quat, q: Quat, r: Quat)
    ensures Mul(Mul(p, q), r).y == Mul(p, Mul(q, r)).y
  {
    var a, b := Mul(p, q), Mul(q, r);
    AssocVector(p.y, p.z, p.x, p.w, q.y, q.z, q.x, q.w, r.y, r.z, r.x, r.w, a.y, a.z, a.x, a.w, b.y, b.z, b.x, b.w);
  }

  lemma AssocZ(p: Quat, q: Quat, r: Quat)
    ensures Mul(Mul(p, q), r).z == Mul(p, Mul(q, r)).z
  {
    var a, b := Mul(p, q), Mul(q, r);
    AssocVector(p.z, p.x, p.y, p.w, q.z, q.x, q.y, q.w, r.z, r.x, r.y, r.w, a.z, a.x, a.y, a.w, b.z, b.x, b.y, b.w);
  }

  lemma AssocW(p: Quat, q: Quat, r: Quat)
    ensures Mul(Mul(p, q), r).w == Mul(p, Mul(q, r)).w
  {
    var a, b := Mul(p, q), Mul(q, r);
    AssocScalar(p.x, p.y, p.z, p.w, q.x, q.y, q.z, q.w, r.x, r.y, r.z, r.w, a.x, a.y, a.z, a.w, b.x, b.y, b.z, b.w);
  }

  lemma SameParts(a: Quat, b: Quat)
    requires a.x == b.x && a.y == b.y && a.z == b.z && a.w == b.w
    ensures a == b
  {
  }

  lemma MulAssoc(p: Quat, q: Quat, r: Quat)
    ensures Mul(Mul(p, q), r) == Mul(p, Mul(q, r))
  {
    AssocX(p, q, r);
    AssocY(p, q, r);
    AssocZ(p, q, r);
    AssocW(p, q, r);
    SameParts(Mul(Mul(p, q), r), Mul(p, Mul(q, r)));
  }

  /** What multiplying by each of the units i, j, k and 1 does. With LinearLeft
      this says what every product is. */
  lemma UnitTimes(q: Quat)
    ensures Mul(Quat(1.0, 0.0, 0.0, 0.0), q) == Quat(q.w, -q.z, q.y, -q.x)
    ensures Mul(Quat(0.0, 1.0, 0.0, 0.0), q) == Quat(q.z, q.w, -q.x, -q.y)
    ensures Mul(Quat(0.0, 0.0, 1.0, 0.0), q) == Quat(-q.y, q.x, q.w, -q.z)
    ensures Mul(Quat(0.0, 0.0, 0.0, 1.0), q) == q
  {
  }

  lemma Spread(a: real, k: real, b: real, c: real)
    ensures (a + k * b) * c == a * c + k * (b * c)
  {
  }

  /** One component of a product, by four products of reals. */
  lemma VectorSpread(k: real, a: real, b: real, c: real, d: real, a': real, b': real, c': real, d': real,
                     e: real, f: real, g: real, h: real)
    ensures (a + k * a') * e + (b + k * b') * f + (c + k * c') * g - (d + k * d') * h
            == (a * e + b * f + c * g - d * h) + k * (a' * e + b' * f + c' * g - d' * h)
  {
    Spread(a, k, a', e);
    Spread(b, k, b', f);
    Spread(c, k, c', g);
    Spread(d, k, d', h);
  }

  lemma ScalarSpread(k: real, a: real, b: real, c: real, d: real, a': real, b': real, c': real, d': real,
                     e: real, f: real, g: real, h: real)
    ensures (a + k * a') * e - (b + k * b') * f - (c + k * c') * g - (d + k * d') * h
            == (a * e - b * f - c * g - d * h) + k * (a' * e - b' * f - c' * g - d' * h)
  {
    Spread(a, k, a', e);
    Spread(b, k, b', f);
    Spread(c, k, c', g);
    Spread(d, k, d', h);
  }

  /** p plus k times q. */
  function Plus4(p: Quat, k: real, q: Quat): Quat {
    Quat(p.x + k * q.x, p.y + k * q.y, p.z + k * q.z, p.w + k * q.w)
  }

  lemma LeftX(p: Quat, k: real, q: Quat, r: Quat)
    ensures MulX(Plus4(p, k, q), r) == MulX(p, r) + k * MulX(q, r)
  {
    VectorSpread(k, p.w, p.x, p.y, p.z, q.w, q.x, q.y, q.z, r.x, r.w, r.z, r.y);
  }

  lemma LeftY(p: Quat, k: real, q: Quat, r: Quat)
    ensures MulY(Plus4(p, k, q), r) == MulY(p, r) + k * MulY(q, r)
  {
    VectorSpread(k, p.w, p.y, p.z, p.x, q.w, q.y, q.z, q.x, r.y, r.w, r.x, r.z);
  }

  lemma LeftZ(p: Quat, k: real, q: Quat, r: Quat)
    ensures MulZ(Plus4(p, k, q), r) == MulZ(p, r) + k * MulZ(q, r)
  {
    VectorSpread(k, p.w, p.z, p.x, p.y, q.w, q.z, q.x, q.y, r.z, r.w, r.y, r.x);
  }

  lemma LeftW(p: Quat, k: real, q: Quat, r: Quat)
    ensures MulW(Plus4(p, k, q), r) == MulW(p, r) + k * MulW(q, r)
  {
    ScalarSpread(k, p.w, p.x, p.y, p.z, q.w, q.x, q.y, q.z, r.w, r.x, r.y, r.z);
  }

  /** The product is linear in its left factor. */
  lemma LinearLeft(p: Quat, k: real, q: Quat, r: Quat)
    ensures Mul(Plus4(p, k, q), r) == Plus4(Mul(p, r), k, Mul(q, r))
  {
    LeftX(p, k, q, r);
    LeftY(p, k, q, r);
    LeftZ(p, k, q, r);
    LeftW(p, k, q, r);
  }

  lemma ConjMul(p: Quat, q: Quat)
    ensures Conj(Mul(p, q)) == Mul(Conj(q), Conj(p))
  {
  }

  function Real(k: real): Quat { Quat(0.0, 0.0, 0.0, k) }

  lemma MulConj(q: Quat)
    ensures Mul(q, Conj(q)) == Real(Norm2(q)) == Mul(Conj(q), q)
  {
  }

  lemma RealCommutes(k: real, q: Quat)
    ensures Mul(Real(k), q) == Mul(q, Real(k))
  {
  }

  lemma Regrouped(p: Quat, q: Quat, r: Quat, s: Quat)
    ensures Mul(Mul(p, q), Mul(r, s)) == Mul(p, Mul(Mul(q, r), s))
  {
    MulAssoc(p, q, Mul(r, s));
    MulAssoc(q, r, s);
  }

  lemma RealProduct(k: real, m: real)
    ensures Mul(Real(k), Real(m)) == Real(k * m)
  {
  }

  lemma AroundReal(p: Quat, k: real)
    ensures Mul(p, Mul(Real(k), Conj(p))) == Real(Norm2(p) * k)
  {
    RealCommutes(k, Conj(p));
    MulAssoc(p, Conj(p), Real(k));
    MulConj(p);
    RealProduct(Norm2(p), k);
  }

  /** Euler's four-square identity, by way of q q* and associativity. */
  lemma NormMul(p: Quat, q: Quat)
    ensures Norm2(Mul(p, q)) == Norm2(p) * Norm2(q)
  {
    calc {
      Real(Norm2(Mul(p, q)));
      { MulConj(Mul(p, q)); }
      Mul(Mul(p, q), Conj(Mul(p, q)));
      { ConjMul(p, q); Regrouped(p, q, Conj(q), Conj(p)); }
      Mul(p, Mul(Mul(q, Conj(q)), Conj(p)));
      { MulConj(q); AroundReal(p, Norm2(q)); }
      Real(Norm2(p) * Norm2(q));
    }
  }

  /** One component of q v q*, for m = q v; the others follow by renaming. */
  lemma SandwichVector(x: real, y: real, z: real, w: real, a: real, b: real, c: real,
                       mx: real, my: real, mz: real, mw: real, vc: real, uc: real)
    requires mx == w * a + y * c - z * b && my == w * b + z * a - x * c
    requires mz == w * c + x * b - y * a && mw == -(x * a) - y * b - z * c
    requires vc == w * w - x * x - y * y - z * z && uc == 2.0 * (a * x + b * y + c * z)
    ensures mx * w - mw * x - my * z + mz * y == vc * a + uc * x + 2.0 * w * (y * c - z * b)
  {
  }

  lemma SandwichScalar(x: real, y: real, z: real, w: real, a: real, b: real, c: real,
                       mx: real, my: real, mz: real, mw: real)
    requires mx == w * a + y * c - z * b && my == w * b + z * a - x * c
    requires mz == w * c + x * b - y * a && mw == -(x * a) - y * b - z * c
    ensures mw * w + mx * x + my * y + mz * z == 0.0
  {
  }

  ghost predicate IsTimesPure(q: Quat, v: Vec3, m: Quat) {
    && m.x == q.w * v.x + q.y * v.z - q.z * v.y && m.y == q.w * v.y + q.z * v.x - q.x * v.z
    && m.z == q.w * v.z + q.x * v.y - q.y * v.x && m.w == -(q.x * v.x) - q.y * v.y - q.z * v.z
  }

  lemma TimesPure(q: Quat, v: Vec3)
    ensures IsTimesPure(q, v, Mul(q, Pure(v)))
  {
  }

  lemma SandwichX(q: Quat, v: Vec3, m: Quat)
    requires IsTimesPure(q, v, m)
    ensures MulX(m, Conj(q)) == Rotate(q, v).x
  {
    var vc := q.w * q.w - q.x * q.x - q.y * q.y - q.z * q.z;
    var uc := 2.0 * (v.x * q.x + v.y * q.y + v.z * q.z);
    SandwichVector(q.x, q.y, q.z, q.w, v.x, v.y, v.z, m.x, m.y, m.z, m.w, vc, uc);
  }

  lemma SandwichY(q: Quat, v: Vec3, m: Quat)
    requires IsTimesPure(q, v, m)
    ensures MulY(m, Conj(q)) == Rotate(q, v).y
  {
    var vc := q.w * q.w - q.x * q.x - q.y * q.y - q.z * q.z;
    var uc := 2.0 * (v.x * q.x + v.y * q.y + v.z * q.z);
    SandwichVector(q.y, q.z, q.x, q.w, v.y, v.z, v.x, m.y, m.z, m.x, m.w, vc, uc);
  }

  lemma SandwichZ(q: Quat, v: Vec3, m: Quat)
    requires IsTimesPure(q, v, m)
    ensures MulZ(m, Conj(q)) == Rotate(q, v).z
  {
    var vc := q.w * q.w - q.x * q.x - q.y * q.y - q.z * q.z;
    var uc := 2.0 * (v.x * q.x + v.y * q.y + v.z * q.z);
    SandwichVector(q.z, q.x, q.y, q.w, v.z, v.x, v.y, m.z, m.x, m.y, m.w, vc, uc);
  }

  lemma SandwichW(q: Quat, v: Vec3, m: Quat)
    requires IsTimesPure(q, v, m)
    ensures MulW(m, Conj(q)) == 0.0
  {
    SandwichScalar(q.x, q.y, q.z, q.w, v.x, v.y, v.z, m.x, m.y, m.z, m.w);
  }

  /** mult_vec computes q v q*. */
  lemma RotateIsSandwich(q: Quat, v: Vec3)
    ensures Mul(Mul(q, Pure(v)), Conj(q)) == Pure(Rotate(q, v))
  {
    var m := Mul(q, Pure(v));
    TimesPure(q, v);
    SandwichX(q, v, m);
    SandwichY(q, v, m);
    SandwichZ(q, v, m);
    SandwichW(q, v, m);
  }

  lemma RotateCompose(p: Quat, q: Quat, v: Vec3)
    ensures Rotate(Mul(p, q), v) == Rotate(p, Rotate(q, v))
  {
    var u := Pure(v);
    calc {
      Pure(Rotate(Mul(p, q), v));
      { RotateIsSandwich(Mul(p, q), v); }
      Mul(Mul(Mul(p, q), u), Conj(Mul(p, q)));
      { ConjMul(p, q); }
      Mul(Mul(Mul(p, q), u), Mul(Conj(q), Conj(p)));
      { MulAssoc(p, q, u); }
      Mul(Mul(p, Mul(q, u)), Mul(Conj(q), Conj(p)));
      { MulAssoc(Mul(p, Mul(q, u)), Conj(q), Conj(p)); }
      Mul(Mul(Mul(p, Mul(q, u)), Conj(q)), Conj(p));
      { MulAssoc(p, Mul(q, u), Conj(q)); }
      Mul(Mul(p, Mul(Mul(q, u), Conj(q))), Conj(p));
      { RotateIsSandwich(q, v); }
      Mul(Mul(p, Pure(Rotate(q, v))), Conj(p));
      { RotateIsSandwich(p, Rotate(q, v)); }
      Pure(Rotate(p, Rotate(q, v)));
    }
  }

  /** A rotation scales lengths by the squared norm. */
  lemma RotateLength(q: Quat, v: Vec3)
    ensures Length2(Rotate(q, v)) == Norm2(q) * Norm2(q) * Length2(v)
  {
    RotateIsSandwich(q, v);
    NormMul(q, Pure(v));
    NormMul(Mul(q, Pure(v)), Conj(q));
    assert Norm2(Conj(q)) == Norm2(q) && Norm2(Pure(v)) == Length2(v);
    assert Norm2(Pure(Rotate(q, v))) == Length2(Rotate(q, v));
  }

  /** inverse(q) is the conjugate: it undoes the rotation up to the same
      scale, so exactly for unit quaternions. */
  lemma ConjUndoes(q: Quat, v: Vec3)
    ensures Rotate(Conj(q), Rotate(q, v)) == Times3(Norm2(q) * Norm2(q), v)
  {
    RotateCompose(Conj(q), q, v);
    assert Mul(Conj(q), q) == Quat(0.0, 0.0, 0.0, Norm2(q));
  }

  // ---------- the rotation matrix ----------

  /** get_value(matrix4), upper left three by three, by rows. */
  datatype Rot = Rot(r0: Vec3, r1: Vec3, r2: Vec3)

  function RotMatrix(q: Quat): Rot {
    var norm := Norm2(q);
    var s := if norm == 0.0 then 0.0 else 2.0 / norm;
    var xs, ys, zs := q.x * s, q.y * s, q.z * s;
    var wx, wy, wz := q.w * xs, q.w * ys, q.w * zs;
    var xx, xy, xz := q.x * xs, q.x * ys, q.x * zs;
    var yy, yz, zz := q.y * ys, q.y * zs, q.z * zs;
    Rot(Vec3(1.0 - (yy + zz), xy - wz, xz + wy),
        Vec3(xy + wz, 1.0 - (xx + zz), yz - wx),
        Vec3(xz - wy, yz + wx, 1.0 - (xx + yy)))
  }

  function Dot3(a: Vec3, b: Vec3): real { a.x * b.x + a.y * b.y + a.z * b.z }

  function ApplyRot(m: Rot, v: Vec3): Vec3 { Vec3(Dot3(m.r0, v), Dot3(m.r1, v), Dot3(m.r2, v)) }

  lemma ScaledEntry(n: real, s: real, a: real, b: real)
    requires n * s == 2.0
    ensures n * (a * (b * s)) == 2.0 * (a * b)
  {
    assert n * (a * (b * s)) == (n * s) * (a * b);
  }

  lemma SumOfThree(n: real, a: real, b: real, c: real, vx: real, vy: real, vz: real)
    ensures n * (a * vx + b * vy + c * vz) == (n * a) * vx + (n * b) * vy + (n * c) * vz
  {
  }

  lemma RowIdentity(x: real, y: real, z: real, w: real, vx: real, vy: real, vz: real)
    ensures (w * w + x * x - y * y - z * z) * vx + (2.0 * (x * y) - 2.0 * (w * z)) * vy
            + (2.0 * (x * z) + 2.0 * (w * y)) * vz
            == (w * w - x * x - y * y - z * z) * vx + 2.0 * (vx * x + vy * y + vz * z) * x
               + 2.0 * w * (y * vz - z * vy)
  {
  }

  lemma Combine(a: real, b: real, c: real, a1: real, b1: real, c1: real, vx: real, vy: real, vz: real)
    requires a == a1 && b == b1 && c == c1
    ensures a * vx + b * vy + c * vz == a1 * vx + b1 * vy + c1 * vz
  {
  }

  /** One row (a, b, c) of the matrix, scaled by n; the other two follow by
      renaming x, y, z cyclically. */
  lemma RotRow(x: real, y: real, z: real, w: real, n: real, s: real, a: real, b: real, c: real,
               vx: real, vy: real, vz: real)
    requires n == x * x + y * y + z * z + w * w && n * s == 2.0
    requires a == 1.0 - (y * (y * s) + z * (z * s))
    requires b == x * (y * s) - w * (z * s)
    requires c == x * (z * s) + w * (y * s)
    ensures n * (a * vx + b * vy + c * vz)
            == (w * w - x * x - y * y - z * z) * vx + 2.0 * (vx * x + vy * y + vz * z) * x
               + 2.0 * w * (y * vz - z * vy)
  {
    ScaledEntry(n, s, y, y);
    ScaledEntry(n, s, z, z);
    ScaledEntry(n, s, x, y);
    ScaledEntry(n, s, w, z);
    ScaledEntry(n, s, x, z);
    ScaledEntry(n, s, w, y);
    assert n * a == n - n * (y * (y * s)) - n * (z * (z * s));
    assert n * b == n * (x * (y * s)) - n * (w * (z * s));
    assert n * c == n * (x * (z * s)) + n * (w * (y * s));
    SumOfThree(n, a, b, c, vx, vy, vz);
    Combine(n * a, n * b, n * c, w * w + x * x - y * y - z * z,
            2.0 * (x * y) - 2.0 * (w * z), 2.0 * (x * z) + 2.0 * (w * y), vx, vy, vz);
    RowIdentity(x, y, z, w, vx, vy, vz);
  }

  lemma RowX(q: Quat, v: Vec3, s: real)
    requires Norm2(q) != 0.0 && s == 2.0 / Norm2(q)
    ensures Norm2(q) * Dot3(RotMatrix(q).r0, v) == Rotate(q, v).x
  {
    var m := RotMatrix(q);
    RotRow(q.x, q.y, q.z, q.w, Norm2(q), s, m.r0.x, m.r0.y, m.r0.z, v.x, v.y, v.z);
  }

  lemma RowY(q: Quat, v: Vec3, s: real)
    requires Norm2(q) != 0.0 && s == 2.0 / Norm2(q)
    ensures Norm2(q) * Dot3(RotMatrix(q).r1, v) == Rotate(q, v).y
  {
    var m := RotMatrix(q);
    RotRow(q.y, q.z, q.x, q.w, Norm2(q), s, m.r1.y, m.r1.z, m.r1.x, v.y, v.z, v.x);
  }

  lemma RowZ(q: Quat, v: Vec3, s: real)
    requires Norm2(q) != 0.0 && s == 2.0 / Norm2(q)
    ensures Norm2(q) * Dot3(RotMatrix(q).r2, v) == Rotate(q, v).z
  {
    var m := RotMatrix(q);
    RotRow(q.z, q.x, q.y, q.w, Norm2(q), s, m.r2.z, m.r2.x, m.r2.y, v.z, v.x, v.y);
  }

  /** The matrix is the rotation divided by the squared norm, for q != 0. */
  lemma MatrixRotates(q: Quat, v: Vec3)
    requires Norm2(q) != 0.0
    ensures Times3(Norm2(q), ApplyRot(RotMatrix(q), v)) == Rotate(q, v)
  {
    var s := 2.0 / Norm2(q);
    RowX(q, v, s);
    RowY(q, v, s);
    RowZ(q, v, s);
  }

  lemma Times3Cancel(k: real, u: Vec3, v: Vec3)
    requires k != 0.0 && Times3(k, u) == Times3(k, v)
    ensures u == v
  {
  }

  lemma RotateLinear(q: Quat, k: real, u: Vec3)
    ensures Rotate(q, Times3(k, u)) == Times3(k, Rotate(q, u))
  {
  }

  lemma Times3Twice(j: real, k: real, u: Vec3)
    ensures Times3(j, Times3(k, u)) == Times3(k * j, u)
  {
  }

  /** The matrix of a product is the product of the matrices. */
  lemma MatrixOfProduct(p: Quat, q: Quat, v: Vec3)
    requires Norm2(p) != 0.0 && Norm2(q) != 0.0
    ensures ApplyRot(RotMatrix(Mul(p, q)), v) == ApplyRot(RotMatrix(p), ApplyRot(RotMatrix(q), v))
  {
    var u := ApplyRot(RotMatrix(q), v);
    NormMul(p, q);
    MatrixRotates(Mul(p, q), v);
    RotateCompose(p, q, v);
    MatrixRotates(q, v);
    RotateLinear(p, Norm2(q), u);
    MatrixRotates(p, u);
    Times3Twice(Norm2(q), Norm2(p), ApplyRot(RotMatrix(p), u));
    Times3Cancel(Norm2(Mul(p, q)), ApplyRot(RotMatrix(Mul(p, q)), v), ApplyRot(RotMatrix(p), u));
  }

  lemma ScalarMatrix(w: real, v: Vec3)
    requires w != 0.0
    ensures ApplyRot(RotMatrix(Real(w)), v) == v
  {
  }

  /** The matrix of the conjugate undoes the matrix. */
  lemma ConjMatrixUndoes(q: Quat, v: Vec3)
    requires Norm2(q) != 0.0
    ensures ApplyRot(RotMatrix(Conj(q)), ApplyRot(RotMatrix(q), v)) == v
  {
    MulConj(q);
    assert Norm2(Conj(q)) == Norm2(q);
    MatrixOfProduct(Conj(q), q, v);
    ScalarMatrix(Norm2(q), v);
  }

  // ---------- the class ----------

  /** What `q *= q` leaves: w is overwritten first and then read again as
      part of the right operand, and so on down. */
  function SelfMul(q: Quat): Quat {
    var q1 := q.(w := MulW(q, q));
    var q2 := q1.(x := MulX(q, q1));
    var q3 := q2.(y := MulY(q, q2));
    q3.(z := MulZ(q, q3))
  }

  class Quaternion {
    var x: real
    var y: real
    var z: real
    var w: real

    function Value(): Quat
      reads this
    {
      Quat(x, y, z, w)
    }

    constructor (q: Quat)
      ensures Value() == q
    {
      x, y, z, w := q.x, q.y, q.z, q.w;
    }

    /** operator *= : the product, unless the operand is the object itself. */
    method MulAssign(qr: Quaternion)
      modifies this
      ensures qr != this ==> Value() == Mul(old(Value()), old(qr.Value()))
      ensures qr == this ==> Value() == SelfMul(old(Value()))
    {
      var ql := Value();
      w := MulW(ql, qr.Value());
      x := MulX(ql, qr.Value());
      y := MulY(ql, qr.Value());
      z := MulZ(ql, qr.Value());
    }

    /** operator * works on a copy, so it is always the product. */
    static method Product(lhs: Quaternion, rhs: Quaternion) returns (r: Quaternion)
      ensures fresh(r) && r.Value() == Mul(lhs.Value(), rhs.Value())
    {
      r := new Quaternion(lhs.Value());
      r.MulAssign(rhs);
    }

    static method Conjugate(q: Quaternion) returns (r: Quaternion)
      ensures fresh(r) && r.Value() == Conj(q.Value())
    {
      r := new Quaternion(q.Value());
      r.x, r.y, r.z := r.x * -1.0, r.y * -1.0, r.z * -1.0;
    }

    method StoreTurned(src: array<real>, dst: array<real>, vc: real, uc: real, cc: real)
      requires src.Length == 3 && dst.Length == 3 && src != dst
      modifies dst
      ensures Vec3(dst[0], dst[1], dst[2]) == Turned(Value(), Vec3(src[0], src[1], src[2]), vc, uc, cc)
    {
      dst[0] := vc * src[0] + uc * x + cc * (y * src[2] - z * src[1]);
      dst[1] := vc * src[1] + uc * y + cc * (z * src[0] - x * src[2]);
      dst[2] := vc * src[2] + uc * z + cc * (x * src[1] - y * src[0]);
    }

    /** mult_vec from one vector into another. */
    method MultVec(src: array<real>, dst: array<real>)
      requires src.Length == 3 && dst.Length == 3 && src != dst
      modifies dst
      ensures Vec3(dst[0], dst[1], dst[2]) == Rotate(Value(), Vec3(src[0], src[1], src[2]))
    {
      var vc := w * w - x * x - y * y - z * z;
      var uc := 2.0 * (src[0] * x + src[1] * y + src[2] * z);
      RotateTurned(Value(), Vec3(src[0], src[1], src[2]), vc, uc);
      StoreTurned(src, dst, vc, uc, 2.0 * w);
    }

    /** The in-place form copies its argument first. */
    method MultVecInPlace(v: array<real>)
      requires v.Length == 3
      modifies v
      ensures Vec3(v[0], v[1], v[2]) == Rotate(Value(), old(Vec3(v[0], v[1], v[2])))
    {
      var src := new real[] [v[0], v[1], v[2]];
      MultVec(src, v);
    }
  }

  function Homogeneous(r: Rot): (m: Mat)
    ensures IsMat(m)
  {
    [[r.r0.x, r.r0.y, r.r0.z, 0.0], [r.r1.x, r.r1.y, r.r1.z, 0.0], [r.r2.x, r.r2.y, r.r2.z, 0.0], [0.0, 0.0, 0.0, 1.0]]
  }

  lemma Negated(a: real, b: real, s: real)
    ensures (-a) * (b * s) == -(a * (b * s)) && (-a) * (-b * s) == a * (b * s) && a * (-b * s) == -(a * (b * s))
  {
  }

  lemma ConjScale(q: Quat)
    ensures Norm2(Conj(q)) == Norm2(q)
  {
  }

  lemma ConjRow0(q: Quat)
    ensures var r, t := RotMatrix(q), RotMatrix(Conj(q)); t.r0 == Vec3(r.r0.x, r.r1.x, r.r2.x)
  {
    ConjScale(q);
    var s := if Norm2(q) == 0.0 then 0.0 else 2.0 / Norm2(q);
    Negated(q.y, q.y, s); Negated(q.z, q.z, s); Negated(q.x, q.y, s); Negated(q.x, q.z, s);
    Negated(q.w, q.y, s); Negated(q.w, q.z, s);
  }

  lemma ConjRow1(q: Quat)
    ensures var r, t := RotMatrix(q), RotMatrix(Conj(q)); t.r1 == Vec3(r.r0.y, r.r1.y, r.r2.y)
  {
    ConjScale(q);
    var s := if Norm2(q) == 0.0 then 0.0 else 2.0 / Norm2(q);
    Negated(q.x, q.x, s); Negated(q.z, q.z, s); Negated(q.x, q.y, s); Negated(q.y, q.z, s);
    Negated(q.w, q.x, s); Negated(q.w, q.z, s);
  }

  lemma ConjRow2(q: Quat)
    ensures var r, t := RotMatrix(q), RotMatrix(Conj(q)); t.r2 == Vec3(r.r0.z, r.r1.z, r.r2.z)
  {
    ConjScale(q);
    var s := if Norm2(q) == 0.0 then 0.0 else 2.0 / Norm2(q);
    Negated(q.x, q.x, s); Negated(q.y, q.y, s); Negated(q.x, q.z, s); Negated(q.y, q.z, s);
    Negated(q.w, q.x, s); Negated(q.w, q.y, s);
  }

  /** The matrix of the conjugate is the transposed matrix. */
  lemma ConjTransposes(q: Quat)
    ensures Homogeneous(RotMatrix(Conj(q))) == TransposeMat(Homogeneous(RotMatrix(q)))
  {
    ConjRow0(q);
    ConjRow1(q);
    ConjRow2(q);
    SameEntries(Homogeneous(RotMatrix(Conj(q))), TransposeMat(Homogeneous(RotMatrix(q))));
  }

  lemma HomogeneousByColumns(r: Rot, s: seq<real>)
    requires |s| == 16
    requires s[0] == r.r0.x && s[1] == r.r1.x && s[2] == r.r2.x && s[3] == 0.0
    requires s[4] == r.r0.y && s[5] == r.r1.y && s[6] == r.r2.y && s[7] == 0.0
    requires s[8] == r.r0.z && s[9] == r.r1.z && s[10] == r.r2.z && s[11] == 0.0
    requires s[12] == 0.0 && s[13] == 0.0 && s[14] == 0.0 && s[15] == 1.0
    ensures forall i, j :: 0 <= i < 4 && 0 <= j < 4 ==> s[Index(i, j)] == Homogeneous(r)[i][j]
  {
  }

  method StoreColumns(r: Rot, m: Matrix4)
    requires m.Valid()
    modifies m.a
    ensures m.Value() == Homogeneous(r)
  {
    m.a[0], m.a[1], m.a[2], m.a[3] := r.r0.x, r.r1.x, r.r2.x, 0.0;
    m.a[4], m.a[5], m.a[6], m.a[7] := r.r0.y, r.r1.y, r.r2.y, 0.0;
    m.a[8], m.a[9], m.a[10], m.a[11] := r.r0.z, r.r1.z, r.r2.z, 0.0;
    m.a[12], m.a[13], m.a[14], m.a[15] := 0.0, 0.0, 0.0, 1.0;
    HomogeneousByColumns(r, m.a[..]);
    SameEntries(m.Value(), Homogeneous(r));
  }

  /** get_value(matrix4): all sixteen entries, by columns. */
  method GetMatrix(q: Quaternion, m: Matrix4)
    requires m.Valid()
    modifies m.a
    ensures m.Value() == Homogeneous(RotMatrix(q.Value()))
  {
    StoreColumns(RotMatrix(q.Value()), m);
  }

  lemma ZeroProduct(a: real, b: real)
    ensures a * b == 0.0 <==> a == 0.0 || b == 0.0
  {
    if a != 0.0 && a * b == 0.0 { assert b == 0.0; }
  }

  lemma NotHalf(x: real, y: real, z: real, w: real)
    requires w == w * w - x * x - y * y - z * z
    ensures w != 0.5
  {
    assert x * x >= 0.0 && y * y >= 0.0 && z * z >= 0.0;
  }

  /** The components one after the other, n standing for the new w. */
  lemma SelfParts(x: real, y: real, z: real, w: real, n: real, x': real, y': real, z': real)
    requires n == w * w - x * x - y * y - z * z
    requires x' == w * x + x * n && y' == w * y + y * n + z * x' - x * z && z' == w * z + z * n + x * y' - y * x'
    ensures x' == 2.0 * (w * x) && y' == 2.0 * (w * y) && z' == 2.0 * (w * z) <==>
            (x == 0.0 && y == 0.0 && z == 0.0) || (n == w && (x == 0.0 || z == 0.0))
  {
    if n == w {
      NotHalf(x, y, z, w);
      assert y' - 2.0 * (w * y) == (x * z) * (2.0 * w - 1.0);
      ZeroProduct(x * z, 2.0 * w - 1.0);
      ZeroProduct(x, z);
    } else {
      assert x' - 2.0 * (w * x) == x * (n - w);
      ZeroProduct(x, n - w);
      if x == 0.0 {
        assert y' - 2.0 * (w * y) == y * (n - w);
        ZeroProduct(y, n - w);
        assert z' - 2.0 * (w * z) == z * (n - w);
        ZeroProduct(z, n - w);
      }
    }
  }

  lemma SelfMulParts(q: Quat)
    ensures var s := SelfMul(q);
            && s.w == q.w * q.w - q.x * q.x - q.y * q.y - q.z * q.z
            && s.x == q.w * q.x + q.x * s.w
            && s.y == q.w * q.y + q.y * s.w + q.z * s.x - q.x * q.z
            && s.z == q.w * q.z + q.z * s.w + q.x * s.y - q.y * s.x
  {
  }

  lemma SquareParts(q: Quat)
    ensures Mul(q, q) == Quat(2.0 * (q.w * q.x), 2.0 * (q.w * q.y), 2.0 * (q.w * q.z),
                              q.w * q.w - q.x * q.x - q.y * q.y - q.z * q.z)
  {
  }

  /** `q *= q` gives the square exactly for scalars, and for quaternions whose
      squared vector part is w * w - w with x or z zero. */
  lemma SelfMulExactly(q: Quat)
    ensures SelfMul(q) == Mul(q, q) <==>
            || (q.x == 0.0 && q.y == 0.0 && q.z == 0.0)
            || (q.x * q.x + q.y * q.y + q.z * q.z == q.w * q.w - q.w && (q.x == 0.0 || q.z == 0.0))
  {
    var s, m := SelfMul(q), Mul(q, q);
    SelfMulParts(q);
    SquareParts(q);
    SelfParts(q.x, q.y, q.z, q.w, s.w, s.x, s.y, s.z);
  }
}
