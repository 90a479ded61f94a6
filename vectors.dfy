/** Two-dimensional real vectors: the model's stand-in for NumPy arrays of shape (2,). */
module Vectors {
  import opened RealArith

  datatype Vec = Vec(x: real, y: real)

  const Zero := Vec(0.0, 0.0)

  function Add(a: Vec, b: Vec): Vec { Vec(a.x + b.x, a.y + b.y) }

  function Sub(a: Vec, b: Vec): Vec { Vec(a.x - b.x, a.y - b.y) }

  function Scale(a: Vec, k: real): Vec { Vec(a.x * k, a.y * k) }

  function Dot(a: Vec, b: Vec): real { a.x * b.x + a.y * b.y }

  /** The z-component of the 3-D cross product; zero exactly when `a` and `b` are parallel. */
  function Cross(a: Vec, b: Vec): real { a.x * b.y - a.y * b.x }

  /** `norm` behaves as `numpy.linalg.norm` does on one 2-vector: non-negative, squaring to the dot product. */
  ghost predicate IsNorm(norm: Vec -> real) {
    forall v :: norm(v) >= 0.0 && Sq(norm(v)) == Dot(v, v)
  }

  lemma DotSelf(v: Vec)
    ensures Dot(v, v) >= 0.0
    ensures v != Zero ==> Dot(v, v) > 0.0
  {
    assert Dot(v, v) == Sq(v.x) + Sq(v.y);
    SqNonNeg(v.x);
    SqNonNeg(v.y);
    if v.x != 0.0 {
      SqPos(v.x);
    } else if v.y != 0.0 {
      SqPos(v.y);
    }
  }

  lemma UnitNonZero(u: Vec)
    requires Dot(u, u) == 1.0
    ensures u != Zero
  {
  }

  /** A norm vanishes exactly on the zero vector. */
  lemma NormZero(norm: Vec -> real, v: Vec)
    requires IsNorm(norm)
    ensures norm(v) >= 0.0 && Sq(norm(v)) == Dot(v, v)
    ensures norm(v) == 0.0 <==> v == Zero
  {
    DotSelf(v);
    if norm(v) != 0.0 {
      SqPos(norm(v));
    } else {
      SqZero();
    }
  }

  lemma DotScaleLeft(a: Vec, b: Vec, k: real)
    ensures Dot(Scale(a, k), b) == Mul(k, Dot(a, b))
  {
    calc {
      Dot(Scale(a, k), b);
      == (a.x * k) * b.x + (a.y * k) * b.y;
      == k * (a.x * b.x + a.y * b.y);
      == Mul(k, Dot(a, b));
    }
  }

  lemma DotScaleBoth(a: Vec, k: real)
    ensures Dot(Scale(a, k), Scale(a, k)) == Mul(Sq(k), Dot(a, a))
  {
    calc {
      Dot(Scale(a, k), Scale(a, k));
      == (a.x * k) * (a.x * k) + (a.y * k) * (a.y * k);
      == (k * k) * (a.x * a.x + a.y * a.y);
      == Mul(Sq(k), Dot(a, a));
    }
  }

  lemma DotSubLeft(a: Vec, b: Vec, c: Vec)
    ensures Dot(Sub(a, b), c) == Dot(a, c) - Dot(b, c)
  {
  }

  lemma DotAddLeft(a: Vec, b: Vec, c: Vec)
    ensures Dot(Add(a, b), c) == Dot(a, c) + Dot(b, c)
  {
  }

  lemma DotComm(a: Vec, b: Vec)
    ensures Dot(a, b) == Dot(b, a)
  {
  }

  /** Scaling a vector to length `m`: the result's squared length is `m` squared. */
  lemma ScaleToLength(norm: Vec -> real, a: Vec, m: real)
    requires IsNorm(norm) && a != Zero
    ensures norm(a) > 0.0
    ensures Dot(Scale(a, m / norm(a)), Scale(a, m / norm(a))) == Sq(m)
  {
    NormZero(norm, a);
    var n := norm(a);
    var k := m / n;
    DotScaleBoth(a, k);
    calc {
      Mul(Sq(k), Dot(a, a));
      == Mul(Sq(k), Sq(n));
      == (k * k) * (n * n);
      == (k * n) * (k * n);
      == { assert k * n == m; }
      m * m;
      == Sq(m);
    }
  }
}
