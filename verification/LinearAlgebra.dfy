/** Vectors and matrices over GF(2^8): the mathematics that the coding routines are
    measured against. Nothing here looks inside the field operations. */
module LinearAlgebra {
  import opened Galois

  type Vector = seq<GF>
  type Matrix = seq<Vector>

  /** The sum of products over the first n positions, through a stage for the reason given in Galois. */
  function Dot(u: Vector, v: Vector, n: nat): GF
    requires n <= |u| && n <= |v|
    decreases n, 1
  {
    if n == 0 then ZERO else DotStage(u, v, n)
  }

  function DotStage(u: Vector, v: Vector, n: nat): GF
    requires 0 < n <= |u| && n <= |v|
    decreases n, 0
  {
    Add(Dot(u, v, n - 1), Mul(u[n - 1], v[n - 1]))
  }

  function AddV(u: Vector, v: Vector): (r: Vector)
    requires |u| == |v|
    ensures |r| == |u|
  {
    seq(|u|, i requires 0 <= i < |u| => Add(u[i], v[i]))
  }

  function ScaleV(c: GF, u: Vector): (r: Vector) {
    seq(|u|, i requires 0 <= i < |u| => Mul(c, u[i]))
  }

  function ZeroV(n: nat): (r: Vector) { seq(n, i => ZERO) }

  function Unit(n: nat, j: nat): (r: Vector) { seq(n, i => if i == j then ONE else ZERO) }

  ghost predicate IsMatrix(m: Matrix, rows: nat, cols: nat) {
    |m| == rows && forall r :: 0 <= r < rows ==> |m[r]| == cols
  }

  function Identity(n: nat): (m: Matrix)
    ensures IsMatrix(m, n, n)
  {
    seq(n, i requires 0 <= i < n => Unit(n, i))
  }

  function Apply(m: Matrix, x: Vector): (r: Vector)
    requires forall i :: 0 <= i < |m| ==> |m[i]| == |x|
    ensures |r| == |m|
  {
    seq(|m|, i requires 0 <= i < |m| => Dot(m[i], x, |x|))
  }

  function Column(m: Matrix, j: nat): (r: Vector)
    requires forall i :: 0 <= i < |m| ==> j < |m[i]|
  {
    seq(|m|, i requires 0 <= i < |m| => m[i][j])
  }

  /** The matrix kills no vector but zero. */
  ghost predicate Nonsingular(m: Matrix, n: nat)
    requires IsMatrix(m, n, n)
  {
    forall x: Vector {:trigger Apply(m, x)} :: |x| == n && Apply(m, x) == ZeroV(n) ==> x == ZeroV(n)
  }

  /** The product of a and b is the identity. */
  ghost predicate Inverse(a: Matrix, b: Matrix, n: nat)
    requires IsMatrix(a, n, n) && IsMatrix(b, n, n)
  {
    forall i, j :: 0 <= i < n && 0 <= j < n ==>
      Dot(a[i], Column(b, j), n) == if i == j then ONE else ZERO
  }

  /* ---------- the dot product is bilinear ---------- */

  lemma {:induction false} DotAdd(u: Vector, w: Vector, v: Vector, n: nat)
    requires |u| == |w| && n <= |u| && n <= |v|
    ensures Dot(AddV(u, w), v, n) == Add(Dot(u, v, n), Dot(w, v, n))
  {
    hide Add, Mul;
    if n == 0 {
      AddZero(ZERO);
    } else {
      DotAdd(u, w, v, n - 1);
      MulAddLeft(u[n - 1], w[n - 1], v[n - 1]);
      AddSwap(Dot(u, v, n - 1), Dot(w, v, n - 1), Mul(u[n - 1], v[n - 1]), Mul(w[n - 1], v[n - 1]));
    }
  }

  lemma {:induction false} DotScale(c: GF, u: Vector, v: Vector, n: nat)
    requires n <= |u| && n <= |v|
    ensures Dot(ScaleV(c, u), v, n) == Mul(c, Dot(u, v, n))
  {
    hide Add, Mul;
    if n == 0 {
      MulZero(c);
    } else {
      DotScale(c, u, v, n - 1);
      MulAssoc(c, u[n - 1], v[n - 1]);
      MulAddRight(c, Dot(u, v, n - 1), Mul(u[n - 1], v[n - 1]));
    }
  }

  lemma {:induction false} DotComm(u: Vector, v: Vector, n: nat)
    requires n <= |u| && n <= |v|
    ensures Dot(u, v, n) == Dot(v, u, n)
  {
    hide Add, Mul;
    if n > 0 {
      DotComm(u, v, n - 1);
      MulComm(u[n - 1], v[n - 1]);
    }
  }

  lemma {:induction false} DotExt(u: Vector, u': Vector, v: Vector, v': Vector, n: nat)
    requires n <= |u| && n <= |v| && n <= |u'| && n <= |v'|
    requires forall i :: 0 <= i < n ==> u[i] == u'[i] && v[i] == v'[i]
    ensures Dot(u, v, n) == Dot(u', v', n)
  {
    hide Add, Mul;
    if n > 0 {
      DotExt(u, u', v, v', n - 1);
    }
  }

  /** Only the products matter. */
  lemma {:induction false} DotProducts(u: Vector, v: Vector, u': Vector, v': Vector, n: nat)
    requires n <= |u| && n <= |v| && n <= |u'| && n <= |v'|
    requires forall i :: 0 <= i < n ==> Mul(u[i], v[i]) == Mul(u'[i], v'[i])
    ensures Dot(u, v, n) == Dot(u', v', n)
  {
    hide Add, Mul;
    if n > 0 {
      DotProducts(u, v, u', v', n - 1);
    }
  }

  /** All products but the one at j vanish. */
  lemma {:induction false} DotOnly(u: Vector, v: Vector, n: nat, j: nat)
    requires n <= |u| && n <= |v|
    requires forall i :: 0 <= i < n && i != j ==> u[i] == ZERO || v[i] == ZERO
    ensures Dot(u, v, n) == if j < n then Mul(u[j], v[j]) else ZERO
  {
    hide Add, Mul;
    if n > 0 {
      DotOnly(u, v, n - 1, j);
      var p := Mul(u[n - 1], v[n - 1]);
      MulZero(u[n - 1]);
      MulZero(v[n - 1]);
      AddZero(p);
      AddZero(Dot(u, v, n - 1));
    }
  }

  lemma DotUnit(v: Vector, n: nat, j: nat)
    requires j < n <= |v|
    ensures Dot(Unit(n, j), v, n) == v[j]
    ensures Dot(v, Unit(n, j), n) == v[j]
  {
    hide Mul;
    DotOnly(Unit(n, j), v, n, j);
    DotOnly(v, Unit(n, j), n, j);
    OneMul(v[j]);
    MulOne(v[j]);
  }

  /** Changing one entry changes the sum by the coefficient times the difference. */
  lemma DotUpdate(u: Vector, v: Vector, i: nat, e: GF)
    requires |u| == |v| && i < |v|
    ensures Dot(u, v[i := e], |u|) == Add(Dot(u, v, |u|), Mul(u[i], Add(v[i], e)))
  {
    hide Add, Mul;
    var n := |u|;
    var z := ZeroV(n)[i := Add(v[i], e)];
    AddCancel(e, v[i]);
    AddComm(e, v[i]);
    AddComm(Add(v[i], e), v[i]);
    forall j | 0 <= j < n
      ensures AddV(v, z)[j] == v[i := e][j]
    {
      AddZero(v[j]);
    }
    assert AddV(v, z) == v[i := e];
    DotComm(u, AddV(v, z), n);
    DotAdd(v, z, u, n);
    DotComm(u, v, n);
    DotComm(u, z, n);
    DotOnly(u, z, n, i);
  }

  lemma DotZero(u: Vector, n: nat)
    requires n <= |u|
    ensures Dot(u, ZeroV(n), n) == ZERO
  {
    DotOnly(u, ZeroV(n), n, n);
  }

  /* ---------- a row vector times a matrix ---------- */

  /** The first m entries of u times the first m rows of a matrix with n columns. */
  function Combine(u: Vector, a: Matrix, m: nat, n: nat): (r: Vector)
    requires m <= |u| && m <= |a|
    requires forall i :: 0 <= i < m ==> |a[i]| == n
    ensures |r| == n
  {
    if m == 0 then ZeroV(n) else AddV(Combine(u, a, m - 1, n), ScaleV(u[m - 1], a[m - 1]))
  }

  lemma {:induction false} CombineAt(u: Vector, a: Matrix, m: nat, n: nat, j: nat)
    requires m == |a| <= |u| && j < n
    requires forall i :: 0 <= i < m ==> |a[i]| == n
    ensures Combine(u, a, m, n)[j] == Dot(u, Column(a, j), m)
  {
    CombineAtPrefix(u, a, m, n, j);
  }

  lemma {:induction false} CombineAtPrefix(u: Vector, a: Matrix, m: nat, n: nat, j: nat)
    requires m <= |a| && m <= |u| && j < n
    requires forall i :: 0 <= i < |a| ==> |a[i]| == n
    ensures Combine(u, a, m, n)[j] == Dot(u, Column(a, j), m)
  {
    hide Add, Mul;
    if m > 0 {
      CombineAtPrefix(u, a, m - 1, n, j);
    }
  }

  /** (u a) x == u (a x). */
  lemma {:induction false} CombineApply(u: Vector, a: Matrix, m: nat, x: Vector)
    requires m <= |u| && m <= |a|
    requires forall i :: 0 <= i < |a| ==> |a[i]| == |x|
    ensures Dot(Combine(u, a, m, |x|), x, |x|) == Dot(u, Apply(a, x), m)
  {
    hide Add, Mul;
    var n := |x|;
    if m == 0 {
      DotComm(ZeroV(n), x, n);
      DotZero(x, n);
    } else {
      CombineApply(u, a, m - 1, x);
      DotAdd(Combine(u, a, m - 1, n), ScaleV(u[m - 1], a[m - 1]), x, n);
      DotScale(u[m - 1], a[m - 1], x, n);
    }
  }

  /* ---------- matrices act on vectors ---------- */

  lemma ApplyUnit(a: Matrix, n: nat, j: nat)
    requires IsMatrix(a, |a|, n) && j < n
    ensures Apply(a, Unit(n, j)) == Column(a, j)
  {
    forall i | 0 <= i < |a|
      ensures Apply(a, Unit(n, j))[i] == Column(a, j)[i]
    {
      DotUnit(a[i], n, j);
    }
  }

  lemma ApplyZero(a: Matrix, n: nat)
    requires IsMatrix(a, |a|, n)
    ensures Apply(a, ZeroV(n)) == ZeroV(|a|)
  {
    forall i | 0 <= i < |a|
      ensures Apply(a, ZeroV(n))[i] == ZERO
    {
      DotZero(a[i], n);
    }
  }

  lemma ApplyAdd(a: Matrix, x: Vector, y: Vector)
    requires |x| == |y| && IsMatrix(a, |a|, |x|)
    ensures Apply(a, AddV(x, y)) == AddV(Apply(a, x), Apply(a, y))
  {
    hide Add, Mul;
    forall i | 0 <= i < |a|
      ensures Apply(a, AddV(x, y))[i] == AddV(Apply(a, x), Apply(a, y))[i]
    {
      DotComm(a[i], AddV(x, y), |x|);
      DotAdd(x, y, a[i], |x|);
      DotComm(a[i], x, |x|);
      DotComm(a[i], y, |x|);
    }
  }

  lemma ApplyIdentity(x: Vector)
    ensures Apply(Identity(|x|), x) == x
  {
    forall i | 0 <= i < |x|
      ensures Apply(Identity(|x|), x)[i] == x[i]
    {
      DotUnit(x, |x|, i);
    }
  }

  /** A sum of vectors is zero exactly when they are equal. */
  lemma AddVIsZero(x: Vector, y: Vector)
    requires |x| == |y|
    ensures AddV(x, y) == ZeroV(|x|) <==> x == y
  {
    hide Add;
    forall i | 0 <= i < |x|
      ensures AddV(x, y)[i] == ZERO <==> x[i] == y[i]
    {
      AddIsZero(x[i], y[i]);
    }
    assert AddV(x, y) == ZeroV(|x|) ==> forall i :: 0 <= i < |x| ==> AddV(x, y)[i] == ZeroV(|x|)[i];
  }

  /** An action that undoes a on every vector is a left inverse matrix of a. */
  lemma ActionIsInverse(b: Matrix, a: Matrix, n: nat)
    requires IsMatrix(a, n, n) && IsMatrix(b, n, n)
    requires forall x: Vector {:trigger Apply(a, x)} :: |x| == n ==> Apply(b, Apply(a, x)) == x
    ensures Inverse(b, a, n)
  {
    hide Mul, Add;
    forall i, j | 0 <= i < n && 0 <= j < n
      ensures Dot(b[i], Column(a, j), n) == if i == j then ONE else ZERO
    {
      ApplyUnit(a, n, j);
      var x := Unit(n, j);
      assert Apply(b, Apply(a, x))[i] == x[i];
    }
  }

  /** A left inverse matrix undoes the action: decoding returns the data. */
  lemma InverseUndoes(b: Matrix, a: Matrix, n: nat, x: Vector)
    requires IsMatrix(a, n, n) && IsMatrix(b, n, n) && |x| == n && Inverse(b, a, n)
    ensures Apply(b, Apply(a, x)) == x
  {
    hide Add, Mul;
    forall i | 0 <= i < n
      ensures Dot(b[i], Apply(a, x), n) == x[i]
    {
      forall j | 0 <= j < n
        ensures Combine(b[i], a, n, n)[j] == Unit(n, i)[j]
      {
        CombineAt(b[i], a, n, n, j);
      }
      assert Combine(b[i], a, n, n) == Unit(n, i);
      CombineApply(b[i], a, n, x);
      DotUnit(x, n, i);
    }
  }

  /** A left and a right inverse of the same matrix are equal. */
  lemma InverseUnique(b: Matrix, b': Matrix, a: Matrix, n: nat)
    requires IsMatrix(a, n, n) && IsMatrix(b, n, n) && IsMatrix(b', n, n)
    requires Inverse(b, a, n) && Inverse(a, b', n)
    ensures b == b'
  {
    hide Inverse, Dot;
    forall i | 0 <= i < n
      ensures b[i] == b'[i]
    {
      forall j | 0 <= j < n
        ensures b[i][j] == b'[i][j]
      {
        var y := Unit(n, j);
        InverseUndoes(a, b', n, y);
        InverseUndoes(b, a, n, Apply(b', y));
        assert Apply(b, y)[i] == Apply(b', y)[i];
        DotUnit(b[i], n, j);
        DotUnit(b'[i], n, j);
      }
    }
  }
}
