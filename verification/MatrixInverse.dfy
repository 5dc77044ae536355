/** gf_invert_matrix (isa-l/ec_base.c): Gauss-Jordan elimination in place on flat arrays. */
module MatrixInverse {
  import opened Galois
  import opened LinearAlgebra

  /* ---------- elementary row operations ---------- */

  datatype RowOp =
    | Swap(i: nat, j: nat)
    | Scale(i: nat, c: GF)
    | AddMul(j: nat, i: nat, c: GF)

  ghost predicate Legal(op: RowOp, n: nat) {
    match op
    case Swap(i, j) => i < n && j < n
    case Scale(i, c) => i < n && c != ZERO
    case AddMul(j, i, c) => i < n && j < n && i != j
  }

  function OnMatrix(op: RowOp, m: Matrix, n: nat): (r: Matrix)
    requires IsMatrix(m, n, n) && Legal(op, n)
    ensures IsMatrix(r, n, n)
  {
    match op
    case Swap(i, j) => m[i := m[j]][j := m[i]]
    case Scale(i, c) => m[i := ScaleV(c, m[i])]
    case AddMul(j, i, c) => m[j := AddV(m[j], ScaleV(c, m[i]))]
  }

  function OnVector(op: RowOp, y: Vector, n: nat): (r: Vector)
    requires |y| == n && Legal(op, n)
    ensures |r| == n
  {
    match op
    case Swap(i, j) => y[i := y[j]][j := y[i]]
    case Scale(i, c) => y[i := Mul(c, y[i])]
    case AddMul(j, i, c) => y[j := Add(y[j], Mul(c, y[i]))]
  }

  /** A row operation on the matrix is the same operation on every result vector. */
  lemma OpApply(op: RowOp, m: Matrix, n: nat, x: Vector)
    requires IsMatrix(m, n, n) && Legal(op, n) && |x| == n
    ensures Apply(OnMatrix(op, m, n), x) == OnVector(op, Apply(m, x), n)
  {
    hide Add, Mul;
    match op
    case Swap(_, _) =>
    case Scale(i, c) => DotScale(c, m[i], x, n);
    case AddMul(j, i, c) =>
      DotScale(c, m[i], x, n);
      DotAdd(m[j], ScaleV(c, m[i]), x, n);
  }

  /** A row operation sends only the zero vector to zero. */
  lemma OpInjective(op: RowOp, y: Vector, n: nat)
    requires Legal(op, n) && |y| == n && OnVector(op, y, n) == ZeroV(n)
    ensures y == ZeroV(n)
  {
    hide Add, Mul;
    var r := OnVector(op, y, n);
    forall k | 0 <= k < n
      ensures y[k] == ZERO
    {
      assert r[k] == ZERO;
      match op
      case Swap(i, j) => assert r[i] == ZERO && r[j] == ZERO;
      case Scale(i, c) => MulIsZero(c, y[i]);
      case AddMul(j, i, c) =>
        assert r[i] == ZERO && r[j] == ZERO;
        MulZero(c);
        AddZero(y[j]);
    }
  }

  /* ---------- what every row operation keeps ---------- */

  /** On x, cur is work applied to orig, and neither has lost information: cur kills only
      what orig kills and work kills nothing. */
  ghost predicate TracksAt(cur: Matrix, work: Matrix, orig: Matrix, n: nat, x: Vector)
    requires IsMatrix(cur, n, n) && IsMatrix(work, n, n) && IsMatrix(orig, n, n) && |x| == n
  {
    && Apply(work, Apply(orig, x)) == Apply(cur, x)
    && (Apply(cur, x) == ZeroV(n) ==> Apply(orig, x) == ZeroV(n))
    && (Apply(work, x) == ZeroV(n) ==> x == ZeroV(n))
  }

  ghost predicate Tracks(cur: Matrix, work: Matrix, orig: Matrix, n: nat)
    requires IsMatrix(cur, n, n) && IsMatrix(work, n, n) && IsMatrix(orig, n, n)
  {
    forall x: Vector {:trigger TracksAt(cur, work, orig, n, x)} :: |x| == n ==> TracksAt(cur, work, orig, n, x)
  }

  lemma TracksStart(m: Matrix, n: nat)
    requires IsMatrix(m, n, n)
    ensures Tracks(m, Identity(n), m, n)
  {
    forall x: Vector | |x| == n
      ensures TracksAt(m, Identity(n), m, n, x)
    {
      ApplyIdentity(Apply(m, x));
      ApplyIdentity(x);
    }
  }

  lemma TracksStep(op: RowOp, cur: Matrix, work: Matrix, orig: Matrix, n: nat)
    requires IsMatrix(cur, n, n) && IsMatrix(work, n, n) && IsMatrix(orig, n, n)
    requires Legal(op, n) && Tracks(cur, work, orig, n)
    ensures Tracks(OnMatrix(op, cur, n), OnMatrix(op, work, n), orig, n)
  {
    hide OnMatrix, OnVector, Apply, Legal;
    var cur', work' := OnMatrix(op, cur, n), OnMatrix(op, work, n);
    forall x: Vector | |x| == n
      ensures TracksAt(cur', work', orig, n, x)
    {
      assert TracksAt(cur, work, orig, n, x);
      OpApply(op, work, n, Apply(orig, x));
      OpApply(op, cur, n, x);
      OpApply(op, work, n, x);
      if Apply(cur', x) == ZeroV(n) {
        OpInjective(op, Apply(cur, x), n);
      }
      if Apply(work', x) == ZeroV(n) {
        OpInjective(op, Apply(work, x), n);
      }
    }
  }

  /** When cur has become the identity, work inverts orig from both sides. */
  lemma TracksEnd(work: Matrix, orig: Matrix, n: nat)
    requires IsMatrix(work, n, n) && IsMatrix(orig, n, n)
    requires Tracks(Identity(n), work, orig, n)
    ensures Inverse(work, orig, n) && Inverse(orig, work, n) && Nonsingular(orig, n)
  {
    hide Apply, Inverse;
    forall x: Vector | |x| == n
      ensures Apply(work, Apply(orig, x)) == x
      ensures Apply(orig, Apply(work, x)) == x
      ensures Apply(orig, x) == ZeroV(n) ==> x == ZeroV(n)
    {
      InverseOn(work, orig, n, x);
      ApplyZero(work, n);
    }
    ActionIsInverse(work, orig, n);
    ActionIsInverse(orig, work, n);
  }

  lemma InverseOn(work: Matrix, orig: Matrix, n: nat, s: Vector)
    requires IsMatrix(work, n, n) && IsMatrix(orig, n, n) && |s| == n
    requires Tracks(Identity(n), work, orig, n)
    ensures Apply(work, Apply(orig, s)) == s
    ensures Apply(orig, Apply(work, s)) == s
  {
    hide Apply;
    var t := Apply(work, s);
    var y := AddV(Apply(orig, t), s);
    assert TracksAt(Identity(n), work, orig, n, s);
    assert TracksAt(Identity(n), work, orig, n, t);
    assert TracksAt(Identity(n), work, orig, n, y);
    ApplyIdentity(s);
    ApplyIdentity(t);
    ApplyAdd(work, Apply(orig, t), s);
    AddVIsZero(t, t);
    AddVIsZero(Apply(orig, t), s);
  }

  /* ---------- the shape that elimination builds ---------- */

  /** The first i columns are those of the identity. */
  ghost predicate Cleared(m: Matrix, n: nat, i: nat)
    requires IsMatrix(m, n, n) && i <= n
  {
    forall r, c :: 0 <= r < n && 0 <= c < i ==> m[r][c] == if r == c then ONE else ZERO
  }

  lemma ClearedAll(m: Matrix, n: nat)
    requires IsMatrix(m, n, n) && Cleared(m, n, n)
    ensures m == Identity(n)
  {
    forall r | 0 <= r < n
      ensures m[r] == Unit(n, r)
    {}
  }

  lemma SwapKeeps(m: Matrix, n: nat, i: nat, j: nat)
    requires IsMatrix(m, n, n) && i < n && i <= j < n && Cleared(m, n, i)
    ensures Cleared(OnMatrix(Swap(i, j), m, n), n, i)
  {}

  lemma ScaleKeeps(m: Matrix, n: nat, i: nat, c: GF)
    requires IsMatrix(m, n, n) && i < n && c != ZERO && Cleared(m, n, i)
    ensures Cleared(OnMatrix(Scale(i, c), m, n), n, i)
  {
    hide Mul;
    MulZero(c);
  }

  lemma AddMulKeeps(m: Matrix, n: nat, i: nat, j: nat)
    requires IsMatrix(m, n, n) && i < n && j < n && i != j && Cleared(m, n, i) && m[i][i] == ONE
    ensures Cleared(OnMatrix(AddMul(j, i, m[j][i]), m, n), n, i)
    ensures OnMatrix(AddMul(j, i, m[j][i]), m, n)[j][i] == ZERO
  {
    hide Mul, Add;
    var c := m[j][i];
    MulZero(c);
    MulOne(c);
    AddZero(c);
    AddZero(ONE);
    AddZero(ZERO);
  }

  /** The vector that witnesses singularity when column i has no pivot at or below row i. */
  function KernelVector(m: Matrix, n: nat, i: nat): (x: Vector)
    requires IsMatrix(m, n, n) && i < n
  {
    seq(n, c requires 0 <= c < n => if c < i then m[c][i] else if c == i then ONE else ZERO)
  }

  lemma KernelVectorKilled(m: Matrix, n: nat, i: nat)
    requires IsMatrix(m, n, n) && i < n && Cleared(m, n, i)
    requires forall r :: i <= r < n ==> m[r][i] == ZERO
    ensures Apply(m, KernelVector(m, n, i)) == ZeroV(n)
    ensures KernelVector(m, n, i) != ZeroV(n)
  {
    var x := KernelVector(m, n, i);
    assert x[i] == ONE;
    forall r | 0 <= r < n
      ensures Dot(m[r], x, n) == ZERO
    {
      KernelRow(m, n, i, r, n);
    }
  }

  lemma {:induction false} KernelRow(m: Matrix, n: nat, i: nat, r: nat, k: nat)
    requires IsMatrix(m, n, n) && i < n && Cleared(m, n, i) && r < n && k <= n
    requires forall q :: i <= q < n ==> m[q][i] == ZERO
    ensures Dot(m[r], KernelVector(m, n, i), k) == if r < i && r < k <= i then m[r][i] else ZERO
  {
    hide Mul, Add;
    if k > 0 {
      var x := KernelVector(m, n, i);
      KernelRow(m, n, i, r, k - 1);
      MulZero(x[k - 1]);
      MulZero(m[r][k - 1]);
      MulOne(m[r][k - 1]);
      OneMul(x[k - 1]);
      AddZero(ZERO);
      AddZero(m[r][i]);
    }
  }

  /** No pivot in column i: the original matrix kills a nonzero vector. */
  lemma NoPivot(cur: Matrix, work: Matrix, orig: Matrix, n: nat, i: nat)
    requires IsMatrix(cur, n, n) && IsMatrix(work, n, n) && IsMatrix(orig, n, n)
    requires Tracks(cur, work, orig, n) && i < n && Cleared(cur, n, i)
    requires forall r :: i <= r < n ==> cur[r][i] == ZERO
    ensures exists x: Vector :: |x| == n && x != ZeroV(n) && Apply(orig, x) == ZeroV(n)
    ensures !Nonsingular(orig, n)
  {
    var x := KernelVector(cur, n, i);
    KernelVectorKilled(cur, n, i);
    assert TracksAt(cur, work, orig, n, x);
    assert |x| == n && x != ZeroV(n) && Apply(orig, x) == ZeroV(n);
  }

  /* ---------- flat storage ---------- */

  /** Where row r starts in the storage of a matrix with n columns. */
  function Offset(n: nat, r: nat): nat { r * n }

  /** Rows are laid out one after the other. */
  lemma RowsApart(n: nat, r: nat, q: nat)
    requires r < q
    ensures Offset(n, r) + n <= Offset(n, q)
  {
    assert q * n == r * n + n + (q - r - 1) * n;
    assert (q - r - 1) * n >= 0;
  }

  /** Row r of an n-by-n matrix stored flat. */
  function Row(s: seq<GF>, n: nat, r: nat): (v: Vector)
    requires Offset(n, n) <= |s| && r < n
    ensures |v| == n
  {
    RowsApart(n, r, n);
    s[Offset(n, r)..Offset(n, r) + n]
  }

  function Rows(s: seq<GF>, n: nat): (m: Matrix)
    requires Offset(n, n) <= |s|
    ensures IsMatrix(m, n, n)
  {
    seq(n, r requires 0 <= r < n => Row(s, n, r))
  }

  /** Rows other than i and j are where they were, and so is what lies past the matrix. */
  ghost predicate OnlyRows(s: seq<GF>, t: seq<GF>, n: nat, i: nat, j: nat)
    requires Offset(n, n) <= |s| && i < n && j < n
  {
    && |s| == |t|
    && (forall r :: 0 <= r < n && r != i && r != j ==> Row(t, n, r) == Row(s, n, r))
    && t[Offset(n, n)..] == s[Offset(n, n)..]
  }

  lemma OnlyRowsFromBytes(s: seq<GF>, t: seq<GF>, n: nat, i: nat, j: nat)
    requires Offset(n, n) <= |s| == |t| && i < n && j < n
    requires forall p ::
      0 <= p < |s| && !(Offset(n, i) <= p < Offset(n, i) + n) && !(Offset(n, j) <= p < Offset(n, j) + n) ==>
        t[p] == s[p]
    ensures OnlyRows(s, t, n, i, j)
  {
    hide Offset;
    RowsApart(n, i, n);
    RowsApart(n, j, n);
    forall r | 0 <= r < n && r != i && r != j
      ensures Row(t, n, r) == Row(s, n, r)
    {
      RowsApart(n, r, n);
      if r < i { RowsApart(n, r, i); } else { RowsApart(n, i, r); }
      if r < j { RowsApart(n, r, j); } else { RowsApart(n, j, r); }
    }
  }

  lemma RowsSwapped(s: seq<GF>, t: seq<GF>, n: nat, i: nat, bi: nat, j: nat, bj: nat)
    requires Offset(n, n) <= |s| == |t| && i < j < n && bi == Offset(n, i) && bj == Offset(n, j)
    requires bi + n <= Offset(n, n) && bj + n <= Offset(n, n)
    requires forall p :: 0 <= p < |s| && !(bi <= p < bi + n) && !(bj <= p < bj + n) ==> t[p] == s[p]
    requires forall p :: bi <= p < bi + n ==> t[p] == s[p - bi + bj]
    requires forall p :: bj <= p < bj + n ==> t[p] == s[p - bj + bi]
    ensures Rows(t, n) == OnMatrix(Swap(i, j), Rows(s, n), n)
    ensures t[Offset(n, n)..] == s[Offset(n, n)..]
  {
    hide Offset;
    OnlyRowsFromBytes(s, t, n, i, j);
    forall c | 0 <= c < n
      ensures Row(t, n, i)[c] == Row(s, n, j)[c] && Row(t, n, j)[c] == Row(s, n, i)[c]
    {
      assert t[bi + c] == s[bi + c - bi + bj] && t[bj + c] == s[bj + c - bj + bi];
    }
    assert Row(t, n, i) == Row(s, n, j);
    assert Row(t, n, j) == Row(s, n, i);
  }

  method SwapRows(a: array<GF>, n: nat, i: nat, j: nat)
    requires Offset(n, n) <= a.Length && i < j < n
    modifies a
    ensures Rows(a[..], n) == OnMatrix(Swap(i, j), old(Rows(a[..], n)), n)
    ensures a[Offset(n, n)..] == old(a[Offset(n, n)..])
  {
    hide Offset, Rows, OnMatrix;
    RowsApart(n, i, n);
    RowsApart(n, j, n);
    RowsApart(n, i, j);
    var bi, bj := Offset(n, i), Offset(n, j);
    for k := 0 to n
      invariant forall p :: 0 <= p < a.Length && !(bi <= p < bi + k) && !(bj <= p < bj + k) ==> a[p] == old(a[p])
      invariant forall p :: bi <= p < bi + k ==> a[p] == old(a[p - bi + bj])
      invariant forall p :: bj <= p < bj + k ==> a[p] == old(a[p - bj + bi])
    {
      var temp := a[bi + k];
      a[bi + k] := a[bj + k];
      a[bj + k] := temp;
    }
    RowsSwapped(old(a[..]), a[..], n, i, bi, j, bj);
  }

  method ScaleRow(a: array<GF>, n: nat, i: nat, c: GF)
    requires Offset(n, n) <= a.Length && i < n && c != ZERO
    modifies a
    ensures Rows(a[..], n) == OnMatrix(Scale(i, c), old(Rows(a[..], n)), n)
    ensures a[Offset(n, n)..] == old(a[Offset(n, n)..])
  {
    hide Mul, TableMul, Offset;
    RowsApart(n, i, n);
    var b := Offset(n, i);
    for k := 0 to n
      invariant forall p :: 0 <= p < a.Length && !(b <= p < b + k) ==> a[p] == old(a[p])
      invariant forall p :: b <= p < b + k ==> a[p] == Mul(c, old(a[p]))
    {
      MulComm(c, a[b + k]);
      a[b + k] := TableMul(a[b + k], c);
    }
    OnlyRowsFromBytes(old(a[..]), a[..], n, i, i);
    assert Row(a[..], n, i) == ScaleV(c, Row(old(a[..]), n, i));
  }

  method AddMulRow(a: array<GF>, n: nat, j: nat, i: nat, c: GF)
    requires Offset(n, n) <= a.Length && i < n && j < n && i != j
    modifies a
    ensures Rows(a[..], n) == OnMatrix(AddMul(j, i, c), old(Rows(a[..], n)), n)
    ensures a[Offset(n, n)..] == old(a[Offset(n, n)..])
  {
    hide Add, Mul, TableMul, Offset;
    RowsApart(n, i, n);
    RowsApart(n, j, n);
    if i < j { RowsApart(n, i, j); } else { RowsApart(n, j, i); }
    var bi, bj := Offset(n, i), Offset(n, j);
    for k := 0 to n
      invariant forall p :: 0 <= p < a.Length && !(bj <= p < bj + k) ==> a[p] == old(a[p])
      invariant forall p :: bj <= p < bj + k ==> a[p] == Add(old(a[p]), Mul(c, old(a[p - bj + bi])))
    {
      a[bj + k] := Add(a[bj + k], TableMul(c, a[bi + k]));
    }
    OnlyRowsFromBytes(old(a[..]), a[..], n, j, j);
    assert Row(a[..], n, j) == AddV(Row(old(a[..]), n, j), ScaleV(c, Row(old(a[..]), n, i)));
  }

  method SetIdentity(a: array<GF>, n: nat)
    requires Offset(n, n) <= a.Length
    modifies a
    ensures Rows(a[..], n) == Identity(n)
    ensures a[Offset(n, n)..] == old(a[Offset(n, n)..])
  {
    hide Offset;
    for p := 0 to Offset(n, n)
      invariant forall q :: 0 <= q < p ==> a[q] == ZERO
      invariant forall q :: Offset(n, n) <= q < a.Length ==> a[q] == old(a[q])
    {
      a[p] := ZERO;
    }
    forall r | 0 <= r < n
      ensures Row(a[..], n, r) == ZeroV(n)
    {
      RowsApart(n, r, n);
    }
    for i := 0 to n
      invariant forall r :: 0 <= r < n ==> Row(a[..], n, r) == if r < i then Unit(n, r) else ZeroV(n)
      invariant a[Offset(n, n)..] == old(a[Offset(n, n)..])
    {
      RowsApart(n, i, n);
      ghost var s := a[..];
      a[Offset(n, i) + i] := ONE;
      OnlyRowsFromBytes(s, a[..], n, i, i);
      assert Row(a[..], n, i) == Row(s, n, i)[i := ONE];
    }
  }

  /* ---------- gf_invert_matrix ---------- */

  /** Before step i: both arrays track the original matrix and i columns are done. */
  ghost predicate Eliminating(inS: seq<GF>, outS: seq<GF>, orig: Matrix, n: nat, i: nat) {
    && Offset(n, n) <= |inS| && Offset(n, n) <= |outS| && IsMatrix(orig, n, n) && i <= n
    && Tracks(Rows(inS, n), Rows(outS, n), orig, n)
    && Cleared(Rows(inS, n), n, i)
  }

  ghost predicate Kills(m: Matrix, n: nat)
    requires IsMatrix(m, n, n)
  {
    exists x: Vector {:trigger Apply(m, x)} :: |x| == n && x != ZeroV(n) && Apply(m, x) == ZeroV(n)
  }

  lemma ClearedNone(m: Matrix, n: nat)
    requires IsMatrix(m, n, n)
    ensures Cleared(m, n, 0)
  {}

  lemma RowsAt(s: seq<GF>, n: nat, r: nat, c: nat)
    requires Offset(n, n) <= |s| && r < n && c < n
    ensures Offset(n, r) + c < |s| && Rows(s, n)[r][c] == s[Offset(n, r) + c]
  {
    RowsApart(n, r, n);
  }

  /** The first row below i with a nonzero entry in column i, or n. */
  method FindRow(inMat: array<GF>, n: nat, i: nat) returns (j: nat)
    requires Offset(n, n) <= inMat.Length && i < n
    ensures i < j <= n
    ensures forall r :: i < r < j ==> Rows(inMat[..], n)[r][i] == ZERO
    ensures j < n ==> Rows(inMat[..], n)[j][i] != ZERO
  {
    hide Offset, Rows;
    j := i + 1;
    while j < n
      invariant i < j <= n
      invariant forall r :: i < r < j ==> Rows(inMat[..], n)[r][i] == ZERO
    {
      RowsAt(inMat[..], n, j, i);
      if inMat[Offset(n, j) + i] != ZERO {
        return;
      }
      j := j + 1;
    }
  }

  /** Brings a nonzero entry to position (i, i) by at most one row swap. */
  method FindPivot(inMat: array<GF>, outMat: array<GF>, ghost orig: Matrix, n: nat, i: nat) returns (found: bool)
    requires inMat != outMat && i < n && Eliminating(inMat[..], outMat[..], orig, n, i)
    modifies inMat, outMat
    ensures !found ==> Kills(orig, n) && !Nonsingular(orig, n)
    ensures found ==> Eliminating(inMat[..], outMat[..], orig, n, i) && Rows(inMat[..], n)[i][i] != ZERO
    ensures inMat[Offset(n, n)..] == old(inMat[Offset(n, n)..])
    ensures outMat[Offset(n, n)..] == old(outMat[Offset(n, n)..])
  {
    hide Offset, Rows, Tracks;
    RowsAt(inMat[..], n, i, i);
    if inMat[Offset(n, i) + i] != ZERO {
      return true;
    }
    ghost var cur, work := Rows(inMat[..], n), Rows(outMat[..], n);
    var j := FindRow(inMat, n, i);
    if j == n {
      forall r | i <= r < n
        ensures cur[r][i] == ZERO
      {
        RowsAt(inMat[..], n, r, i);
        if r != i { assert Rows(inMat[..], n)[r][i] == ZERO; }
      }
      NoPivot(cur, work, orig, n, i);
      return false;
    }
    SwapRows(inMat, n, i, j);
    SwapRows(outMat, n, i, j);
    TracksStep(Swap(i, j), cur, work, orig, n);
    SwapKeeps(cur, n, i, j);
    return true;
  }

  /** Divides row i by its pivot. */
  method ScaleToOne(inMat: array<GF>, outMat: array<GF>, ghost orig: Matrix, n: nat, i: nat)
    requires inMat != outMat && i < n && Eliminating(inMat[..], outMat[..], orig, n, i)
    requires Rows(inMat[..], n)[i][i] != ZERO
    modifies inMat, outMat
    ensures Eliminating(inMat[..], outMat[..], orig, n, i) && Rows(inMat[..], n)[i][i] == ONE
    ensures inMat[Offset(n, n)..] == old(inMat[Offset(n, n)..])
    ensures outMat[Offset(n, n)..] == old(outMat[Offset(n, n)..])
  {
    hide Offset, Rows, Tracks, Mul, TableInv, Inv;
    ghost var cur, work := Rows(inMat[..], n), Rows(outMat[..], n);
    RowsAt(inMat[..], n, i, i);
    var p := inMat[Offset(n, i) + i];
    var temp := TableInv(p);
    MulZero(p);
    ScaleRow(inMat, n, i, temp);
    ScaleRow(outMat, n, i, temp);
    TracksStep(Scale(i, temp), cur, work, orig, n);
    ScaleKeeps(cur, n, i, temp);
  }

  /** Adds multiples of row i to all other rows so that column i becomes a unit column. */
  method ClearColumn(inMat: array<GF>, outMat: array<GF>, ghost orig: Matrix, n: nat, i: nat)
    requires inMat != outMat && i < n && Eliminating(inMat[..], outMat[..], orig, n, i)
    requires Rows(inMat[..], n)[i][i] == ONE
    modifies inMat, outMat
    ensures Eliminating(inMat[..], outMat[..], orig, n, i + 1)
    ensures inMat[Offset(n, n)..] == old(inMat[Offset(n, n)..])
    ensures outMat[Offset(n, n)..] == old(outMat[Offset(n, n)..])
  {
    hide Offset, Rows, Tracks, Mul, Add;
    for j := 0 to n
      invariant Eliminating(inMat[..], outMat[..], orig, n, i)
      invariant Rows(inMat[..], n)[i][i] == ONE
      invariant forall r :: 0 <= r < j && r != i ==> Rows(inMat[..], n)[r][i] == ZERO
      invariant inMat[Offset(n, n)..] == old(inMat[Offset(n, n)..])
      invariant outMat[Offset(n, n)..] == old(outMat[Offset(n, n)..])
    {
      if j != i {
        ghost var cur, work := Rows(inMat[..], n), Rows(outMat[..], n);
        RowsAt(inMat[..], n, j, i);
        var temp := inMat[Offset(n, j) + i];
        AddMulRow(outMat, n, j, i, temp);
        AddMulRow(inMat, n, j, i, temp);
        TracksStep(AddMul(j, i, temp), cur, work, orig, n);
        AddMulKeeps(cur, n, i, j);
      }
    }
  }

  /** Inverts the n-by-n matrix held in inMat, which is destroyed, into outMat.

      The result is 0 exactly when the matrix is nonsingular; outMat is then its two-sided
      inverse and inMat has become the identity. On -1 some nonzero vector is killed. */
  method InvertMatrix(inMat: array<GF>, outMat: array<GF>, n: nat) returns (r: int)
    requires inMat != outMat && Offset(n, n) <= inMat.Length && Offset(n, n) <= outMat.Length
    modifies inMat, outMat
    ensures r == 0 || r == -1
    ensures r == 0 <==> Nonsingular(old(Rows(inMat[..], n)), n)
    ensures r == 0 ==> Inverse(Rows(outMat[..], n), old(Rows(inMat[..], n)), n)
    ensures r == 0 ==> Inverse(old(Rows(inMat[..], n)), Rows(outMat[..], n), n)
    ensures r == 0 ==> Rows(inMat[..], n) == Identity(n)
    ensures r == -1 ==> exists x: Vector ::
                          |x| == n && x != ZeroV(n) && Apply(old(Rows(inMat[..], n)), x) == ZeroV(n)
    ensures inMat[Offset(n, n)..] == old(inMat[Offset(n, n)..])
    ensures outMat[Offset(n, n)..] == old(outMat[Offset(n, n)..])
  {
    hide Offset, OnMatrix, Rows, Tracks, Cleared, Nonsingular, Inverse;
    ghost var orig := Rows(inMat[..], n);
    SetIdentity(outMat, n);
    TracksStart(orig, n);
    assert Cleared(orig, n, 0) by { ClearedNone(orig, n); }
    for i := 0 to n
      invariant Eliminating(inMat[..], outMat[..], orig, n, i)
      invariant inMat[Offset(n, n)..] == old(inMat[Offset(n, n)..])
      invariant outMat[Offset(n, n)..] == old(outMat[Offset(n, n)..])
    {
      var found := FindPivot(inMat, outMat, orig, n, i);
      if !found {
        return -1;
      }
      ScaleToOne(inMat, outMat, orig, n, i);
      ClearColumn(inMat, outMat, orig, n, i);
    }
    ClearedAll(Rows(inMat[..], n), n);
    TracksEnd(Rows(outMat[..], n), orig, n);
    return 0;
  }
}
