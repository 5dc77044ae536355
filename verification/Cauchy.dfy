/** gf_gen_cauchy1_matrix (isa-l/ec_base.c): any k rows of the generator decode. */
module Cauchy {
  import opened Collections
  import opened Galois
  import opened LinearAlgebra
  import opened MatrixInverse
  import opened ErasureCode

  lemma ByteInjective(u: nat, v: nat)
    requires u < 256 && v < 256
    ensures Add(Byte(u), Byte(v)) == ZERO <==> u == v
  {
    ValueByte(u);
    ValueByte(v);
    AddIsZero(Byte(u), Byte(v));
  }

  /* ---------- the generator ---------- */

  ghost function ParityEntry(i: nat, j: nat): GF
    requires i < 256 && j < 256
  {
    Inv(Add(Byte(i), Byte(j)))
  }

  /** Row i: the identity on top, then the inverses of i xor j. */
  ghost function GeneratorRow(k: nat, i: nat): (r: Vector)
    requires k <= 256 && i < 256
    ensures |r| == k
  {
    if i < k then Unit(k, i)
    else seq(k, j requires 0 <= j < k => ParityEntry(i, j))
  }

  /** The identity that drives the elimination: with p' and q' the inverses of p = t+j and
      q = u+j, and d = g+j, (t+u) p' (x d q') == ((t+g) p' + (u+g) q') x. */
  lemma Elimination(p: GF, p': GF, q: GF, q': GF, d: GF, x: GF)
    requires Undoes(p, p') && Undoes(q, q')
    ensures Mul(Mul(Add(p, q), p'), Mul(x, Mul(d, q'))) == Mul(Add(Mul(Add(p, d), p'), Mul(Add(q, d), q')), x)
  {
    hide Add, Mul;
    MulOne(p');
    MulOne(q');
    assert Mul(p, Mul(p', ONE)) == ONE && Mul(q, Mul(q', ONE)) == ONE;
    var s := Mul(d, Add(p', q'));
    // (p+d)p' + (q+d)q' == d(p'+q')
    assert Add(Mul(Add(p, d), p'), Mul(Add(q, d), q')) == s by {
      MulAddLeft(p, d, p');
      MulAddLeft(q, d, q');
      AddSwap(ONE, Mul(d, p'), ONE, Mul(d, q'));
      AddZero(ONE);
      AddZero(Add(Mul(d, p'), Mul(d, q')));
      MulAddRight(d, p', q');
    }
    // (p+q)p'q' == p'+q'
    var l := Mul(Add(p, q), p');
    assert Mul(l, q') == Add(p', q') by {
      MulAddLeft(p, q, p');
      MulAddLeft(ONE, Mul(q, p'), q');
      OneMul(q');
      MulComm(q, p');
      MulAssoc(p', q, q');
      AddComm(p', q');
    }
    calc {
      Mul(l, Mul(x, Mul(d, q')));
      { MulAssoc(x, d, q'); MulComm(x, d); }
      Mul(l, Mul(Mul(d, x), q'));
      { MulComm(Mul(d, x), q'); MulAssoc(l, q', Mul(d, x)); }
      Mul(Add(p', q'), Mul(d, x));
      { MulAssoc(Add(p', q'), d, x); MulComm(Add(p', q'), d); }
      Mul(s, x);
    }
  }

  lemma AddThrough(a: GF, b: GF, c: GF)
    ensures Add(Add(a, c), Add(b, c)) == Add(a, b)
  {
    hide Add;
    AddSwap(a, c, b, c);
    AddZero(c);
    AddZero(Add(a, b));
  }

  /** The columns' points. */
  function Points(k: nat): (s: Vector)
    requires k <= 256
  {
    seq(k, j requires 0 <= j < k => Byte(j))
  }

  /** The row of point p: the inverses of its differences to the columns' points. */
  ghost predicate CauchyRow(p: GF, at: Vector, row: Vector) {
    |row| == |at| && forall j :: 0 <= j < |at| ==> Undoes(Add(p, at[j]), row[j])
  }

  /** x with the column at point g eliminated using a row. */
  ghost function Reduce(at: Vector, x: Vector, row: Vector, g: GF): (y: Vector)
    requires |x| == |at| == |row|
  {
    seq(|x|, j requires 0 <= j < |x| => Mul(x[j], Mul(Add(g, at[j]), row[j])))
  }

  /** If the rows of two points kill x then the one kills x reduced by the other. */
  lemma ReducedRow(at: Vector, x: Vector, t: GF, rt: Vector, u: GF, ru: Vector, g: GF)
    requires |x| == |at| && t != u && CauchyRow(t, at, rt) && CauchyRow(u, at, ru)
    requires Dot(rt, x, |x|) == ZERO && Dot(ru, x, |x|) == ZERO
    ensures Dot(rt, Reduce(at, x, ru, g), |x|) == ZERO
  {
    hide Add, Mul, Undoes, Dot;
    var k, y := |x|, Reduce(at, x, ru, g);
    var l := ScaleV(Add(t, u), rt);
    var w := AddV(ScaleV(Add(t, g), rt), ScaleV(Add(u, g), ru));
    forall j | 0 <= j < k
      ensures Mul(l[j], y[j]) == Mul(w[j], x[j])
    {
      AddThrough(t, u, at[j]);
      AddThrough(t, g, at[j]);
      AddThrough(u, g, at[j]);
      Elimination(Add(t, at[j]), rt[j], Add(u, at[j]), ru[j], Add(g, at[j]), x[j]);
    }
    DotProducts(l, y, w, x, k);
    DotAdd(ScaleV(Add(t, g), rt), ScaleV(Add(u, g), ru), x, k);
    DotScale(Add(t, g), rt, x, k);
    DotScale(Add(u, g), ru, x, k);
    MulZero(Add(t, g));
    MulZero(Add(u, g));
    AddZero(ZERO);
    DotScale(Add(t, u), rt, y, k);
    AddIsZero(t, u);
    MulIsZero(Add(t, u), Dot(rt, y, k));
  }

  /** Reduction leaves a zero where there was one and at its own column, and nowhere else. */
  lemma ReduceZero(at: Vector, x: Vector, u: GF, row: Vector, g: GF, j: nat)
    requires |x| == |at| && CauchyRow(u, at, row) && j < |x|
    ensures Reduce(at, x, row, g)[j] == ZERO <==> x[j] == ZERO || at[j] == g
  {
    hide Add, Mul, Undoes;
    UndoesNonzero(Add(u, at[j]), row[j]);
    AddIsZero(g, at[j]);
    MulIsZero(Add(g, at[j]), row[j]);
    MulIsZero(x[j], Mul(Add(g, at[j]), row[j]));
  }

  /** A vector supported on the columns in cols that at least as many parity rows kill is zero. */
  lemma {:induction false} CauchyKernel(k: nat, x: Vector, cols: set<nat>, rows: set<nat>)
    requires |x| == k <= 256 && |cols| <= |rows|
    requires forall j :: j in cols ==> j < k
    requires forall t :: t in rows ==> k <= t < 256 && Dot(GeneratorRow(k, t), x, k) == ZERO
    requires forall j :: 0 <= j < k && j !in cols ==> x[j] == ZERO
    ensures x == ZeroV(k)
    decreases |cols|
  {
    hide Add, Mul, Byte, Undoes;
    if cols != {} {
      var g :| g in cols;
      assert rows != {};
      var u :| u in rows;
      var at, ru := Points(k), GeneratorRow(k, u);
      forall t | t in rows
        ensures CauchyRow(Byte(t), at, GeneratorRow(k, t))
      {
        forall j | 0 <= j < k
          ensures Undoes(Add(Byte(t), at[j]), GeneratorRow(k, t)[j])
        {
          ByteInjective(t, j);
          forall z { OneMul(z); }
          UnitUndoes(Add(Byte(t), at[j]), ParityEntry(t, j));
        }
      }
      var y := Reduce(at, x, ru, Byte(g));
      forall t | t in rows - {u}
        ensures k <= t < 256 && Dot(GeneratorRow(k, t), y, k) == ZERO
      {
        ByteInjective(t, u);
        AddIsZero(Byte(t), Byte(u));
        ReducedRow(at, x, Byte(t), GeneratorRow(k, t), Byte(u), ru, Byte(g));
      }
      forall j | 0 <= j < k
        ensures y[j] == ZERO <==> x[j] == ZERO || j == g
      {
        ReduceZero(at, x, Byte(u), ru, Byte(g), j);
        ByteInjective(j, g);
        AddIsZero(Byte(j), Byte(g));
      }
      CauchyKernel(k, y, cols - {g}, rows - {u});
      assert forall j :: 0 <= j < k ==> y[j] == ZERO;
      UndoesNonzero(Add(Byte(u), at[g]), ru[g]);
      LastColumn(ru, x, g);
    }
  }

  lemma LastColumn(row: Vector, x: Vector, g: nat)
    requires |row| == |x| && g < |x| && row[g] != ZERO && Dot(row, x, |x|) == ZERO
    requires forall j :: 0 <= j < |x| && j != g ==> x[j] == ZERO
    ensures x == ZeroV(|x|)
  {
    hide Mul, Add;
    DotOnly(row, x, |x|, g);
    MulIsZero(row[g], x[g]);
  }

  /* ---------- any k rows ---------- */

  ghost predicate ChosenRows(rows: seq<nat>, m: nat, k: nat) {
    && |rows| == k
    && (forall r :: 0 <= r < k ==> rows[r] < m)
    && (forall r, q :: 0 <= r < q < k ==> rows[r] != rows[q])
  }

  /** The matrix of the chosen rows. */
  ghost function Survivors(k: nat, rows: seq<nat>): (a: Matrix)
    requires k <= 256 && |rows| == k && forall r :: 0 <= r < k ==> rows[r] < 256
    ensures IsMatrix(a, k, k)
  {
    seq(k, r requires 0 <= r < k => GeneratorRow(k, rows[r]))
  }

  lemma {:induction false} DistinctSize(rows: seq<nat>)
    requires forall r, q :: 0 <= r < q < |rows| ==> rows[r] != rows[q]
    ensures |Elements(rows)| == |rows|
  {
    if rows != [] {
      var l := rows[..|rows| - 1];
      DistinctSize(l);
      assert rows == l + [rows[|rows| - 1]];
      assert Elements(rows) == Elements(l) + {rows[|rows| - 1]};
    }
  }

  ghost function Below(k: nat): (s: set<nat>)
    ensures |s| == k && forall j :: j in s <==> 0 <= j < k
  {
    if k == 0 then {} else Below(k - 1) + {k - 1}
  }

  /** The code is maximum distance separable: any k of the m rows are independent. */
  lemma AnyRowsNonsingular(k: nat, m: nat, rows: seq<nat>)
    requires k < m <= 256 && ChosenRows(rows, m, k)
    ensures Nonsingular(Survivors(k, rows), k)
  {
    hide Add, Mul, Inv, Byte;
    var all := Elements(rows);
    var data := all * Below(k);
    var parity := all - Below(k);
    var cols := Below(k) - all;
    DistinctSize(rows);
    hide Below;
    assert data + parity == all && data + cols == Below(k);
    forall x: Vector | |x| == k && Apply(Survivors(k, rows), x) == ZeroV(k)
      ensures x == ZeroV(k)
    {
      forall r | 0 <= r < k
        ensures Dot(GeneratorRow(k, rows[r]), x, k) == ZERO
      {
        assert Apply(Survivors(k, rows), x)[r] == ZERO;
      }
      forall j | 0 <= j < k && j !in cols
        ensures x[j] == ZERO
      {
        DotUnit(x, k, j);
      }
      CauchyKernel(k, x, cols, parity);
    }
  }

  /* ---------- the routines ---------- */

  /** Row r of the flat storage s with k columns is v. */
  ghost predicate RowIs(s: seq<GF>, k: nat, r: nat, v: Vector) {
    Offset(k, r) + k <= |s| && s[Offset(k, r)..Offset(k, r) + k] == v
  }

  lemma RowKept(s: seq<GF>, t: seq<GF>, k: nat, r: nat, i: nat, v: Vector)
    requires |s| == |t| && RowIs(s, k, r, v) && r != i
    requires forall q :: 0 <= q < |s| && !(Offset(k, i) <= q < Offset(k, i) + k) ==> t[q] == s[q]
    ensures RowIs(t, k, r, v)
  {
    hide Offset;
    if r < i { RowsApart(k, r, i); } else { RowsApart(k, i, r); }
    assert t[Offset(k, r)..Offset(k, r) + k] == s[Offset(k, r)..Offset(k, r) + k];
  }

  /** gf_gen_cauchy1_matrix: fills the flat m-by-k matrix a. */
  method GenCauchy(a: array<GF>, m: nat, k: nat)
    requires k <= m <= 256 && Offset(k, m) <= a.Length
    modifies a
    ensures forall i :: 0 <= i < m ==> RowIs(a[..], k, i, GeneratorRow(k, i))
    ensures a[Offset(k, m)..] == old(a[Offset(k, m)..])
  {
    hide Offset, GeneratorRow;
    if k < m { RowsApart(k, k, m); }
    GenIdentity(a, m, k);
    forall r | 0 <= r < k
      ensures RowIs(a[..], k, r, GeneratorRow(k, r))
    {
      GeneratorIdentity(k, r);
    }
    for i := k to m
      invariant forall r :: 0 <= r < i ==> RowIs(a[..], k, r, GeneratorRow(k, r))
      invariant a[Offset(k, m)..] == old(a[Offset(k, m)..])
    {
      RowsApart(k, i, m);
      ghost var s := a[..];
      GenParityRow(a, k, i);
      forall r | 0 <= r < i
        ensures RowIs(a[..], k, r, GeneratorRow(k, r))
      {
        RowKept(s, a[..], k, r, i, GeneratorRow(k, r));
      }
    }
  }

  lemma GeneratorIdentity(k: nat, r: nat)
    requires r < k <= 256
    ensures GeneratorRow(k, r) == Unit(k, r)
  {}

  /** The byte the source computes for column j of parity row i. */
  function ParityByte(i: nat, j: nat): (r: GF)
    requires i < 256 && j < 256
    ensures r == ParityEntry(i, j)
  {
    TableInv(Add(Byte(i), Byte(j)))
  }

  method GenParityRow(a: array<GF>, k: nat, i: nat)
    requires k <= i < 256 && Offset(k, i) + k <= a.Length
    modifies a
    ensures RowIs(a[..], k, i, GeneratorRow(k, i))
    ensures forall q :: 0 <= q < a.Length && !(Offset(k, i) <= q < Offset(k, i) + k) ==> a[q] == old(a[q])
  {
    hide Offset, ParityEntry, ParityByte;
    var b := Offset(k, i);
    for j := 0 to k
      invariant forall q :: 0 <= q < a.Length && !(b <= q < b + j) ==> a[q] == old(a[q])
      invariant forall q :: b <= q < b + j ==> a[q] == ParityEntry(i, q - b)
    {
      a[b + j] := ParityByte(i, j);
    }
    assert a[b..b + k] == GeneratorRow(k, i);
  }

  function DiagonalRow(k: nat, i: nat, r: nat): Vector { if r < i then Unit(k, r) else ZeroV(k) }

  method Clear(a: array<GF>, n: nat)
    requires n <= a.Length
    modifies a
    ensures forall q :: 0 <= q < n ==> a[q] == ZERO
    ensures a[n..] == old(a[n..])
  {
    for p := 0 to n
      invariant forall q :: 0 <= q < p ==> a[q] == ZERO
      invariant a[n..] == old(a[n..])
    {
      a[p] := ZERO;
    }
  }

  /** The identity in the high rows, zeros elsewhere. */
  method GenIdentity(a: array<GF>, m: nat, k: nat)
    requires k <= m <= 256 && Offset(k, m) <= a.Length
    modifies a
    ensures forall r :: 0 <= r < k ==> RowIs(a[..], k, r, Unit(k, r))
    ensures a[Offset(k, m)..] == old(a[Offset(k, m)..])
  {
    hide Offset;
    Clear(a, Offset(k, m));
    forall r | 0 <= r < k
      ensures RowIs(a[..], k, r, DiagonalRow(k, 0, r))
    {
      RowsApart(k, r, m);
    }
    for i := 0 to k
      invariant forall r :: 0 <= r < k ==> RowIs(a[..], k, r, DiagonalRow(k, i, r))
      invariant a[Offset(k, m)..] == old(a[Offset(k, m)..])
    {
      RowsApart(k, i, m);
      ghost var s := a[..];
      assert RowIs(s, k, i, DiagonalRow(k, i, i));
      a[Offset(k, i) + i] := ONE;
      ghost var next := i + 1;
      forall r | 0 <= r < k
        ensures RowIs(a[..], k, r, DiagonalRow(k, next, r))
      {
        if r != i {
          RowKept(s, a[..], k, r, i, DiagonalRow(k, i, r));
        } else {
          assert a[Offset(k, r)..Offset(k, r) + k] == ZeroV(k)[i := ONE];
        }
      }
    }
    forall r | 0 <= r < k
      ensures RowIs(a[..], k, r, Unit(k, r))
    {
      assert RowIs(a[..], k, r, DiagonalRow(k, k, r));
    }
  }

  /** gf_invert_matrix accepts any k surviving rows, and the inverse it returns decodes every
      data vector from its survivors. */
  method InvertSurvivors(inMat: array<GF>, outMat: array<GF>, k: nat, m: nat, ghost rows: seq<nat>) returns (r: int)
    requires k < m <= 256 && ChosenRows(rows, m, k)
    requires inMat != outMat && Offset(k, k) <= inMat.Length && Offset(k, k) <= outMat.Length
    requires Rows(inMat[..], k) == Survivors(k, rows)
    modifies inMat, outMat
    ensures r == 0
    ensures forall d: Vector {:trigger Apply(Survivors(k, rows), d)} ::
              |d| == k ==> Apply(Rows(outMat[..], k), Apply(Survivors(k, rows), d)) == d
  {
    hide Offset, Inverse, Nonsingular;
    AnyRowsNonsingular(k, m, rows);
    r := InvertMatrix(inMat, outMat, k);
    forall d: Vector | |d| == k
      ensures Apply(Rows(outMat[..], k), Apply(Survivors(k, rows), d)) == d
    {
      InverseUndoes(Rows(outMat[..], k), Survivors(k, rows), k, d);
    }
  }

  /** Any k fragments are enough: coding the survivors with the inverse of their rows gives back
      the data, byte for byte, whichever fragments are gone. */
  lemma DecodeReturnsData(k: nat, m: nat, rows: seq<nat>, inv: Matrix, data: seq<Region>, frags: seq<Region>,
                          j: nat, out: Region, before: Region, len: nat)
    requires k < m <= 256 && ChosenRows(rows, m, k) && IsMatrix(inv, k, k) && Inverse(inv, Survivors(k, rows), k)
    requires |data| == k && AtLeast(data, len) && |frags| == k && AtLeast(frags, len)
    requires forall r, p :: 0 <= r < k && 0 <= p < len ==> frags[r][p] == Dot(GeneratorRow(k, rows[r]), At(data, p), k)
    requires j < k && Encoded(out, before, inv[j], frags, len)
    ensures forall p :: 0 <= p < len ==> out[p] == data[j][p]
  {
    hide Dot, GeneratorRow;
    forall p | 0 <= p < len
      ensures out[p] == data[j][p]
    {
      var x := At(data, p);
      var s := Survivors(k, rows);
      assert At(frags, p) == Apply(s, x);
      InverseUndoes(inv, s, k, x);
      assert Apply(inv, Apply(s, x))[j] == Dot(inv[j], Apply(s, x), k);
    }
  }

  /* ---------- the whole round trip ---------- */

  /** The parity rows of the flat generator. */
  method ParityRows(a: array<GF>, k: nat, m: nat) returns (tbl: Matrix)
    requires k < m <= 256 && forall i :: 0 <= i < m ==> RowIs(a[..], k, i, GeneratorRow(k, i))
    ensures |tbl| == m - k && forall i :: 0 <= i < m - k ==> tbl[i] == GeneratorRow(k, k + i)
  {
    hide Offset, GeneratorRow;
    tbl := [];
    for r := k to m
      invariant |tbl| == r - k && forall i :: 0 <= i < r - k ==> tbl[i] == GeneratorRow(k, k + i)
    {
      assert RowIs(a[..], k, r, GeneratorRow(k, r));
      assert a[..][Offset(k, r)..Offset(k, r) + k] == a[Offset(k, r)..Offset(k, r) + k];
      tbl := tbl + [a[Offset(k, r)..Offset(k, r) + k]];
    }
  }

  method CopyRow(a: array<GF>, r: nat, b: array<GF>, q: nat, k: nat)
    requires a != b && Offset(k, r) + k <= a.Length && Offset(k, q) + k <= b.Length
    modifies b
    ensures RowIs(b[..], k, q, a[Offset(k, r)..Offset(k, r) + k])
    ensures forall x :: 0 <= x < b.Length && !(Offset(k, q) <= x < Offset(k, q) + k) ==> b[x] == old(b[x])
  {
    hide Offset;
    var i, j := Offset(k, r), Offset(k, q);
    for c := 0 to k
      invariant forall x :: 0 <= x < b.Length && !(j <= x < j + c) ==> b[x] == old(b[x])
      invariant forall x :: j <= x < j + c ==> b[x] == a[i + (x - j)]
    {
      b[j + c] := a[i + c];
    }
  }

  /** The chosen rows of the generator, as a square matrix. */
  method PickRows(a: array<GF>, k: nat, m: nat, rows: seq<nat>, b: array<GF>)
    requires k < m <= 256 && ChosenRows(rows, m, k) && a != b && Offset(k, k) <= b.Length
    requires forall i :: 0 <= i < m ==> RowIs(a[..], k, i, GeneratorRow(k, i))
    modifies b
    ensures Rows(b[..], k) == Survivors(k, rows)
  {
    hide Offset, GeneratorRow;
    for q := 0 to k
      invariant forall r :: 0 <= r < q ==> RowIs(b[..], k, r, GeneratorRow(k, rows[r]))
    {
      RowsApart(k, q, k);
      ghost var s := b[..];
      assert RowIs(a[..], k, rows[q], GeneratorRow(k, rows[q]));
      CopyRow(a, rows[q], b, q, k);
      forall r | 0 <= r < q
        ensures RowIs(b[..], k, r, GeneratorRow(k, rows[r]))
      {
        RowKept(s, b[..], k, r, q, GeneratorRow(k, rows[r]));
      }
    }
  }

  /** The fragments of a stripe: fragment r holds row r of the generator applied to the data. */
  ghost predicate Fragments(bufs: seq<Region>, k: nat, data: seq<Region>, len: nat)
    requires |data| == k && AtLeast(data, len)
  {
    && |bufs| <= 256 && k <= 256
    && forall r :: 0 <= r < |bufs| ==>
         len <= |bufs[r]| && forall p :: 0 <= p < len ==> bufs[r][p] == Dot(GeneratorRow(k, r), At(data, p), k)
  }

  /** Data and parity together are the fragments. */
  lemma EncodedFragments(bufs: seq<Region>, before: seq<Region>, k: nat, tbl: Matrix, data: seq<Region>, len: nat)
    requires k <= |bufs| <= 256 && |data| == k && bufs[..k] == data && AtLeast(data, len)
    requires |before| == |bufs| - k && IsMatrix(tbl, |bufs| - k, k)
    requires forall i :: 0 <= i < |bufs| - k ==> tbl[i] == GeneratorRow(k, k + i) && Encoded(bufs[k + i], before[i], tbl[i], data, len)
    ensures Fragments(bufs, k, data, len)
  {
    hide Dot, GeneratorRow;
    forall r | 0 <= r < |bufs|
      ensures len <= |bufs[r]| && forall p :: 0 <= p < len ==> bufs[r][p] == Dot(GeneratorRow(k, r), At(data, p), k)
    {
      if r < k {
        DataFragment(bufs[r], k, r, data, len);
      } else {
        assert tbl[r - k] == GeneratorRow(k, r);
      }
    }
  }

  lemma DataFragment(buf: Region, k: nat, r: nat, data: seq<Region>, len: nat)
    requires r < k <= 256 && |data| == k && AtLeast(data, len) && buf == data[r]
    ensures forall p :: 0 <= p < len ==> buf[p] == Dot(GeneratorRow(k, r), At(data, p), k)
  {
    hide Dot;
    GeneratorIdentity(k, r);
    forall p | 0 <= p < len
      ensures buf[p] == Dot(GeneratorRow(k, r), At(data, p), k)
    {
      DotUnit(At(data, p), k, r);
    }
  }

  /** Encode, lose all but k fragments, invert, encode again: the data is back, byte for byte,
      whichever fragments are left. */
  method EncodeAndDecode(len: nat, k: nat, m: nat, bufs: seq<array<GF>>, rows: seq<nat>, restored: seq<array<GF>>)
    requires k < m <= 256 && ChosenRows(rows, m, k) && |bufs| == m && |restored| == k
    requires Buffers(bufs[..k], bufs[k..], len) && Buffers(bufs, restored, len)
    modifies bufs[k..], restored
    ensures forall j, p :: 0 <= j < k && 0 <= p < len ==> restored[j][p] == old(bufs[j][p])
  {
    hide Offset, GeneratorRow, Inverse, Survivors, Fragments;
    ghost var data := Contents(bufs[..k]);
    var a := new GF[Offset(k, m)];
    GenCauchy(a, m, k);
    EncodeParity(len, k, m, bufs, a);
    var inv := Decoder(a, k, m, rows);
    Restore(len, k, m, bufs, rows, inv, restored, data);
  }

  /** The second encoding. */
  method Restore(len: nat, k: nat, m: nat, bufs: seq<array<GF>>, rows: seq<nat>, inv: Matrix, restored: seq<array<GF>>, ghost data: seq<Region>)
    requires k < m <= 256 && ChosenRows(rows, m, k) && |bufs| == m && |restored| == k && Buffers(bufs, restored, len)
    requires IsMatrix(inv, k, k) && Inverse(inv, Survivors(k, rows), k)
    requires |data| == k && AtLeast(data, len) && Fragments(Contents(bufs), k, data, len)
    modifies restored
    ensures forall j :: 0 <= j < k ==> len <= restored[j].Length && forall p :: 0 <= p < len ==> restored[j][p] == data[j][p]
  {
    hide GeneratorRow, Encoded, Inverse, Survivors, Dot;
    ghost var frags := KeptOf(Contents(bufs), rows);
    var kept := seq(k, r requires 0 <= r < k => bufs[rows[r]]);
    ghost var before := Contents(restored);
    assert Contents(kept) == frags;
    EncodeAvx2(len, inv, kept, restored);
    forall j | 0 <= j < k
      ensures forall p :: 0 <= p < len ==> restored[j][p] == data[j][p]
    {
      DecodeReturnsData(k, m, rows, inv, data, frags, j, restored[j][..], before[j], len);
    }
  }

  ghost function KeptOf(frags: seq<Region>, rows: seq<nat>): (r: seq<Region>)
    requires forall i :: 0 <= i < |rows| ==> rows[i] < |frags|
  {
    seq(|rows|, i requires 0 <= i < |rows| => frags[rows[i]])
  }

  method EncodeParity(len: nat, k: nat, m: nat, bufs: seq<array<GF>>, a: array<GF>)
    requires k < m <= 256 && |bufs| == m && Buffers(bufs[..k], bufs[k..], len) && a !in bufs && a.Length == Offset(k, m)
    requires forall i :: 0 <= i < m ==> RowIs(a[..], k, i, GeneratorRow(k, i))
    modifies bufs[k..]
    ensures Contents(bufs[..k]) == old(Contents(bufs[..k]))
    ensures AtLeast(old(Contents(bufs[..k])), len) && Fragments(Contents(bufs), k, old(Contents(bufs[..k])), len)
  {
    hide Offset, GeneratorRow, Encoded, Dot;
    ghost var data, before := Contents(bufs[..k]), Contents(bufs[k..]);
    var tbl := ParityRows(a, k, m);
    EncodeAvx2(len, tbl, bufs[..k], bufs[k..]);
    forall i | 0 <= i < m - k
      ensures tbl[i] == GeneratorRow(k, k + i) && Encoded(Contents(bufs)[k + i], before[i], tbl[i], data, len)
    {
      assert bufs[k..][i] == bufs[k + i];
    }
    assert Contents(bufs)[..k] == Contents(bufs[..k]);
    EncodedFragments(Contents(bufs), before, k, tbl, data, len);
  }

  /** The inverse of the chosen rows; there always is one. */
  method Decoder(a: array<GF>, k: nat, m: nat, rows: seq<nat>) returns (inv: Matrix)
    requires k < m <= 256 && ChosenRows(rows, m, k)
    requires forall i :: 0 <= i < m ==> RowIs(a[..], k, i, GeneratorRow(k, i))
    ensures IsMatrix(inv, k, k) && Inverse(inv, Survivors(k, rows), k)
  {
    hide Offset, GeneratorRow, Inverse, Survivors, Nonsingular;
    var inMat, outMat := new GF[Offset(k, k)], new GF[Offset(k, k)];
    PickRows(a, k, m, rows, inMat);
    AnyRowsNonsingular(k, m, rows);
    var r := InvertMatrix(inMat, outMat, k);
    inv := Rows(outMat[..], k);
  }
}
