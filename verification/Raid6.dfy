/** RAID-6 on top of the erasure code (isa-l/raid6_isal.c): syndromes, their incremental
    update, and recovery of two lost disks by inverting the survivor matrix. */
module Raid6 {
  import opened Galois
  import opened LinearAlgebra
  import opened MatrixInverse
  import opened ErasureCode

  const TWO := GF(false, false, false, false, false, false, true, false)

  lemma MulTwo(a: GF)
    ensures Mul(a, TWO) == Double(a)
  {
    hide Mul;
    assert Double(ONE) == TWO;
    MulDoubleRight(a, ONE);
    MulOne(a);
  }

  /** alpha_pow. */
  method AlphaPow(e: nat) returns (r: GF)
    ensures r == Pow(e)
  {
    hide TableMul, Double;
    r := ONE;
    for i := 0 to e
      invariant r == Pow(i)
    {
      MulTwo(r);
      r := TableMul(r, TWO);
    }
  }

  /* ---------- the code ---------- */

  function PRow(k: nat): (r: Vector)
    ensures |r| == k
  {
    seq(k, j => ONE)
  }

  function QRow(k: nat): (r: Vector)
    ensures |r| == k
  {
    seq(k, j requires 0 <= j < k => Pow(j))
  }

  /** The two parity rows. */
  function Parity(k: nat): (m: Matrix)
    ensures IsMatrix(m, 2, k)
  {
    [PRow(k), QRow(k)]
  }

  /** How disk id depends on the data: data disks, then P at k, then Q at k + 1. */
  function DiskRow(k: nat, id: nat): (r: Vector)
    ensures |r| == k
  {
    if id < k then Unit(k, id) else if id == k then PRow(k) else QRow(k)
  }

  datatype Mode = TwoData | DataP

  /** What was lost: data disks a and b, or data disk a and P (b is then -1). */
  ghost predicate Loss(mode: Mode, k: nat, a: int, b: int) {
    && 0 <= a < k
    && (mode == TwoData ==> 0 <= b < k && a != b)
    && (mode == DataP ==> b == -1)
  }

  predicate IsLost(mode: Mode, a: int, b: int, j: int) { j == a || (mode == TwoData && j == b) }

  /** The surviving data disks among the first j, ascending. */
  function Alive(mode: Mode, a: int, b: int, j: nat): (ids: seq<nat>) {
    if j == 0 then []
    else if IsLost(mode, a, b, j - 1) then Alive(mode, a, b, j - 1)
    else Alive(mode, a, b, j - 1) + [j - 1]
  }

  /** The survivors in canonical order: data disks, then P if it survived, then Q. */
  function Ids(mode: Mode, k: nat, a: int, b: int): (ids: seq<nat>) {
    Alive(mode, a, b, k) + (if mode == TwoData then [k] else []) + [k + 1]
  }

  lemma {:induction false} AliveMembers(mode: Mode, a: int, b: int, j: nat)
    ensures forall i :: i in Alive(mode, a, b, j) <==> 0 <= i < j && !IsLost(mode, a, b, i)
  {
    if j > 0 { AliveMembers(mode, a, b, j - 1); }
  }

  lemma {:induction false} AliveLength(mode: Mode, a: int, b: int, j: nat)
    requires 0 <= a && (mode == TwoData ==> 0 <= b && a != b)
    ensures |Alive(mode, a, b, j)| == j - (if a < j then 1 else 0) - (if mode == TwoData && b < j then 1 else 0)
  {
    if j > 0 { AliveLength(mode, a, b, j - 1); }
  }

  lemma IdsBounds(mode: Mode, k: nat, a: int, b: int)
    requires Loss(mode, k, a, b)
    ensures |Ids(mode, k, a, b)| == k
    ensures forall r :: 0 <= r < k ==> Ids(mode, k, a, b)[r] < k + 2
    ensures forall r :: 0 <= r < k ==> Ids(mode, k, a, b)[r] != a
    ensures forall r :: 0 <= r < k ==> Ids(mode, k, a, b)[r] != (if mode == TwoData then b else k)
  {
    AliveLength(mode, a, b, k);
    AliveMembers(mode, a, b, k);
    var ids := Ids(mode, k, a, b);
    forall r | 0 <= r < |ids|
      ensures ids[r] in Alive(mode, a, b, k) || (mode == TwoData && ids[r] == k) || ids[r] == k + 1
    {}
  }

  /** The survivor matrix: survivors as functions of the data. */
  function SurvivorMatrix(mode: Mode, k: nat, a: int, b: int): (m: Matrix)
    requires Loss(mode, k, a, b)
    ensures IsMatrix(m, k, k)
  {
    IdsBounds(mode, k, a, b);
    seq(k, r requires 0 <= r < k => DiskRow(k, Ids(mode, k, a, b)[r]))
  }

  /** Of the products, at most those at a and b are nonzero. */
  lemma {:induction false} DotPair(u: Vector, v: Vector, n: nat, a: nat, b: nat)
    requires n <= |u| && n <= |v| && a < b < n
    requires forall i :: 0 <= i < n && i != a && i != b ==> v[i] == ZERO
    ensures Dot(u, v, n) == Add(Mul(u[a], v[a]), Mul(u[b], v[b]))
  {
    hide Add, Mul;
    if n - 1 > b {
      DotPair(u, v, n - 1, a, b);
      MulZero(u[n - 1]);
      AddZero(Dot(u, v, n - 1));
    } else {
      DotOnly(u, v, n - 1, a);
    }
  }

  lemma PairSolved(pa: GF, pb: GF, x: GF, y: GF)
    requires pa != pb
    requires Add(x, y) == ZERO && Add(Mul(pa, x), Mul(pb, y)) == ZERO
    ensures x == ZERO && y == ZERO
  {
    hide Mul, Add;
    AddIsZero(x, y);
    MulAddLeft(pa, pb, x);
    AddIsZero(pa, pb);
    MulIsZero(Add(pa, pb), x);
  }

  /** The survivors determine the data: the singular fallback is unreachable. */
  lemma SurvivorsNonsingular(mode: Mode, k: nat, a: int, b: int)
    requires Loss(mode, k, a, b) && k <= 255
    ensures Nonsingular(SurvivorMatrix(mode, k, a, b), k)
  {
    hide Mul, Add, Double;
    var m := SurvivorMatrix(mode, k, a, b);
    forall x: Vector | |x| == k && Apply(m, x) == ZeroV(k)
      ensures x == ZeroV(k)
    {
      KernelIsZero(mode, k, a, b, x);
    }
  }

  /** The survivor with disk number id kills x. */
  lemma SurvivorKills(mode: Mode, k: nat, a: int, b: int, x: Vector, id: nat)
    requires Loss(mode, k, a, b) && |x| == k && Apply(SurvivorMatrix(mode, k, a, b), x) == ZeroV(k)
    requires id in Ids(mode, k, a, b)
    ensures Dot(DiskRow(k, id), x, k) == ZERO
  {
    hide Dot, DiskRow;
    IdsBounds(mode, k, a, b);
    var r :| 0 <= r < k && Ids(mode, k, a, b)[r] == id;
    assert Apply(SurvivorMatrix(mode, k, a, b), x)[r] == ZERO;
  }

  lemma KernelIsZero(mode: Mode, k: nat, a: int, b: int, x: Vector)
    requires Loss(mode, k, a, b) && k <= 255 && |x| == k
    requires Apply(SurvivorMatrix(mode, k, a, b), x) == ZeroV(k)
    ensures x == ZeroV(k)
  {
    hide Mul, Add, Double, Apply, SurvivorMatrix;
    AliveMembers(mode, a, b, k);
    forall j | 0 <= j < k && !IsLost(mode, a, b, j)
      ensures x[j] == ZERO
    {
      SurvivorKills(mode, k, a, b, x, j);
      DotUnit(x, k, j);
    }
    SurvivorKills(mode, k, a, b, x, k + 1);
    if mode == TwoData {
      SurvivorKills(mode, k, a, b, x, k);
      var lo, hi := if a < b then a else b, if a < b then b else a;
      DotPair(PRow(k), x, k, lo, hi);
      DotPair(QRow(k), x, k, lo, hi);
      PowPeriod(lo, hi);
      OneMul(x[lo]);
      OneMul(x[hi]);
      PairSolved(Pow(lo), Pow(hi), x[lo], x[hi]);
    } else {
      DotOnly(QRow(k), x, k, a);
      LogPow(a);
      MulIsZero(Pow(a), x[a]);
    }
  }

  /* ---------- decode tables ---------- */

  /** What the two outputs are, as functions of the data. */
  function LostRows(mode: Mode, k: nat, a: int, b: int): (m: Matrix)
    requires Loss(mode, k, a, b)
    ensures IsMatrix(m, 2, k)
  {
    [Unit(k, a), if mode == TwoData then Unit(k, b) else PRow(k)]
  }

  /** tbls are the tables built for this loss: the lost rows times the inverse. */
  ghost predicate BuiltFor(tbls: Matrix, mode: Mode, k: nat, a: int, b: int) {
    Loss(mode, k, a, b) && exists inv: Matrix :: BuiltFrom(tbls, inv, mode, k, a, b)
  }

  ghost predicate BuiltFrom(tbls: Matrix, inv: Matrix, mode: Mode, k: nat, a: int, b: int)
    requires Loss(mode, k, a, b)
  {
    var m, out := SurvivorMatrix(mode, k, a, b), LostRows(mode, k, a, b);
    && IsMatrix(inv, k, k) && Inverse(inv, m, k) && Inverse(m, inv, k)
    && tbls == [Combine(out[0], inv, k, k), Combine(out[1], inv, k, k)]
  }

  /** The loss determines its tables, so a remembered table is the one a rebuild would give. */
  lemma BuiltUnique(tbls: Matrix, tbls': Matrix, mode: Mode, k: nat, a: int, b: int)
    requires BuiltFor(tbls, mode, k, a, b) && BuiltFor(tbls', mode, k, a, b)
    ensures tbls == tbls'
  {
    hide Inverse, Combine;
    var inv: Matrix :| BuiltFrom(tbls, inv, mode, k, a, b);
    var inv': Matrix :| BuiltFrom(tbls', inv', mode, k, a, b);
    InverseUnique(inv, inv', SurvivorMatrix(mode, k, a, b), k);
  }

  /** Applied to the survivors, the tables give the lost disks. */
  lemma BuiltDecodes(tbls: Matrix, mode: Mode, k: nat, a: int, b: int, d: Vector, o: nat)
    requires BuiltFor(tbls, mode, k, a, b) && |d| == k && o < 2
    ensures IsMatrix(tbls, 2, k)
    ensures Dot(tbls[o], Apply(SurvivorMatrix(mode, k, a, b), d), k) == Dot(LostRows(mode, k, a, b)[o], d, k)
  {
    hide Inverse, Dot;
    var m, out := SurvivorMatrix(mode, k, a, b), LostRows(mode, k, a, b);
    var inv: Matrix :| BuiltFrom(tbls, inv, mode, k, a, b);
    InverseUndoes(inv, m, k, d);
    CombineApply(out[o], inv, k, Apply(m, d));
  }

  /** dec = out * inv, one coefficient at a time. */
  method FoldRow(out: Vector, inv: array<GF>, k: nat) returns (dec: Vector)
    requires |out| == k && Offset(k, k) <= inv.Length
    ensures dec == Combine(out, Rows(inv[..], k), k, k)
  {
    hide Mul, Add, TableMul, Offset, Rows, Combine;
    ghost var m := Rows(inv[..], k);
    dec := [];
    for i := 0 to k
      invariant |dec| == i && forall c :: 0 <= c < i ==> dec[c] == Combine(out, m, k, k)[c]
    {
      var s := ZERO;
      for j := 0 to k
        invariant s == Dot(out, Column(m, i), j)
      {
        RowsAt(inv[..], k, j, i);
        s := Add(s, TableMul(out[j], inv[Offset(k, j) + i]));
      }
      CombineAt(out, m, k, k, i);
      dec := dec + [s];
    }
  }

  /* ---------- filling the survivor matrix ---------- */

  method WriteUnitRow(enc: array<GF>, k: nat, r: nat, j: nat)
    requires Offset(k, k) <= enc.Length && r < k && j < k
    modifies enc
    ensures Row(enc[..], k, r) == Unit(k, j) && OnlyRows(old(enc[..]), enc[..], k, r, r)
  {
    hide Offset;
    RowsApart(k, r, k);
    var b := Offset(k, r);
    for i := 0 to k
      invariant forall p :: 0 <= p < enc.Length && !(b <= p < b + i) ==> enc[p] == old(enc[p])
      invariant forall p :: b <= p < b + i ==> enc[p] == ZERO
    {
      enc[b + i] := ZERO;
    }
    enc[b + j] := ONE;
    OnlyRowsFromBytes(old(enc[..]), enc[..], k, r, r);
    forall c | 0 <= c < k
      ensures Row(enc[..], k, r)[c] == Unit(k, j)[c]
    {
      assert enc[b + c] == if c == j then ONE else ZERO;
    }
    assert Row(enc[..], k, r) == Unit(k, j);
  }

  method WriteParityRow(enc: array<GF>, k: nat, r: nat, q: bool)
    requires Offset(k, k) <= enc.Length && r < k
    modifies enc
    ensures Row(enc[..], k, r) == (if q then QRow(k) else PRow(k)) && OnlyRows(old(enc[..]), enc[..], k, r, r)
  {
    hide Offset, Pow;
    RowsApart(k, r, k);
    var b := Offset(k, r);
    for i := 0 to k
      invariant forall p :: 0 <= p < enc.Length && !(b <= p < b + i) ==> enc[p] == old(enc[p])
      invariant forall p :: b <= p < b + i ==> enc[p] == if q then Pow(p - b) else ONE
    {
      if q {
        var c := AlphaPow(i);
        enc[b + i] := c;
      } else {
        enc[b + i] := ONE;
      }
    }
    OnlyRowsFromBytes(old(enc[..]), enc[..], k, r, r);
    forall c | 0 <= c < k
      ensures Row(enc[..], k, r)[c] == (if q then QRow(k) else PRow(k))[c]
    {
      assert enc[b + c] == if q then Pow(c) else ONE;
    }
    assert Row(enc[..], k, r) == if q then QRow(k) else PRow(k);
  }

  /** The first rows of enc are those of the listed disks. */
  ghost predicate RowsFilled(enc: seq<GF>, k: nat, ids: seq<nat>) {
    && Offset(k, k) <= |enc| && |ids| <= k
    && forall r :: 0 <= r < |ids| ==> Row(enc, k, r) == DiskRow(k, ids[r])
  }

  lemma FilledOneMore(s: seq<GF>, t: seq<GF>, k: nat, ids: seq<nat>, id: nat)
    requires RowsFilled(s, k, ids) && |ids| < k && OnlyRows(s, t, k, |ids|, |ids|)
    requires Row(t, k, |ids|) == DiskRow(k, id)
    ensures RowsFilled(t, k, ids + [id])
  {}

  /** Survivor rows in canonical order, into the scratch matrix. */
  method FillSurvivors(mode: Mode, k: nat, a: int, b: int, enc: array<GF>)
    requires Loss(mode, k, a, b) && Offset(k, k) <= enc.Length
    modifies enc
    ensures Rows(enc[..], k) == SurvivorMatrix(mode, k, a, b)
  {
    hide Offset, Row, DiskRow, OnlyRows;
    IdsBounds(mode, k, a, b);
    var r := 0;
    for j := 0 to k
      invariant r == |Alive(mode, a, b, j)|
      invariant RowsFilled(enc[..], k, Alive(mode, a, b, j))
    {
      AliveLength(mode, a, b, j);
      if !IsLost(mode, a, b, j) {
        ghost var s := enc[..];
        WriteUnitRow(enc, k, r, j);
        DiskRows(k, j);
        FilledOneMore(s, enc[..], k, Alive(mode, a, b, j), j);
        r := r + 1;
      }
    }
    AliveLength(mode, a, b, k);
    DiskRows(k, 0);
    ghost var ids := Alive(mode, a, b, k);
    if mode == TwoData {
      ghost var s := enc[..];
      WriteParityRow(enc, k, r, false);
      FilledOneMore(s, enc[..], k, ids, k);
      ids := ids + [k];
      r := r + 1;
    }
    ghost var s := enc[..];
    WriteParityRow(enc, k, r, true);
    FilledOneMore(s, enc[..], k, ids, k + 1);
    assert ids + [k + 1] == Ids(mode, k, a, b);
  }

  lemma DiskRows(k: nat, j: nat)
    ensures j < k ==> DiskRow(k, j) == Unit(k, j)
    ensures DiskRow(k, k) == PRow(k) && DiskRow(k, k + 1) == QRow(k)
  {}

  /** isal_build_srcs: the survivors' buffers, in the order of the matrix rows. */
  method BuildSrcs(mode: Mode, k: nat, a: int, b: int, ptrs: seq<array<GF>>) returns (srcs: seq<array<GF>>)
    requires Loss(mode, k, a, b) && |ptrs| == k + 2
    ensures |srcs| == k == |Ids(mode, k, a, b)|
    ensures forall r :: 0 <= r < k ==> Ids(mode, k, a, b)[r] < k + 2 && srcs[r] == ptrs[Ids(mode, k, a, b)[r]]
  {
    IdsBounds(mode, k, a, b);
    AliveMembers(mode, a, b, k);
    srcs := [];
    for j := 0 to k
      invariant |srcs| == |Alive(mode, a, b, j)|
      invariant forall r :: 0 <= r < |srcs| ==> Alive(mode, a, b, j)[r] < k && srcs[r] == ptrs[Alive(mode, a, b, j)[r]]
    {
      if !IsLost(mode, a, b, j) {
        srcs := srcs + [ptrs[j]];
      }
    }
    if mode == TwoData {
      srcs := srcs + [ptrs[k]];
    }
    srcs := srcs + [ptrs[k + 1]];
  }

  /** isal_build_tbls: -1 exactly when the survivor matrix is singular. */
  method BuildTbls(mode: Mode, k: nat, a: int, b: int, enc: array<GF>, inv: array<GF>) returns (r: int, tbls: Matrix)
    requires Loss(mode, k, a, b) && enc != inv && Offset(k, k) <= enc.Length && Offset(k, k) <= inv.Length
    modifies enc, inv
    ensures r == 0 || r == -1
    ensures r == 0 <==> Nonsingular(SurvivorMatrix(mode, k, a, b), k)
    ensures r == 0 ==> BuiltFor(tbls, mode, k, a, b)
  {
    hide Offset, Nonsingular, Inverse, Combine, SurvivorMatrix;
    FillSurvivors(mode, k, a, b, enc);
    r := InvertMatrix(enc, inv, k);
    if r < 0 {
      return -1, [];
    }
    tbls := Fold(mode, k, a, b, inv);
  }

  /** The two lost rows folded through the inverse. */
  method Fold(mode: Mode, k: nat, a: int, b: int, inv: array<GF>) returns (tbls: Matrix)
    requires Loss(mode, k, a, b) && Offset(k, k) <= inv.Length
    requires Inverse(Rows(inv[..], k), SurvivorMatrix(mode, k, a, b), k)
    requires Inverse(SurvivorMatrix(mode, k, a, b), Rows(inv[..], k), k)
    ensures BuiltFor(tbls, mode, k, a, b)
  {
    hide Offset, Inverse, Combine, SurvivorMatrix;
    var out0 := Unit(k, a);
    var out1 := if mode == TwoData then Unit(k, b) else PRow(k);
    var dec0 := FoldRow(out0, inv, k);
    var dec1 := FoldRow(out1, inv, k);
    tbls := [dec0, dec1];
    assert BuiltFrom(tbls, Rows(inv[..], k), mode, k, a, b);
  }

  /* ---------- recovery ---------- */

  /** Byte p of disk id in the stripe whose data regions are given. */
  function DiskByte(stripe: seq<Region>, id: nat, p: nat): (x: GF)
    requires AtLeast(stripe, p + 1)
  {
    if id < |stripe| then stripe[id][p]
    else if id == |stripe| then Dot(PRow(|stripe|), At(stripe, p), |stripe|)
    else Dot(QRow(|stripe|), At(stripe, p), |stripe|)
  }

  /** The buffer holds disk id of the stripe. */
  ghost predicate Holds(buf: Region, stripe: seq<Region>, id: nat, bytes: nat)
    requires AtLeast(stripe, bytes)
  {
    bytes <= |buf| && forall p :: 0 <= p < bytes ==> buf[p] == DiskByte(stripe, id, p)
  }

  lemma DiskByteIsDot(stripe: seq<Region>, id: nat, p: nat)
    requires AtLeast(stripe, p + 1)
    ensures DiskByte(stripe, id, p) == Dot(DiskRow(|stripe|, id), At(stripe, p), |stripe|)
  {
    hide Dot;
    if id < |stripe| { DotUnit(At(stripe, p), |stripe|, id); }
  }

  /** The second lost disk. */
  function SecondLost(mode: Mode, k: nat, b: int): (id: int) { if mode == TwoData then b else k }

  /** The decode tables turn the survivors' bytes into the lost disks' bytes. */
  lemma DecodedByte(tbls: Matrix, mode: Mode, a: int, b: int, data: seq<Region>, stripe: seq<Region>, p: nat)
    requires BuiltFor(tbls, mode, |stripe|, a, b) && |data| == |stripe|
    requires AtLeast(stripe, p + 1) && AtLeast(data, p + 1)
    requires |Ids(mode, |stripe|, a, b)| == |stripe|
    requires forall r :: 0 <= r < |data| ==> data[r][p] == DiskByte(stripe, Ids(mode, |stripe|, a, b)[r], p)
    ensures IsMatrix(tbls, 2, |stripe|)
    ensures Dot(tbls[0], At(data, p), |data|) == DiskByte(stripe, a, p)
    ensures Dot(tbls[1], At(data, p), |data|) == DiskByte(stripe, SecondLost(mode, |stripe|, b), p)
  {
    hide Dot, DiskByte, BuiltFor;
    assert Loss(mode, |stripe|, a, b) by { BuiltLoss(tbls, mode, |stripe|, a, b); }
    var k, d := |stripe|, At(stripe, p);
    var m, out := SurvivorMatrix(mode, k, a, b), LostRows(mode, k, a, b);
    forall r | 0 <= r < k
      ensures At(data, p)[r] == Apply(m, d)[r]
    {
      DiskByteIsDot(stripe, Ids(mode, k, a, b)[r], p);
    }
    assert At(data, p) == Apply(m, d);
    BuiltDecodes(tbls, mode, k, a, b, d, 0);
    BuiltDecodes(tbls, mode, k, a, b, d, 1);
    DiskByteIsDot(stripe, a, p);
    DiskByteIsDot(stripe, SecondLost(mode, k, b), p);
  }

  lemma BuiltLoss(tbls: Matrix, mode: Mode, k: nat, a: int, b: int)
    requires BuiltFor(tbls, mode, k, a, b)
    ensures Loss(mode, k, a, b)
  {}

  /** A degraded array: the buffers of the two lost disks are apart from all others, and every
      other disk holds its part of the stripe. Survivors may share a buffer. */
  ghost predicate Degraded(ptrs: seq<array<GF>>, stripe: seq<Region>, mode: Mode, a: int, b: int, bytes: nat)
    reads ptrs
  {
    && |ptrs| == |stripe| + 2 && AtLeast(stripe, bytes) && Loss(mode, |stripe|, a, b)
    && (forall i :: 0 <= i < |ptrs| ==> bytes <= ptrs[i].Length)
    && (forall i :: 0 <= i < |ptrs| && i != a ==> ptrs[i] != ptrs[a])
    && (forall i :: 0 <= i < |ptrs| && i != SecondLost(mode, |stripe|, b) ==> ptrs[i] != ptrs[SecondLost(mode, |stripe|, b)])
    && (forall i :: 0 <= i < |ptrs| && i != a && i != SecondLost(mode, |stripe|, b) ==> Holds(ptrs[i][..], stripe, i, bytes))
  }

  /** Runs the dot product over the survivors: both lost disks are restored, to the byte. */
  method RunDecode(mode: Mode, k: nat, a: int, b: int, bytes: nat, tbls: Matrix, srcs: seq<array<GF>>,
                   ptrs: seq<array<GF>>, avx512: bool, ghost stripe: seq<Region>)
    requires k == |stripe| && Degraded(ptrs, stripe, mode, a, b, bytes) && BuiltFor(tbls, mode, k, a, b)
    requires |srcs| == k == |Ids(mode, k, a, b)|
    requires forall r :: 0 <= r < k ==> Ids(mode, k, a, b)[r] < k + 2 && srcs[r] == ptrs[Ids(mode, k, a, b)[r]]
    modifies ptrs[a], ptrs[SecondLost(mode, k, b)]
    ensures Holds(ptrs[a][..], stripe, a, bytes)
    ensures Holds(ptrs[SecondLost(mode, k, b)][..], stripe, SecondLost(mode, k, b), bytes)
    ensures ptrs[a][bytes..] == old(ptrs[a][bytes..])
    ensures ptrs[SecondLost(mode, k, b)][bytes..] == old(ptrs[SecondLost(mode, k, b)][bytes..])
  {
    hide Dot, DiskByte, BuiltFor;
    IdsBounds(mode, k, a, b);
    var d0, d1 := ptrs[a], ptrs[SecondLost(mode, k, b)];
    var dests := [d0, d1];
    ghost var data := Contents(srcs);
    forall p | 0 <= p < bytes
      ensures AtLeast(data, p + 1) && IsMatrix(tbls, 2, k)
      ensures Dot(tbls[0], At(data, p), k) == DiskByte(stripe, a, p)
      ensures Dot(tbls[1], At(data, p), k) == DiskByte(stripe, SecondLost(mode, k, b), p)
    {
      DecodedByte(tbls, mode, a, b, data, stripe, p);
    }
    assert IsMatrix(tbls, 2, k) by { BuiltShape(tbls, mode, k, a, b); }
    if avx512 {
      DotProdAvx512(bytes, tbls, srcs, dests);
    } else {
      DotProdAvx2(bytes, tbls, srcs, dests);
    }
    assert Encoded(dests[0][..], old(d0[..]), tbls[0], data, bytes);
    assert Encoded(dests[1][..], old(d1[..]), tbls[1], data, bytes);
  }

  lemma BuiltShape(tbls: Matrix, mode: Mode, k: nat, a: int, b: int)
    requires BuiltFor(tbls, mode, k, a, b)
    ensures IsMatrix(tbls, 2, k)
  {}

  /* ---------- the per-CPU cache and the entry points ---------- */

  const CACHE_MAX_K := 32
  const RECOV_MAX_K := 64

  lemma OffsetMono(k: nat, n: nat)
    requires k <= n
    ensures Offset(k, k) <= Offset(n, n)
  {
    assert k * k <= n * k <= n * n;
  }

  /** Both lost disks are back and nothing past them has moved. */
  twostate predicate Restored(ptrs: seq<array<GF>>, stripe: seq<Region>, mode: Mode, a: int, b: int, bytes: nat)
    requires |ptrs| == |stripe| + 2 && AtLeast(stripe, bytes) && Loss(mode, |stripe|, a, b)
    requires forall i :: 0 <= i < |ptrs| ==> bytes <= ptrs[i].Length
    reads ptrs
  {
    var c := SecondLost(mode, |stripe|, b);
    && Holds(ptrs[a][..], stripe, a, bytes) && ptrs[a][bytes..] == old(ptrs[a][bytes..])
    && Holds(ptrs[c][..], stripe, c, bytes) && ptrs[c][bytes..] == old(ptrs[c][bytes..])
  }

  /** struct isal_cpu_cache: the tables of the last loss, and scratch for a rebuild. */
  class CpuCache {
    var valid: bool
    var mode: Mode
    var k: nat
    var faila: int
    var failb: int
    var tbls: Matrix
    const enc: array<GF>
    const inv: array<GF>

    /** A valid entry's tables are those of its key. */
    ghost predicate Valid()
      reads this
    {
      && enc != inv
      && enc.Length == Offset(CACHE_MAX_K, CACHE_MAX_K) && inv.Length == Offset(CACHE_MAX_K, CACHE_MAX_K)
      && (valid ==> BuiltFor(tbls, mode, k, faila, failb))
    }

    constructor ()
      ensures Valid() && fresh(enc) && fresh(inv)
    {
      valid, mode, k, faila, failb, tbls := false, TwoData, 0, 0, 0, [];
      enc := new GF[Offset(CACHE_MAX_K, CACHE_MAX_K)];
      inv := new GF[Offset(CACHE_MAX_K, CACHE_MAX_K)];
    }

    /** Makes the entry valid for this loss, rebuilding it on a miss. */
    method Refresh(m: Mode, n: nat, a: int, b: int) returns (ok: bool)
      requires Valid() && Loss(m, n, a, b) && n <= 32
      modifies this, enc, inv
      ensures Valid()
      ensures ok <== Nonsingular(SurvivorMatrix(m, n, a, b), n)
      ensures ok ==> valid && (mode, k, faila, failb) == (m, n, a, b)
    {
      hide Offset, BuiltFor, Nonsingular;
      if !valid || mode != m || k != n || faila != a || failb != b {
        OffsetMono(n, CACHE_MAX_K);
        var r, t := BuildTbls(m, n, a, b, enc, inv);
        if r < 0 {
          valid := false;
          return false;
        }
        tbls := t;
        mode, k, faila, failb := m, n, a, b;
        valid := true;
      }
      return true;
    }

    /** isal_recov_cached: both lost disks are restored, or nothing has changed. */
    method Recover(m: Mode, a: int, b: int, bytes: nat, ptrs: seq<array<GF>>, avx512: bool, ghost stripe: seq<Region>)
      returns (ok: bool)
      requires Valid() && Degraded(ptrs, stripe, m, a, b, bytes) && enc !in ptrs && inv !in ptrs
      modifies this, enc, inv, ptrs[a], ptrs[SecondLost(m, |stripe|, b)]
      ensures Valid()
      ensures ok <== |stripe| <= 32 && Nonsingular(SurvivorMatrix(m, |stripe|, a, b), |stripe|)
      ensures ok ==> |stripe| <= 32
      ensures ok ==> Restored(ptrs, stripe, m, a, b, bytes)
      ensures !ok ==> Degraded(ptrs, stripe, m, a, b, bytes)
      ensures !ok ==> forall i :: 0 <= i < |ptrs| ==> ptrs[i][..] == old(ptrs[i][..])
    {
      hide Offset, BuiltFor, Nonsingular, Holds, SurvivorMatrix, Ids;
      var n := |ptrs| - 2;
      if n > CACHE_MAX_K {
        return false;
      }
      var srcs := BuildSrcs(m, n, a, b, ptrs);
      ok := Refresh(m, n, a, b);
      if !ok {
        return false;
      }
      RunDecode(m, n, a, b, bytes, tbls, srcs, ptrs, avx512, stripe);
      return true;
    }
  }

  const ENOMEM := 12
  const EINVAL := 22

  /** isal_recov_finish, on an enc that holds the survivor matrix. The flag says whether the
      scratch allocations succeed. */
  method RecovFinish(mode: Mode, k: nat, a: int, b: int, bytes: nat, srcs: seq<array<GF>>, enc: array<GF>,
                     ptrs: seq<array<GF>>, scratch: bool, avx512: bool, ghost stripe: seq<Region>) returns (r: int)
    requires k == |stripe| && Degraded(ptrs, stripe, mode, a, b, bytes) && enc !in ptrs
    requires Offset(k, k) <= enc.Length && Rows(enc[..], k) == SurvivorMatrix(mode, k, a, b)
    requires |srcs| == k == |Ids(mode, k, a, b)|
    requires forall i :: 0 <= i < k ==> Ids(mode, k, a, b)[i] < k + 2 && srcs[i] == ptrs[Ids(mode, k, a, b)[i]]
    modifies enc, ptrs[a], ptrs[SecondLost(mode, k, b)]
    ensures r == 0 <==> scratch && Nonsingular(SurvivorMatrix(mode, k, a, b), k)
    ensures r == 0 ==> Restored(ptrs, stripe, mode, a, b, bytes)
    ensures r != 0 ==> r == (if scratch then -22 else -12)
    ensures r != 0 ==> forall i :: 0 <= i < |ptrs| ==> ptrs[i][..] == old(ptrs[i][..])
  {
    hide Offset, BuiltFor, Nonsingular, Inverse, Holds, SurvivorMatrix, Ids;
    if !scratch {
      return -ENOMEM;
    }
    var inv := new GF[Offset(k, k)];
    var t := InvertMatrix(enc, inv, k);
    if t < 0 {
      return -EINVAL;
    }
    var tbls := Fold(mode, k, a, b, inv);
    RunDecode(mode, k, a, b, bytes, tbls, srcs, ptrs, avx512, stripe);
    return 0;
  }

  /** The common body of the two entry points: cached tables, else the plain path, else hand
      over to the saved in-tree routine (result false, buffers untouched). */
  method Recov(mode: Mode, a: int, b: int, bytes: nat, ptrs: seq<array<GF>>, cc: CpuCache,
               matrix: bool, scratch: bool, avx512: bool, ghost stripe: seq<Region>) returns (done: bool)
    requires cc.Valid() && Degraded(ptrs, stripe, mode, a, b, bytes) && cc.enc !in ptrs && cc.inv !in ptrs
    modifies cc, cc.enc, cc.inv, ptrs[a], ptrs[SecondLost(mode, |stripe|, b)]
    ensures cc.Valid()
    ensures done <==> |stripe| <= 32 || (|stripe| <= 64 && matrix && scratch)
    ensures done ==> Restored(ptrs, stripe, mode, a, b, bytes)
    ensures !done ==> forall i :: 0 <= i < |ptrs| ==> ptrs[i][..] == old(ptrs[i][..])
  {
    hide Offset, BuiltFor, Nonsingular, Holds, SurvivorMatrix, Ids;
    var k := |ptrs| - 2;
    done := cc.Recover(mode, a, b, bytes, ptrs, avx512, stripe);
    if k <= RECOV_MAX_K { SurvivorsNonsingular(mode, k, a, b); }
    if done {
      return true;
    }
    if k > RECOV_MAX_K || !matrix {
      return false;
    }
    var enc := new GF[Offset(k, k)];
    FillSurvivors(mode, k, a, b, enc);
    var srcs := BuildSrcs(mode, k, a, b, ptrs);
    var r := RecovFinish(mode, k, a, b, bytes, srcs, enc, ptrs, scratch, avx512, stripe);
    return r == 0;
  }

  /** isal_2data_recov: two lost data disks, with P and Q alive. */
  method TwoDataRecov(a: nat, b: nat, bytes: nat, ptrs: seq<array<GF>>, cc: CpuCache,
                      matrix: bool, scratch: bool, avx512: bool, ghost stripe: seq<Region>) returns (done: bool)
    requires cc.Valid() && cc.enc !in ptrs && cc.inv !in ptrs && |ptrs| == |stripe| + 2 && a < |ptrs| && b < |ptrs|
    requires |stripe| >= 2 ==> Degraded(ptrs, stripe, TwoData, a, b, bytes)
    modifies cc, cc.enc, cc.inv, ptrs[a], ptrs[b]
    ensures cc.Valid()
    ensures done <==> 2 <= |stripe| && (|stripe| <= 32 || (|stripe| <= 64 && matrix && scratch))
    ensures done ==> Holds(ptrs[a][..], stripe, a, bytes) && Holds(ptrs[b][..], stripe, b, bytes)
    ensures done ==> ptrs[a][bytes..] == old(ptrs[a][bytes..]) && ptrs[b][bytes..] == old(ptrs[b][bytes..])
    ensures !done ==> forall i :: 0 <= i < |ptrs| ==> ptrs[i][..] == old(ptrs[i][..])
  {
    hide Holds;
    if |ptrs| - 2 < 2 {
      return false;
    }
    done := Recov(TwoData, a, b, bytes, ptrs, cc, matrix, scratch, avx512, stripe);
  }

  /** isal_datap_recov: one lost data disk and P, with Q alive. */
  method DataPRecov(a: nat, bytes: nat, ptrs: seq<array<GF>>, cc: CpuCache,
                    matrix: bool, scratch: bool, avx512: bool, ghost stripe: seq<Region>) returns (done: bool)
    requires cc.Valid() && cc.enc !in ptrs && cc.inv !in ptrs && |ptrs| == |stripe| + 2 && a < |ptrs|
    requires |stripe| >= 1 ==> Degraded(ptrs, stripe, DataP, a, -1, bytes)
    modifies cc, cc.enc, cc.inv, ptrs[a], ptrs[|ptrs| - 2]
    ensures cc.Valid()
    ensures done <==> 1 <= |stripe| && (|stripe| <= 32 || (|stripe| <= 64 && matrix && scratch))
    ensures done ==> Holds(ptrs[a][..], stripe, a, bytes)
    ensures done ==> Holds(ptrs[|stripe|][..], stripe, |stripe|, bytes)
    ensures done ==> ptrs[a][bytes..] == old(ptrs[a][bytes..])
    ensures done ==> ptrs[|stripe|][bytes..] == old(ptrs[|stripe|][bytes..])
    ensures !done ==> forall i :: 0 <= i < |ptrs| ==> ptrs[i][..] == old(ptrs[i][..])
  {
    hide Holds;
    if |ptrs| - 2 < 1 {
      return false;
    }
    done := Recov(DataP, a, -1, bytes, ptrs, cc, matrix, scratch, avx512, stripe);
  }

  /* ---------- computing and updating the syndromes ---------- */

  const SYNDROME_MAX_K := 32

  /** The coefficient tables of the P and Q rows. */
  method BuildParity(k: nat) returns (tbl: Matrix)
    ensures tbl == Parity(k)
  {
    hide Pow;
    var p, q: Vector := [], [];
    for d := 0 to k
      invariant |p| == |q| == d
      invariant forall j :: 0 <= j < d ==> p[j] == ONE && q[j] == Pow(j)
    {
      var c := AlphaPow(d);
      p, q := p + [ONE], q + [c];
    }
    assert p == PRow(k) && q == QRow(k);
    tbl := [p, q];
  }

  /** P and Q, the last two, are apart from each other and from all data; data slots may share a
      buffer, as when the zero page stands in for lost disks. */
  ghost predicate Distinct(ptrs: seq<array<GF>>, bytes: nat) {
    && (forall i :: 0 <= i < |ptrs| ==> bytes <= ptrs[i].Length)
    && (forall i, j :: 0 <= i < j < |ptrs| && j >= |ptrs| - 2 ==> ptrs[i] != ptrs[j])
  }

  /** isal_gen_syndrome: writes P and Q, or nothing when the width is out of range or the table
      allocation fails. */
  method GenSyndrome(bytes: nat, ptrs: seq<array<GF>>, alloc: bool, avx512: bool) returns (done: bool)
    requires |ptrs| >= 2 && Distinct(ptrs, bytes)
    modifies ptrs[|ptrs| - 2..]
    ensures done <==> 1 <= |ptrs| - 2 <= 32 && alloc
    ensures Contents(ptrs[..|ptrs| - 2]) == old(Contents(ptrs[..|ptrs| - 2]))
    ensures AtLeast(Contents(ptrs[..|ptrs| - 2]), bytes)
    ensures done ==> forall id :: |ptrs| - 2 <= id < |ptrs| ==>
                       && Holds(ptrs[id][..], Contents(ptrs[..|ptrs| - 2]), id, bytes)
                       && ptrs[id][bytes..] == old(ptrs[id][bytes..])
    ensures !done ==> forall id :: 0 <= id < |ptrs| ==> ptrs[id][..] == old(ptrs[id][..])
  {
    hide Dot, Encoded, Holds, AllEncoded;
    var k := |ptrs| - 2;
    if k <= 0 || k > SYNDROME_MAX_K || !alloc {
      return false;
    }
    var tbl := BuildParity(k);
    var src, dests := ptrs[..k], ptrs[k..];
    ghost var before := Contents(dests);
    if avx512 {
      DotProdAvx512(bytes, tbl, src, dests);
    } else {
      DotProdAvx2(bytes, tbl, src, dests);
    }
    forall id | k <= id < k + 2
      ensures Holds(ptrs[id][..], Contents(src), id, bytes) && ptrs[id][bytes..] == old(ptrs[id][bytes..])
    {
      assert dests[id - k] == ptrs[id] && before[id - k] == old(ptrs[id][..]);
      EncodedRow(dests, before, tbl, Contents(src), bytes, id - k);
      ParityHolds(ptrs[id][..], before[id - k], Contents(src), id, bytes);
    }
    return true;
  }

  /** A region coded with a parity row is that parity. */
  lemma ParityHolds(buf: Region, before: Region, stripe: seq<Region>, id: nat, bytes: nat)
    requires AtLeast(stripe, bytes) && |stripe| <= id <= |stripe| + 1
    requires Encoded(buf, before, Parity(|stripe|)[id - |stripe|], stripe, bytes)
    ensures Holds(buf, stripe, id, bytes) && |buf| == |before| && buf[bytes..] == before[bytes..]
  {
    hide Dot;
  }

  /** The row restricted to the slots from lo up to but not including hi. */
  function Window(row: Vector, lo: nat, hi: nat): (r: Vector)
    ensures |r| == |row|
  {
    seq(|row|, j requires 0 <= j < |row| => if lo <= j < hi then row[j] else ZERO)
  }

  /** buf with the windowed sum of the stripe's slots xored in, below bytes. */
  ghost function XorFold(buf: Region, row: Vector, lo: nat, hi: nat, stripe: seq<Region>, bytes: nat): (r: Region)
    requires |row| == |stripe| && AtLeast(stripe, bytes) && bytes <= |buf|
    ensures |r| == |buf|
  {
    seq(|buf|, p requires 0 <= p < |buf| =>
      if p < bytes then Add(buf[p], Dot(Window(row, lo, hi), At(stripe, p), |row|)) else buf[p])
  }

  lemma XorFoldNone(buf: Region, row: Vector, lo: nat, stripe: seq<Region>, bytes: nat)
    requires |row| == |stripe| && AtLeast(stripe, bytes) && bytes <= |buf|
    ensures XorFold(buf, row, lo, lo, stripe, bytes) == buf
  {
    hide Add, Mul;
    forall p | 0 <= p < bytes
      ensures XorFold(buf, row, lo, lo, stripe, bytes)[p] == buf[p]
    {
      DotOnly(Window(row, lo, lo), At(stripe, p), |row|, |row|);
      AddZero(buf[p]);
    }
  }

  /** Updating with slot z extends the window by z. */
  lemma XorFoldStep(out: Region, buf: Region, row: Vector, lo: nat, z: nat, stripe: seq<Region>, bytes: nat)
    requires |row| == |stripe| && AtLeast(stripe, bytes) && bytes <= |buf| && lo <= z < |row|
    requires Updated(out, XorFold(buf, row, lo, z, stripe, bytes), row[z], stripe[z], bytes)
    ensures out == XorFold(buf, row, lo, z + 1, stripe, bytes)
  {
    hide Add, Mul;
    var w, w' := Window(row, lo, z), Window(row, lo, z + 1);
    var mid, end := XorFold(buf, row, lo, z, stripe, bytes), XorFold(buf, row, lo, z + 1, stripe, bytes);
    forall p | 0 <= p < |buf|
      ensures out[p] == end[p]
    {
      if p < bytes {
        var v := At(stripe, p);
        assert w' == w[z := row[z]];
        DotComm(w', v, |row|);
        DotComm(w, v, |row|);
        DotUpdate(v, w, z, row[z]);
        AddZero(row[z]);
        MulComm(row[z], v[z]);
        AddAssoc(buf[p], Dot(w, v, |row|), Mul(row[z], v[z]));
      } else {
        assert out[bytes..][p - bytes] == mid[bytes..][p - bytes];
      }
    }
  }

  /** P and Q hold the fold of the slots lo up to z. */
  ghost predicate Folding(dests: seq<array<GF>>, before: seq<Region>, tbl: Matrix, lo: nat, z: nat, stripe: seq<Region>, bytes: nat)
    reads dests
  {
    && |dests| == |before| == |tbl| == 2 && AtLeast(stripe, bytes)
    && forall r :: 0 <= r < 2 ==>
         && |tbl[r]| == |stripe| && bytes <= |before[r]|
         && dests[r][..] == XorFold(before[r], tbl[r], lo, z, stripe, bytes)
  }

  /** One multiply-accumulate call updates both rows. */
  method FoldSlot(bytes: nat, tbl: Matrix, lo: nat, z: nat, src: array<GF>, dests: seq<array<GF>>, avx512: bool,
                  ghost before: seq<Region>, ghost stripe: seq<Region>)
    requires Folding(dests, before, tbl, lo, z, stripe, bytes) && Targets(src, dests, bytes)
    requires lo <= z < |stripe| && stripe[z] == src[..]
    modifies dests
    ensures Folding(dests, before, tbl, lo, z + 1, stripe, bytes)
  {
    hide XorFold, Updated;
    ghost var mid := Contents(dests);
    assert mid[0] == dests[0][..] && mid[1] == dests[1][..];
    var coefs := [tbl[0][z], tbl[1][z]];
    if avx512 {
      MadAvx512(bytes, coefs, src, dests);
    } else {
      MadAvx2(bytes, coefs, src, dests);
    }
    assert Updated(dests[0][..], mid[0], coefs[0], src[..], bytes);
    assert Updated(dests[1][..], mid[1], coefs[1], src[..], bytes);
    XorFoldStep(dests[0][..], before[0], tbl[0], lo, z, stripe, bytes);
    XorFoldStep(dests[1][..], before[1], tbl[1], lo, z, stripe, bytes);
  }

  method FoldWindow(bytes: nat, tbl: Matrix, lo: nat, hi: nat, src: seq<array<GF>>, dests: seq<array<GF>>, avx512: bool)
    requires |dests| == 2 && IsMatrix(tbl, 2, |src|) && Buffers(src, dests, bytes) && lo <= hi <= |src|
    modifies dests
    ensures Contents(src) == old(Contents(src))
    ensures Folding(dests, old(Contents(dests)), tbl, lo, hi, Contents(src), bytes)
  {
    hide XorFold, Folding, Buffers, Targets;
    ghost var stripe, before := Contents(src), Contents(dests);
    SourcesApart(src, dests, bytes);
    FoldingStart(bytes, tbl, lo, stripe, dests);
    for z := lo to hi
      invariant Contents(src) == stripe
      invariant Folding(dests, before, tbl, lo, z, stripe, bytes)
    {
      FoldSlot(bytes, tbl, lo, z, src[z], dests, avx512, before, stripe);
    }
  }

  lemma SourcesApart(src: seq<array<GF>>, dests: seq<array<GF>>, bytes: nat)
    requires Buffers(src, dests, bytes)
    ensures forall j :: 0 <= j < |src| ==> src[j] !in dests && Targets(src[j], dests, bytes)
    ensures AtLeast(Contents(src), bytes) && forall r :: 0 <= r < |dests| ==> bytes <= dests[r].Length
  {}

  lemma FoldingStart(bytes: nat, tbl: Matrix, lo: nat, stripe: seq<Region>, dests: seq<array<GF>>)
    requires |dests| == 2 && IsMatrix(tbl, 2, |stripe|) && AtLeast(stripe, bytes)
    requires forall r :: 0 <= r < 2 ==> bytes <= dests[r].Length
    ensures Folding(dests, Contents(dests), tbl, lo, lo, stripe, bytes)
  {
    hide XorFold;
    XorFoldNone(dests[0][..], tbl[0], lo, stripe, bytes);
    XorFoldNone(dests[1][..], tbl[1], lo, stripe, bytes);
  }

  /** isal_xor_syndrome: folds the slots start..stop into P and Q. */
  method XorSyndrome(start: int, stop: int, bytes: nat, ptrs: seq<array<GF>>, alloc: bool, avx512: bool) returns (done: bool)
    requires |ptrs| >= 2 && Distinct(ptrs, bytes)
    modifies ptrs[|ptrs| - 2..]
    ensures done <==> 1 <= |ptrs| - 2 <= 32 && 0 <= start <= stop < |ptrs| - 2 && alloc
    ensures Contents(ptrs[..|ptrs| - 2]) == old(Contents(ptrs[..|ptrs| - 2]))
    ensures done ==> Folding(ptrs[|ptrs| - 2..], old(Contents(ptrs[|ptrs| - 2..])), Parity(|ptrs| - 2),
                             start, stop + 1, Contents(ptrs[..|ptrs| - 2]), bytes)
    ensures !done ==> forall id :: 0 <= id < |ptrs| ==> ptrs[id][..] == old(ptrs[id][..])
  {
    hide XorFold, Folding;
    var k := |ptrs| - 2;
    if k <= 0 || k > SYNDROME_MAX_K || start < 0 || stop >= k || start > stop || !alloc {
      return false;
    }
    var tbl := BuildParity(k);
    FoldWindow(bytes, tbl, start, stop + 1, ptrs[..k], ptrs[k..], avx512);
    return true;
  }

  /* ---------- read-modify-write ---------- */

  /** The stripes agree outside the window. */
  ghost predicate AgreeOutside(stripe: seq<Region>, stripe': seq<Region>, lo: nat, hi: nat) {
    |stripe| == |stripe'| && forall j :: 0 <= j < |stripe| && !(lo <= j < hi) ==> stripe[j] == stripe'[j]
  }

  /** Folding the old and then the new contents of a window turns the old sum into the new. */
  lemma FoldTwice(row: Vector, lo: nat, hi: nat, v: Vector, v': Vector)
    requires |row| == |v| == |v'|
    requires forall j :: 0 <= j < |v| && !(lo <= j < hi) ==> v[j] == v'[j]
    ensures var w := Window(row, lo, hi);
            Add(Add(Dot(row, v, |row|), Dot(w, v, |row|)), Dot(w, v', |row|)) == Dot(row, v', |row|)
  {
    hide Add, Mul;
    var n, w := |row|, Window(row, lo, hi);
    var rest := AddV(row, w);
    forall j | 0 <= j < n
      ensures Mul(rest[j], v[j]) == Mul(rest[j], v'[j]) && AddV(rest, w)[j] == row[j]
    {
      AddZero(row[j]);
      AddCancel(row[j], w[j]);
      MulZero(v[j]);
      MulZero(v'[j]);
    }
    assert AddV(rest, w) == row;
    DotProducts(rest, v, rest, v', n);
    DotAdd(row, w, v, n);
    DotAdd(rest, w, v', n);
  }

  /** One read-modify-write: fold out the old window, fold in the new. */
  ghost function Rmw(buf: Region, row: Vector, lo: nat, hi: nat, stripe: seq<Region>, stripe': seq<Region>, bytes: nat): (r: Region)
    requires |row| == |stripe| == |stripe'| && AtLeast(stripe, bytes) && AtLeast(stripe', bytes) && bytes <= |buf|
    ensures |r| == |buf|
  {
    XorFold(XorFold(buf, row, lo, hi, stripe, bytes), row, lo, hi, stripe', bytes)
  }

  lemma RmwKeepsParity(buf: Region, id: nat, lo: nat, hi: nat, stripe: seq<Region>, stripe': seq<Region>, bytes: nat)
    requires |stripe| <= id <= |stripe| + 1 && AtLeast(stripe, bytes) && AtLeast(stripe', bytes) && AgreeOutside(stripe, stripe', lo, hi)
    requires Holds(buf, stripe, id, bytes)
    ensures Holds(Rmw(buf, DiskRow(|stripe|, id), lo, hi, stripe, stripe', bytes), stripe', id, bytes)
  {
    hide Add, Dot;
    var row := DiskRow(|stripe|, id);
    forall p | 0 <= p < bytes
      ensures Rmw(buf, row, lo, hi, stripe, stripe', bytes)[p] == DiskByte(stripe', id, p)
    {
      FoldTwice(row, lo, hi, At(stripe, p), At(stripe', p));
    }
  }

  /** New contents for the first bytes of a buffer. */
  method Drain(buf: array<GF>, bytes: nat, data: Region)
    requires bytes <= buf.Length && bytes <= |data|
    modifies buf
    ensures buf[..] == data[..bytes] + old(buf[..])[bytes..]
  {
    for p := 0 to bytes
      invariant buf[..p] == data[..p] && buf[bytes..] == old(buf[..])[bytes..]
    {
      buf[p] := data[p];
    }
    assert buf[..] == buf[..bytes] + buf[bytes..];
  }

  /** The slots of the window, and P and Q, share no buffer with any other slot. */
  ghost predicate WindowApart(ptrs: seq<array<GF>>, lo: nat, hi: nat) {
    forall i, j :: 0 <= i < |ptrs| && lo <= j < hi && j < |ptrs| && i != j ==> ptrs[i] != ptrs[j]
  }

  /** The new data goes into the slots of the window. */
  method DrainWindow(lo: nat, bytes: nat, ptrs: seq<array<GF>>, news: seq<Region>)
    requires lo + |news| <= |ptrs| && WindowApart(ptrs, lo, lo + |news|) && AtLeast(news, bytes)
    requires forall i :: 0 <= i < |ptrs| ==> bytes <= ptrs[i].Length
    modifies ptrs[lo..lo + |news|]
    ensures forall j :: lo <= j < lo + |news| ==> ptrs[j][..] == news[j - lo][..bytes] + old(ptrs[j][..])[bytes..]
    ensures forall j :: 0 <= j < |ptrs| && !(lo <= j < lo + |news|) ==> ptrs[j][..] == old(ptrs[j][..])
  {
    for z := lo to lo + |news|
      invariant forall j :: lo <= j < z ==> ptrs[j][..] == news[j - lo][..bytes] + old(ptrs[j][..])[bytes..]
      invariant forall j :: 0 <= j < |ptrs| && !(lo <= j < z) ==> ptrs[j][..] == old(ptrs[j][..])
    {
      assert ptrs[lo..lo + |news|][z - lo] == ptrs[z];
      Drain(ptrs[z], bytes, news[z - lo]);
    }
  }

  /** P and Q hold the syndromes of the data in front of them. */
  ghost predicate InParity(ptrs: seq<array<GF>>, bytes: nat)
    requires |ptrs| >= 2
    reads ptrs
  {
    var stripe := Contents(ptrs[..|ptrs| - 2]);
    AtLeast(stripe, bytes) && forall id :: |stripe| <= id < |ptrs| ==> Holds(ptrs[id][..], stripe, id, bytes)
  }

  /** The window holds its new data, below bytes, and the other data slots what they held. */
  ghost predicate Replaced(stripe: seq<Region>, stripe': seq<Region>, lo: nat, news: seq<Region>, bytes: nat) {
    && |stripe| == |stripe'| && lo + |news| <= |stripe| && AtLeast(stripe, bytes) && AtLeast(news, bytes)
    && forall j :: 0 <= j < |stripe| ==>
         stripe'[j] == if lo <= j < lo + |news| then news[j - lo][..bytes] + stripe[j][bytes..] else stripe[j]
  }

  method ReplaceWindow(lo: nat, bytes: nat, ptrs: seq<array<GF>>, news: seq<Region>)
    requires lo + |news| <= |ptrs| - 2 && Distinct(ptrs, bytes) && WindowApart(ptrs, lo, lo + |news|) && AtLeast(news, bytes)
    modifies ptrs[lo..lo + |news|]
    ensures Contents(ptrs[|ptrs| - 2..]) == old(Contents(ptrs[|ptrs| - 2..]))
    ensures Replaced(old(Contents(ptrs[..|ptrs| - 2])), Contents(ptrs[..|ptrs| - 2]), lo, news, bytes)
  {
    hide Contents, Replaced, Distinct;
    ghost var k := |ptrs| - 2;
    ghost var stripe, pq := Contents(ptrs[..k]), Contents(ptrs[k..]);
    ContentsAre(ptrs, k);
    assert forall i :: 0 <= i < |ptrs| ==> bytes <= ptrs[i].Length by { DistinctLong(ptrs, bytes); }
    DrainWindow(lo, bytes, ptrs, news);
    ContentsAre(ptrs, k);
    assert Contents(ptrs[k..]) == pq;
    ReplacedIs(stripe, Contents(ptrs[..k]), lo, news, bytes);
  }

  lemma ContentsAre(ptrs: seq<array<GF>>, k: nat)
    requires k <= |ptrs|
    ensures |Contents(ptrs[..k])| == k && |Contents(ptrs[k..])| == |ptrs| - k
    ensures forall j :: 0 <= j < k ==> Contents(ptrs[..k])[j] == ptrs[j][..]
    ensures forall j :: k <= j < |ptrs| ==> Contents(ptrs[k..])[j - k] == ptrs[j][..]
  {}

  lemma DistinctLong(ptrs: seq<array<GF>>, bytes: nat)
    requires Distinct(ptrs, bytes)
    ensures forall i :: 0 <= i < |ptrs| ==> bytes <= ptrs[i].Length
  {}

  lemma ReplacedIs(stripe: seq<Region>, stripe': seq<Region>, lo: nat, news: seq<Region>, bytes: nat)
    requires |stripe| == |stripe'| && lo + |news| <= |stripe| && AtLeast(stripe, bytes) && AtLeast(news, bytes)
    requires forall j :: lo <= j < lo + |news| ==> stripe'[j] == news[j - lo][..bytes] + stripe[j][bytes..]
    requires forall j :: 0 <= j < |stripe| && !(lo <= j < lo + |news|) ==> stripe'[j] == stripe[j]
    ensures Replaced(stripe, stripe', lo, news, bytes)
  {}

  /** What the parity lacks if a fold was skipped: the old window, the new one, or both. */
  function Missing(row: Vector, lo: nat, hi: nat, v: Vector, v': Vector, out: bool, back: bool): (x: GF)
    requires |row| == |v| == |v'|
  {
    var w := Window(row, lo, hi);
    Add(if out then ZERO else Dot(w, v, |row|), if back then ZERO else Dot(w, v', |row|))
  }

  ghost predicate NothingMissing(stripe: seq<Region>, stripe': seq<Region>, lo: nat, hi: nat, bytes: nat, out: bool, back: bool)
    requires |stripe| == |stripe'| && AtLeast(stripe, bytes) && AtLeast(stripe', bytes)
  {
    forall id, p :: |stripe| <= id <= |stripe| + 1 && 0 <= p < bytes ==>
      Missing(DiskRow(|stripe|, id), lo, hi, At(stripe, p), At(stripe', p), out, back) == ZERO
  }

  /** A partial-stripe write: the old window is folded out, the new data put in its place, and
      the new window folded in. If both calls do their work parity is kept without reading any
      other disk; either call may silently do nothing, and then it is kept exactly when what
      was not folded happens to cancel. */
  method RmwStripe(start: nat, bytes: nat, ptrs: seq<array<GF>>, news: seq<Region>, alloc0: bool, alloc1: bool, avx512: bool)
    returns (out: bool, back: bool)
    requires |news| > 0 && start + |news| <= |ptrs| - 2 && Distinct(ptrs, bytes) && WindowApart(ptrs, start, start + |news|)
    requires AtLeast(news, bytes) && InParity(ptrs, bytes)
    modifies ptrs[start..start + |news|], ptrs[|ptrs| - 2..]
    ensures (out <==> |ptrs| - 2 <= 32 && alloc0) && (back <==> |ptrs| - 2 <= 32 && alloc1)
    ensures var stripe, stripe' := old(Contents(ptrs[..|ptrs| - 2])), Contents(ptrs[..|ptrs| - 2]);
            && Replaced(stripe, stripe', start, news, bytes) && AtLeast(stripe', bytes)
            && (InParity(ptrs, bytes) <==> NothingMissing(stripe, stripe', start, start + |news|, bytes, out, back))
    ensures out && back ==> InParity(ptrs, bytes)
  {
    hide Holds, Distinct, WindowApart, Contents, InParity, Replaced, NothingMissing, FoldedRows, AtLeast;
    var k := |ptrs| - 2;
    ghost var stripe, before := Contents(ptrs[..k]), Contents(ptrs[k..]);
    ParityHeld(ptrs, bytes);
    out := FoldIn(start, start + |news|, bytes, ptrs, alloc0, avx512);
    ghost var mid := Contents(ptrs[k..]);
    ReplaceWindow(start, bytes, ptrs, news);
    ghost var stripe' := Contents(ptrs[..k]);
    ReplacedAgrees(stripe, stripe', start, news, bytes);
    back := FoldIn(start, start + |news|, bytes, ptrs, alloc1, avx512);
    RmwIff(ptrs, before, mid, start, start + |news|, stripe, stripe', bytes, out, back);
  }

  /** One call of the routine on a proper window. */
  method FoldIn(lo: nat, hi: nat, bytes: nat, ptrs: seq<array<GF>>, alloc: bool, avx512: bool) returns (done: bool)
    requires lo < hi <= |ptrs| - 2 && Distinct(ptrs, bytes)
    modifies ptrs[|ptrs| - 2..]
    ensures done <==> |ptrs| - 2 <= 32 && alloc
    ensures Contents(ptrs[..|ptrs| - 2]) == old(Contents(ptrs[..|ptrs| - 2]))
    ensures FoldedRows(old(Contents(ptrs[|ptrs| - 2..])), Contents(ptrs[|ptrs| - 2..]), lo, hi, Contents(ptrs[..|ptrs| - 2]), bytes, done)
  {
    hide XorFold, Folding;
    var k := |ptrs| - 2;
    ghost var before := Contents(ptrs[k..]);
    done := XorSyndrome(lo, hi - 1, bytes, ptrs, alloc, avx512);
    FoldedIf(ptrs[k..], before, lo, hi, Contents(ptrs[..k]), bytes, done);
  }

  lemma ParityHeld(ptrs: seq<array<GF>>, bytes: nat)
    requires |ptrs| >= 2 && InParity(ptrs, bytes)
    ensures var k := |ptrs| - 2;
            var stripe, pq := Contents(ptrs[..k]), Contents(ptrs[k..]);
            |stripe| == k && AtLeast(stripe, bytes) && |pq| == 2 && forall r :: 0 <= r < 2 ==> Holds(pq[r], stripe, k + r, bytes) && bytes <= |pq[r]|
  {
    var k := |ptrs| - 2;
    assert forall r :: 0 <= r < 2 ==> Contents(ptrs[k..])[r] == ptrs[k + r][..];
  }

  /** The fold, if it was done. */
  ghost function FoldIf(done: bool, buf: Region, row: Vector, lo: nat, hi: nat, stripe: seq<Region>, bytes: nat): (r: Region)
    requires |row| == |stripe| && AtLeast(stripe, bytes) && bytes <= |buf|
    ensures |r| == |buf|
    ensures forall p :: 0 <= p < bytes ==> r[p] == Add(buf[p], if done then Dot(Window(row, lo, hi), At(stripe, p), |row|) else ZERO)
  {
    assert forall p :: 0 <= p < bytes ==> Add(buf[p], ZERO) == buf[p] by {
      forall p | 0 <= p < bytes
        ensures Add(buf[p], ZERO) == buf[p]
      {
        AddZero(buf[p]);
      }
    }
    if done then XorFold(buf, row, lo, hi, stripe, bytes) else buf
  }

  ghost predicate FoldedRows(before: seq<Region>, after: seq<Region>, lo: nat, hi: nat, stripe: seq<Region>, bytes: nat, done: bool) {
    && |before| == |after| == 2 && AtLeast(stripe, bytes)
    && forall r :: 0 <= r < 2 ==>
         bytes <= |before[r]| && after[r] == FoldIf(done, before[r], Parity(|stripe|)[r], lo, hi, stripe, bytes)
  }

  lemma FoldedIf(dests: seq<array<GF>>, before: seq<Region>, lo: nat, hi: nat, stripe: seq<Region>, bytes: nat, done: bool)
    requires |dests| == |before| == 2 && AtLeast(stripe, bytes) && forall r :: 0 <= r < 2 ==> bytes <= |before[r]|
    requires done ==> Folding(dests, before, Parity(|stripe|), lo, hi, stripe, bytes)
    requires !done ==> forall r :: 0 <= r < 2 ==> dests[r][..] == before[r]
    ensures FoldedRows(before, Contents(dests), lo, hi, stripe, bytes, done)
  {
    hide XorFold;
  }

  lemma ReplacedAgrees(stripe: seq<Region>, stripe': seq<Region>, lo: nat, news: seq<Region>, bytes: nat)
    requires Replaced(stripe, stripe', lo, news, bytes)
    ensures AgreeOutside(stripe, stripe', lo, lo + |news|) && AtLeast(stripe', bytes)
  {}

  /** With the two folds done or not, the byte is the new parity exactly when nothing is missing. */
  lemma MissingIff(row: Vector, lo: nat, hi: nat, v: Vector, v': Vector, out: bool, back: bool)
    requires |row| == |v| == |v'| && forall j :: 0 <= j < |v| && !(lo <= j < hi) ==> v[j] == v'[j]
    ensures var w := Window(row, lo, hi);
            Add(Add(Dot(row, v, |row|), if out then Dot(w, v, |row|) else ZERO), if back then Dot(w, v', |row|) else ZERO) == Dot(row, v', |row|)
            <==> Missing(row, lo, hi, v, v', out, back) == ZERO
  {
    hide Add, Dot, Window;
    FoldTwice(row, lo, hi, v, v');
    var w := Window(row, lo, hi);
    MissingSum(Dot(row, v, |row|), Dot(w, v, |row|), Dot(w, v', |row|), out, back);
  }

  lemma MissingSum(p: GF, x: GF, y: GF, out: bool, back: bool)
    ensures Add(Add(p, if out then x else ZERO), if back then y else ZERO) == Add(Add(p, x), y)
            <==> Add(if out then ZERO else x, if back then ZERO else y) == ZERO
  {
    hide Add;
    var x', y' := if out then x else ZERO, if back then y else ZERO;
    AddAssoc(p, x', y');
    AddAssoc(p, x, y);
    AddComm(p, Add(x', y'));
    AddComm(p, Add(x, y));
    AddCancel(Add(x', y'), p);
    AddCancel(Add(x, y), p);
    AddZero(x);
    AddZero(y);
    AddZero(Add(x, y));
    AddZero(ZERO);
    AddIsZero(x, y);
    AddCancel(x, y);
    AddComm(x, y);
    AddCancel(y, x);
  }

  lemma RowIff(buf: Region, buf': Region, buf'': Region, id: nat, lo: nat, hi: nat, stripe: seq<Region>, stripe': seq<Region>, bytes: nat,
               out: bool, back: bool)
    requires |stripe| <= id <= |stripe| + 1 && AtLeast(stripe, bytes) && AtLeast(stripe', bytes) && AgreeOutside(stripe, stripe', lo, hi)
    requires Holds(buf, stripe, id, bytes) && buf' == FoldIf(out, buf, DiskRow(|stripe|, id), lo, hi, stripe, bytes)
    requires buf'' == FoldIf(back, buf', DiskRow(|stripe|, id), lo, hi, stripe', bytes)
    ensures Holds(buf'', stripe', id, bytes) <==>
            forall p :: 0 <= p < bytes ==> Missing(DiskRow(|stripe|, id), lo, hi, At(stripe, p), At(stripe', p), out, back) == ZERO
  {
    hide Add, Dot, FoldIf, Window, Missing;
    forall p | 0 <= p < bytes
      ensures buf''[p] == DiskByte(stripe', id, p) <==>
              Missing(DiskRow(|stripe|, id), lo, hi, At(stripe, p), At(stripe', p), out, back) == ZERO
    {
      MissingIff(DiskRow(|stripe|, id), lo, hi, At(stripe, p), At(stripe', p), out, back);
    }
  }

  lemma RmwIff(ptrs: seq<array<GF>>, before: seq<Region>, mid: seq<Region>, lo: nat, hi: nat, stripe: seq<Region>, stripe': seq<Region>, bytes: nat,
               out: bool, back: bool)
    requires |ptrs| >= 2 && |stripe| == |ptrs| - 2 && stripe' == Contents(ptrs[..|ptrs| - 2]) && AgreeOutside(stripe, stripe', lo, hi)
    requires FoldedRows(before, mid, lo, hi, stripe, bytes, out)
    requires FoldedRows(mid, Contents(ptrs[|ptrs| - 2..]), lo, hi, stripe', bytes, back)
    requires forall r :: 0 <= r < 2 ==> Holds(before[r], stripe, |stripe| + r, bytes)
    ensures AtLeast(stripe, bytes) && AtLeast(stripe', bytes)
    ensures InParity(ptrs, bytes) <==> NothingMissing(stripe, stripe', lo, hi, bytes, out, back)
    ensures out && back ==> InParity(ptrs, bytes)
  {
    hide FoldIf, Holds, Missing;
    var k := |stripe|;
    DiskRows(k, 0);
    forall id | k <= id < k + 2
      ensures Holds(ptrs[id][..], stripe', id, bytes) <==>
              forall p :: 0 <= p < bytes ==> Missing(DiskRow(k, id), lo, hi, At(stripe, p), At(stripe', p), out, back) == ZERO
    {
      assert Contents(ptrs[k..])[id - k] == ptrs[id][..];
      RowIff(before[id - k], mid[id - k], ptrs[id][..], id, lo, hi, stripe, stripe', bytes, out, back);
    }
    if out && back {
      forall id, p | k <= id < k + 2 && 0 <= p < bytes
        ensures Missing(DiskRow(k, id), lo, hi, At(stripe, p), At(stripe', p), out, back) == ZERO
      {
        MissingNone(DiskRow(k, id), lo, hi, At(stripe, p), At(stripe', p));
      }
    }
  }

  lemma MissingNone(row: Vector, lo: nat, hi: nat, v: Vector, v': Vector)
    requires |row| == |v| == |v'|
    ensures Missing(row, lo, hi, v, v', true, true) == ZERO
  {
    AddZero(ZERO);
  }

  /** A write that replaces the stripe by one that agrees outside the window lo up to hi. */
  datatype Write = Write(lo: nat, hi: nat, stripe: seq<Region>)

  ghost predicate LegalWrites(stripe: seq<Region>, ws: seq<Write>, bytes: nat)
    decreases |ws|
  {
    ws == [] ||
    (AtLeast(ws[0].stripe, bytes) && AgreeOutside(stripe, ws[0].stripe, ws[0].lo, ws[0].hi) && LegalWrites(ws[0].stripe, ws[1..], bytes))
  }

  ghost function RunWrites(buf: Region, id: nat, stripe: seq<Region>, ws: seq<Write>, bytes: nat): (r: (Region, seq<Region>))
    requires AtLeast(stripe, bytes) && bytes <= |buf| && LegalWrites(stripe, ws, bytes)
    decreases |ws|
  {
    if ws == [] then (buf, stripe)
    else RunWrites(Rmw(buf, DiskRow(|stripe|, id), ws[0].lo, ws[0].hi, stripe, ws[0].stripe, bytes), id, ws[0].stripe, ws[1..], bytes)
  }

  /** After any run of read-modify-writes P and Q are the syndromes of the current stripe. */
  lemma {:induction false} RunKeepsParity(buf: Region, id: nat, stripe: seq<Region>, ws: seq<Write>, bytes: nat)
    requires |stripe| <= id <= |stripe| + 1 && AtLeast(stripe, bytes) && LegalWrites(stripe, ws, bytes)
    requires Holds(buf, stripe, id, bytes)
    ensures var (r, now) := RunWrites(buf, id, stripe, ws, bytes);
            AtLeast(now, bytes) && Holds(r, now, id, bytes)
    decreases |ws|
  {
    assert bytes <= |buf|;
    hide Rmw, Holds;
    if ws != [] {
      RmwKeepsParity(buf, id, ws[0].lo, ws[0].hi, stripe, ws[0].stripe, bytes);
      RunKeepsParity(Rmw(buf, DiskRow(|stripe|, id), ws[0].lo, ws[0].hi, stripe, ws[0].stripe, bytes),
                     id, ws[0].stripe, ws[1..], bytes);
    }
  }
}
