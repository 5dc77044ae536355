/** The hand-over from the decoder of isa-l/raid6_isal.c to the in-tree recovery of
    raid6/recov.c, which calls the installed syndrome routine in its turn. */
module Raid6Fallback {
  import opened Galois
  import opened LinearAlgebra
  import opened ErasureCode
  import opened Raid6

  /* ---------- solving for two bytes ---------- */

  lemma SumSplit(ga: GF, gb: GF, x: GF, y: GF)
    ensures Add(Mul(ga, x), Mul(gb, y)) == Add(Mul(ga, Add(x, y)), Mul(Add(ga, gb), y))
  {
    hide Add, Mul;
    MulAddRight(ga, x, y);
    MulAddLeft(ga, gb, y);
    AddAssoc(Mul(ga, x), Mul(ga, y), Add(Mul(ga, y), Mul(gb, y)));
    AddAssoc(Mul(ga, y), Mul(ga, y), Mul(gb, y));
    AddZero(Mul(ga, y));
    AddZero(Mul(gb, y));
  }

  /** The P multiplier is the Q multiplier times the coefficient of disk a. */
  lemma Multipliers(ga: GF, w: GF, c: GF, m: GF)
    requires Undoes(c, w) && Undoes(m, Mul(ga, w))
    ensures c == Mul(m, ga)
  {
    hide Mul;
    MulOne(w);
    assert Mul(c, Mul(w, ONE)) == ONE;
    MulComm(c, w);
    MulAssoc(ga, w, c);
    MulOne(ga);
    assert Mul(m, Mul(Mul(ga, w), c)) == c;
  }

  /** x and y are off by what e and f are off, each times a multiplier. */
  lemma Solve(ga: GF, gb: GF, c: GF, m: GF, x: GF, y: GF, e: GF, f: GF)
    requires Undoes(m, Add(ga, gb)) && c == Mul(m, ga)
    ensures Add(Mul(c, Add(Add(x, y), e)), Mul(m, Add(Add(Mul(ga, x), Mul(gb, y)), f))) == Add(y, Add(Mul(c, e), Mul(m, f)))
  {
    hide Add, Mul;
    var s, t := Add(ga, gb), Add(x, y);
    SumSplit(ga, gb, x, y);
    MulAddRight(m, Add(Mul(ga, t), Mul(s, y)), f);
    MulAddRight(m, Mul(ga, t), Mul(s, y));
    MulAssoc(m, ga, t);
    assert Mul(m, Mul(s, y)) == y;
    MulAddRight(c, t, e);
    CancelCommon(Mul(c, t), Mul(c, e), y, Mul(m, f));
  }

  lemma CancelCommon(t: GF, u: GF, y: GF, v: GF)
    ensures Add(Add(t, u), Add(Add(t, y), v)) == Add(y, Add(u, v))
  {
    hide Add;
    AddAssoc(t, y, v);
    AddSwap(t, u, t, Add(y, v));
    AddZero(t);
    AddZero(Add(u, Add(y, v)));
    AddAssoc(u, y, v);
    AddComm(u, y);
    AddAssoc(y, u, v);
  }

  /** What raid6_2data_recov_intx1 computes of one byte: disk b, then disk a. */
  function ByteB(c: GF, m: GF, p: GF, q: GF, dp: GF, dq: GF): (r: GF) { Add(Mul(c, Add(p, dp)), Mul(m, Add(q, dq))) }

  function ByteA(c: GF, m: GF, p: GF, q: GF, dp: GF, dq: GF): (r: GF) { Add(ByteB(c, m, p, q, dp, dq), Add(p, dp)) }

  /** With P = dp0 + x + y and Q = dq0 + ga x + gb y, the two bytes come out right exactly when
      the partial syndromes used are dp0 and dq0. */
  lemma BytesIff(ga: GF, gb: GF, c: GF, m: GF, x: GF, y: GF, dp0: GF, dq0: GF, dp: GF, dq: GF)
    requires Undoes(m, Add(ga, gb)) && c == Mul(m, ga)
    ensures var p, q := Add(dp0, Add(x, y)), Add(dq0, Add(Mul(ga, x), Mul(gb, y)));
            ByteB(c, m, p, q, dp, dq) == y && ByteA(c, m, p, q, dp, dq) == x <==> dp == dp0 && dq == dq0
  {
    hide Add, Mul, Undoes;
    var e, f := Add(dp0, dp), Add(dq0, dq);
    Regroup(dp0, Add(x, y), dp);
    Regroup(dq0, Add(Mul(ga, x), Mul(gb, y)), dq);
    Solve(ga, gb, c, m, x, y, e, f);
    AddIsZero(dp0, dp);
    AddIsZero(dq0, dq);
    OffBy(x, y, e, Add(Mul(c, e), Mul(m, f)));
    MulZero(c);
    MulZero(m);
    AddZero(Mul(m, f));
    UndoerKeeps(m, Add(ga, gb), f);
  }

  lemma UndoerKeeps(m: GF, s: GF, f: GF)
    requires Undoes(m, s)
    ensures Mul(m, f) == ZERO <==> f == ZERO
  {
    hide Mul;
    MulIsZero(m, f);
    UndoesNonzero(m, s);
  }

  lemma Regroup(a: GF, t: GF, b: GF)
    ensures Add(Add(a, t), b) == Add(t, Add(a, b))
  {
    hide Add;
    AddComm(a, t);
    AddAssoc(t, a, b);
  }

  /** Both bytes are right exactly when neither is off. */
  lemma OffBy(x: GF, y: GF, e: GF, z: GF)
    ensures Add(y, z) == y && Add(Add(y, z), Add(Add(x, y), e)) == x <==> z == ZERO && e == ZERO
  {
    hide Add;
    AddZero(y);
    AddComm(y, z);
    AddCancel(z, y);
    AddZero(z);
    AddZero(x);
    AddComm(x, y);
    AddAssoc(y, x, e);
    AddAssoc(y, y, Add(x, e));
    AddZero(Add(x, e));
    AddComm(x, e);
    AddCancel(e, x);
    AddZero(e);
  }

  /* ---------- the partial syndromes ---------- */

  /** Byte i of P (id k) or Q (id k + 1) of the stripe with disks a and b zero. */
  ghost function Partial(stripe: seq<Region>, a: nat, b: nat, id: nat, i: nat): (x: GF)
    requires a < |stripe| && b < |stripe| && AtLeast(stripe, i + 1)
  {
    Dot(DiskRow(|stripe|, id), At(stripe, i)[a := ZERO][b := ZERO], |stripe|)
  }

  lemma DotWithout(row: Vector, v: Vector, a: nat, b: nat)
    requires |row| == |v| && a < |v| && b < |v| && a != b
    ensures Dot(row, v, |v|) == Add(Dot(row, v[a := ZERO][b := ZERO], |v|), Add(Mul(row[a], v[a]), Mul(row[b], v[b])))
  {
    hide Add, Mul, Dot;
    DotUpdate(row, v, a, ZERO);
    DotUpdate(row, v[a := ZERO], b, ZERO);
    AddZero(v[a]);
    AddZero(v[b]);
    var x, y := Mul(row[a], v[a]), Mul(row[b], v[b]);
    AddAssoc(Dot(row, v, |v|), x, y);
    AddCancel(Dot(row, v, |v|), Add(x, y));
  }

  lemma RowsAt2(k: nat, j: nat)
    requires j < k
    ensures DiskRow(k, k)[j] == ONE && DiskRow(k, k + 1)[j] == Pow(j)
  {}

  /** Pow is injective below 255. */
  lemma PowsApart(a: nat, b: nat)
    requires a < b < 255
    ensures Pow(b - a) != ONE && Mul(Pow(a), Pow(b - a)) == Pow(b)
  {
    hide Mul, Double;
    PowAdd(a, b - a);
    PowPeriod(b - a, 0);
  }

  lemma {:induction false} PowNonzero(e: nat)
    ensures Pow(e) != ZERO
  {
    if e > 0 { PowNonzero(e - 1); DoubleHalf(Pow(e - 1)); DoubleHalf(ZERO); }
  }

  /** The multipliers of the source: raid6_gfexi[b - a] and raid6_gfinv[2^a xor 2^b]. */
  function PMul(a: nat, b: nat): (c: GF)
    requires a < b
  {
    TableInv(Add(Pow(b - a), ONE))
  }

  function QMul(a: nat, b: nat): (m: GF) { TableInv(Add(Pow(a), Pow(b))) }

  /** One byte of the stripe comes out right exactly when the partial syndromes are. */
  lemma TwoBytesIff(stripe: seq<Region>, a: nat, b: nat, i: nat, dp: GF, dq: GF)
    requires a < b < |stripe| <= 255 && AtLeast(stripe, i + 1)
    ensures var k := |stripe|;
            var p, q := DiskByte(stripe, k, i), DiskByte(stripe, k + 1, i);
            ByteB(PMul(a, b), QMul(a, b), p, q, dp, dq) == stripe[b][i] && ByteA(PMul(a, b), QMul(a, b), p, q, dp, dq) == stripe[a][i]
            <==> dp == Partial(stripe, a, b, k, i) && dq == Partial(stripe, a, b, k + 1, i)
  {
    hide Add, Mul, Inv, Dot, DiskRow, Pow, TableInv, ByteA, ByteB, DiskByte;
    var k, v := |stripe|, At(stripe, i);
    PowsApart(a, b);
    PowPeriod(a, b);
    RowsAt2(k, a);
    RowsAt2(k, b);
    OneMul(v[a]);
    OneMul(v[b]);
    DotWithout(DiskRow(k, k), v, a, b);
    DotWithout(DiskRow(k, k + 1), v, a, b);
    DiskByteIsDot(stripe, k, i);
    DiskByteIsDot(stripe, k + 1, i);
    AddIsZero(Pow(b - a), ONE);
    AddIsZero(Pow(a), Pow(b));
    var w, s := Add(Pow(b - a), ONE), Add(Pow(a), Pow(b));
    forall z { OneMul(z); }
    UnitUndoes(PMul(a, b), w);
    UnitUndoes(QMul(a, b), s);
    assert s == Mul(Pow(a), w) by {
      MulAddRight(Pow(a), Pow(b - a), ONE);
      MulOne(Pow(a));
      AddComm(Pow(b), Pow(a));
    }
    Multipliers(Pow(a), w, PMul(a, b), QMul(a, b));
    BytesIff(Pow(a), Pow(b), PMul(a, b), QMul(a, b), v[a], v[b], Partial(stripe, a, b, k, i), Partial(stripe, a, b, k + 1, i), dp, dq);
  }

  /** The two buffers hold, below bytes, the partial syndromes of what survives. */
  ghost predicate HoldPartial(dp: Region, dq: Region, stripe: seq<Region>, a: nat, b: nat, bytes: nat)
    requires a < |stripe| && b < |stripe| && AtLeast(stripe, bytes)
  {
    && bytes <= |dp| && bytes <= |dq|
    && forall i :: 0 <= i < bytes ==> dp[i] == Partial(stripe, a, b, |stripe|, i) && dq[i] == Partial(stripe, a, b, |stripe| + 1, i)
  }

  /* ---------- raid6_2data_recov_intx1 ---------- */

  ghost predicate Zeros(zero: array<GF>, bytes: nat)
    reads zero
  {
    bytes <= zero.Length && forall i :: 0 <= i < bytes ==> zero[i] == ZERO
  }

  /** The stripe as the syndrome routine sees it: zero in the lost slots. */
  ghost predicate SeenWithout(seen: seq<Region>, stripe: seq<Region>, a: nat, b: nat, bytes: nat) {
    && |seen| == |stripe| && a < |stripe| && b < |stripe| && AtLeast(seen, bytes) && AtLeast(stripe, bytes)
    && forall j, i :: 0 <= j < |stripe| && 0 <= i < bytes ==> seen[j][i] == if j == a || j == b then ZERO else stripe[j][i]
  }

  lemma SeenPartial(seen: seq<Region>, stripe: seq<Region>, a: nat, b: nat, bytes: nat, id: nat, i: nat)
    requires SeenWithout(seen, stripe, a, b, bytes) && i < bytes
    ensures DiskByte(seen, id, i) == Partial(stripe, a, b, id, i)
  {
    hide Dot;
    DiskByteIsDot(seen, id, i);
    assert At(seen, i) == At(stripe, i)[a := ZERO][b := ZERO];
  }

  lemma SlotsSeen(slots: seq<array<GF>>, stripe: seq<Region>, a: nat, b: nat, bytes: nat)
    requires |slots| == |stripe| && a < |stripe| && b < |stripe| && AtLeast(stripe, bytes)
    requires forall j :: 0 <= j < |slots| ==>
               if j == a || j == b then Zeros(slots[j], bytes) else Holds(slots[j][..], stripe, j, bytes)
    ensures SeenWithout(Contents(slots), stripe, a, b, bytes)
  {
    hide Dot;
  }

  /** What the syndrome routine leaves in the two slots. */
  lemma PartialHeld(dp: Region, dq: Region, seen: seq<Region>, stripe: seq<Region>, a: nat, b: nat, bytes: nat)
    requires SeenWithout(seen, stripe, a, b, bytes)
    requires Holds(dp, seen, |seen|, bytes) && Holds(dq, seen, |seen| + 1, bytes)
    ensures HoldPartial(dp, dq, stripe, a, b, bytes)
  {
    hide DiskByte, Partial;
    forall i | 0 <= i < bytes
      ensures dp[i] == Partial(stripe, a, b, |stripe|, i) && dq[i] == Partial(stripe, a, b, |stripe| + 1, i)
    {
      SeenPartial(seen, stripe, a, b, bytes, |stripe|, i);
      SeenPartial(seen, stripe, a, b, bytes, |stripe| + 1, i);
    }
  }

  /** The dead pages receive the partial syndromes, if the syndrome routine does its work. */
  method GenPartial(a: nat, b: nat, bytes: nat, ptrs: seq<array<GF>>, zero: array<GF>, alloc: bool, avx512: bool, ghost stripe: seq<Region>)
    returns (done: bool)
    requires Degraded(ptrs, stripe, TwoData, a, b, bytes) && zero !in ptrs && Zeros(zero, bytes)
    modifies ptrs[a], ptrs[b]
    ensures done <==> |stripe| <= 32 && alloc
    ensures done ==> HoldPartial(ptrs[a][..], ptrs[b][..], stripe, a, b, bytes)
    ensures done ==> ptrs[a][bytes..] == old(ptrs[a][bytes..]) && ptrs[b][bytes..] == old(ptrs[b][bytes..])
    ensures !done ==> ptrs[a][..] == old(ptrs[a][..]) && ptrs[b][..] == old(ptrs[b][..])
  {
    hide Holds, HoldPartial, SeenWithout;
    var k := |ptrs| - 2;
    var slots := ptrs[a := zero][b := zero][k := ptrs[a]][k + 1 := ptrs[b]];
    assert slots[k..] == [ptrs[a], ptrs[b]];
    ghost var seen := Contents(slots[..k]);
    SlotsSeen(slots[..k], stripe, a, b, bytes);
    done := GenSyndrome(bytes, slots, alloc, avx512);
    assert slots[k] == ptrs[a] && slots[k + 1] == ptrs[b];
    if done { PartialHeld(ptrs[a][..], ptrs[b][..], seen, stripe, a, b, bytes); }
  }

  /** The byte loop. */
  method FixTwo(a: nat, b: nat, bytes: nat, p: array<GF>, q: array<GF>, dp: array<GF>, dq: array<GF>)
    requires a < b && dp != dq && p != dp && p != dq && q != dp && q != dq
    requires bytes <= p.Length && bytes <= q.Length && bytes <= dp.Length && bytes <= dq.Length
    modifies dp, dq
    ensures forall i :: 0 <= i < bytes ==>
              && dq[i] == ByteB(PMul(a, b), QMul(a, b), p[i], q[i], old(dp[i]), old(dq[i]))
              && dp[i] == ByteA(PMul(a, b), QMul(a, b), p[i], q[i], old(dp[i]), old(dq[i]))
    ensures dp[bytes..] == old(dp[bytes..]) && dq[bytes..] == old(dq[bytes..])
  {
    hide Add, Mul, PMul, QMul;
    var c, m := PMul(a, b), QMul(a, b);
    for i := 0 to bytes
      invariant forall j :: 0 <= j < i ==>
                  && dq[j] == ByteB(c, m, p[j], q[j], old(dp[j]), old(dq[j]))
                  && dp[j] == ByteA(c, m, p[j], q[j], old(dp[j]), old(dq[j]))
      invariant forall j :: i <= j < dp.Length ==> dp[j] == old(dp[j])
      invariant forall j :: i <= j < dq.Length ==> dq[j] == old(dq[j])
    {
      var px := Add(p[i], dp[i]);
      var qx := Mul(m, Add(q[i], dq[i]));
      var db := Add(Mul(c, px), qx);
      dq[i] := db;
      dp[i] := Add(db, px);
    }
  }

  /** Both lost disks come out right exactly when the partial syndromes were. */
  lemma FixedIff(stripe: seq<Region>, a: nat, b: nat, bytes: nat, p: Region, q: Region, dp: Region, dq: Region, dp': Region, dq': Region)
    requires a < b < |stripe| <= 255 && AtLeast(stripe, bytes)
    requires Holds(p, stripe, |stripe|, bytes) && Holds(q, stripe, |stripe| + 1, bytes)
    requires bytes <= |dp| && bytes <= |dq| && bytes <= |dp'| && bytes <= |dq'|
    requires forall i :: 0 <= i < bytes ==>
               && dq'[i] == ByteB(PMul(a, b), QMul(a, b), p[i], q[i], dp[i], dq[i])
               && dp'[i] == ByteA(PMul(a, b), QMul(a, b), p[i], q[i], dp[i], dq[i])
    ensures Holds(dp', stripe, a, bytes) && Holds(dq', stripe, b, bytes) <==> HoldPartial(dp, dq, stripe, a, b, bytes)
  {
    hide ByteA, ByteB, PMul, QMul, Partial, Dot;
    forall i | 0 <= i < bytes
      ensures dq'[i] == stripe[b][i] && dp'[i] == stripe[a][i]
              <==> dp[i] == Partial(stripe, a, b, |stripe|, i) && dq[i] == Partial(stripe, a, b, |stripe| + 1, i)
    {
      TwoBytesIff(stripe, a, b, i, dp[i], dq[i]);
    }
  }

  /** raid6_2data_recov_intx1 with isal_gen_syndrome installed: the two disks are restored
      exactly when the syndrome routine did its work, or the dead pages happened to hold the
      partial syndromes before. */
  method TwoDataIntx1(a: nat, b: nat, bytes: nat, ptrs: seq<array<GF>>, zero: array<GF>, alloc: bool, avx512: bool, ghost stripe: seq<Region>)
    requires a < b && |stripe| <= 255 && Degraded(ptrs, stripe, TwoData, a, b, bytes) && zero !in ptrs && Zeros(zero, bytes)
    modifies ptrs[a], ptrs[b]
    ensures Holds(ptrs[a][..], stripe, a, bytes) && Holds(ptrs[b][..], stripe, b, bytes) <==>
            (|stripe| <= 32 && alloc) || HoldPartial(old(ptrs[a][..]), old(ptrs[b][..]), stripe, a, b, bytes)
    ensures ptrs[a][bytes..] == old(ptrs[a][bytes..]) && ptrs[b][bytes..] == old(ptrs[b][bytes..])
  {
    hide Holds, HoldPartial, ByteA, ByteB, PMul, QMul;
    var k := |ptrs| - 2;
    var done := GenPartial(a, b, bytes, ptrs, zero, alloc, avx512, stripe);
    ghost var dp, dq := ptrs[a][..], ptrs[b][..];
    FixTwo(a, b, bytes, ptrs[k], ptrs[k + 1], ptrs[a], ptrs[b]);
    FixedIff(stripe, a, b, bytes, ptrs[k][..], ptrs[k + 1][..], dp, dq, ptrs[a][..], ptrs[b][..]);
  }

  /** isal_2data_recov with its fallback. Up to 32 data disks the decoder restores both disks;
      from 33 to 64 it does if its two allocations succeed. In every other case the fallback
      runs, and since the syndrome routine writes nothing past 32 disks, the disks are restored
      only if the dead pages happened to hold the partial syndromes. */
  method TwoDataOrFallback(a: nat, b: nat, bytes: nat, ptrs: seq<array<GF>>, cc: CpuCache, zero: array<GF>,
                           matrix: bool, scratch: bool, alloc: bool, avx512: bool, ghost stripe: seq<Region>)
    requires cc.Valid() && cc.enc !in ptrs && cc.inv !in ptrs && zero !in ptrs && Zeros(zero, bytes) && zero != cc.enc && zero != cc.inv
    requires a < b && |stripe| <= 255 && Degraded(ptrs, stripe, TwoData, a, b, bytes)
    modifies cc, cc.enc, cc.inv, ptrs[a], ptrs[b]
    ensures Holds(ptrs[a][..], stripe, a, bytes) && Holds(ptrs[b][..], stripe, b, bytes) <==>
            |stripe| <= 32 || (|stripe| <= 64 && matrix && scratch)
            || HoldPartial(old(ptrs[a][..]), old(ptrs[b][..]), stripe, a, b, bytes)
    ensures ptrs[a][bytes..] == old(ptrs[a][bytes..]) && ptrs[b][bytes..] == old(ptrs[b][bytes..])
  {
    hide Holds, HoldPartial;
    var done := TwoDataRecov(a, b, bytes, ptrs, cc, matrix, scratch, avx512, stripe);
    if !done { TwoDataIntx1(a, b, bytes, ptrs, zero, alloc, avx512, stripe); }
  }

  /* ---------- raid6_datap_recov_intx1 ---------- */

  lemma DotWithoutOne(row: Vector, v: Vector, a: nat)
    requires |row| == |v| && a < |v|
    ensures Dot(row, v, |v|) == Add(Dot(row, v[a := ZERO][a := ZERO], |v|), Mul(row[a], v[a]))
  {
    hide Add, Mul, Dot;
    assert v[a := ZERO][a := ZERO] == v[a := ZERO];
    DotUpdate(row, v, a, ZERO);
    AddZero(v[a]);
    AddCancel(Dot(row, v, |v|), Mul(row[a], v[a]));
  }

  /** The multiplier of the source: raid6_gfinv[2^a]. */
  function QMulOne(a: nat): (m: GF) { TableInv(Pow(a)) }

  /** With Q = dq0 + g x and P = p0 + x, the two bytes come out right exactly when the partial
      syndromes used are p0 and dq0. */
  lemma ByteIff(g: GF, m: GF, x: GF, p0: GF, dq0: GF, p: GF, dq: GF)
    requires Undoes(m, g)
    ensures var y := Mul(m, Add(Add(dq0, Mul(g, x)), dq));
            y == x && Add(p, y) == Add(p0, x) <==> p == p0 && dq == dq0
  {
    hide Add, Mul, Inv;
    var f := Add(dq0, dq);
    Regroup(dq0, Mul(g, x), dq);
    MulAddRight(m, Mul(g, x), f);
    assert Mul(m, Mul(g, x)) == x;
    var z := Mul(m, f);
    AddIsZero(dq0, dq);
    UndoerKeeps(m, g, f);
    AddZero(x);
    AddComm(x, z);
    AddCancel(z, x);
    AddCancel(p, x);
    AddCancel(p0, x);
    AddZero(z);
  }

  lemma OneByteIff(stripe: seq<Region>, a: nat, i: nat, p: GF, dq: GF)
    requires a < |stripe| && AtLeast(stripe, i + 1)
    ensures var k := |stripe|;
            var y := Mul(QMulOne(a), Add(DiskByte(stripe, k + 1, i), dq));
            y == stripe[a][i] && Add(p, y) == DiskByte(stripe, k, i)
            <==> p == Partial(stripe, a, a, k, i) && dq == Partial(stripe, a, a, k + 1, i)
  {
    hide Add, Mul, Inv, Dot, DiskRow, Pow, TableInv, DiskByte;
    var k, v := |stripe|, At(stripe, i);
    PowNonzero(a);
    RowsAt2(k, a);
    OneMul(v[a]);
    DotWithoutOne(DiskRow(k, k), v, a);
    DotWithoutOne(DiskRow(k, k + 1), v, a);
    DiskByteIsDot(stripe, k, i);
    DiskByteIsDot(stripe, k + 1, i);
    forall z { OneMul(z); }
    UnitUndoes(QMulOne(a), Pow(a));
    ByteIff(Pow(a), QMulOne(a), v[a], Partial(stripe, a, a, k, i), Partial(stripe, a, a, k + 1, i), p, dq);
  }

  method GenPartialP(a: nat, bytes: nat, ptrs: seq<array<GF>>, zero: array<GF>, alloc: bool, avx512: bool, ghost stripe: seq<Region>)
    returns (done: bool)
    requires Degraded(ptrs, stripe, DataP, a, -1, bytes) && zero !in ptrs && Zeros(zero, bytes)
    modifies ptrs[|ptrs| - 2], ptrs[a]
    ensures done <==> |stripe| <= 32 && alloc
    ensures done ==> HoldPartial(ptrs[|stripe|][..], ptrs[a][..], stripe, a, a, bytes)
    ensures done ==> ptrs[a][bytes..] == old(ptrs[a][bytes..]) && ptrs[|stripe|][bytes..] == old(ptrs[|stripe|][bytes..])
    ensures !done ==> ptrs[a][..] == old(ptrs[a][..]) && ptrs[|stripe|][..] == old(ptrs[|stripe|][..])
  {
    hide Holds, HoldPartial, SeenWithout;
    var k := |ptrs| - 2;
    var slots := ptrs[a := zero][k + 1 := ptrs[a]];
    assert slots[k..] == [ptrs[k], ptrs[a]];
    ghost var seen := Contents(slots[..k]);
    SlotsSeen(slots[..k], stripe, a, a, bytes);
    done := GenSyndrome(bytes, slots, alloc, avx512);
    assert slots[k] == ptrs[k] && slots[k + 1] == ptrs[a];
    if done { PartialHeld(ptrs[k][..], ptrs[a][..], seen, stripe, a, a, bytes); }
  }

  method FixOne(a: nat, bytes: nat, p: array<GF>, q: array<GF>, dq: array<GF>)
    requires p != dq && q != dq && p != q && bytes <= p.Length && bytes <= q.Length && bytes <= dq.Length
    modifies p, dq
    ensures forall i :: 0 <= i < bytes ==> dq[i] == Mul(QMulOne(a), Add(q[i], old(dq[i]))) && p[i] == Add(old(p[i]), dq[i])
    ensures p[bytes..] == old(p[bytes..]) && dq[bytes..] == old(dq[bytes..])
  {
    hide Add, Mul, QMulOne;
    var m := QMulOne(a);
    for i := 0 to bytes
      invariant forall j :: 0 <= j < i ==> dq[j] == Mul(m, Add(q[j], old(dq[j]))) && p[j] == Add(old(p[j]), dq[j])
      invariant forall j :: i <= j < p.Length ==> p[j] == old(p[j])
      invariant forall j :: i <= j < dq.Length ==> dq[j] == old(dq[j])
    {
      dq[i] := Mul(m, Add(q[i], dq[i]));
      p[i] := Add(p[i], dq[i]);
    }
  }

  lemma FixedOneIff(stripe: seq<Region>, a: nat, bytes: nat, q: Region, p: Region, dq: Region, p': Region, dq': Region)
    requires a < |stripe| && AtLeast(stripe, bytes) && Holds(q, stripe, |stripe| + 1, bytes)
    requires bytes <= |p| && bytes <= |dq| && bytes <= |p'| && bytes <= |dq'|
    requires forall i :: 0 <= i < bytes ==> dq'[i] == Mul(QMulOne(a), Add(q[i], dq[i])) && p'[i] == Add(p[i], dq'[i])
    ensures Holds(dq', stripe, a, bytes) && Holds(p', stripe, |stripe|, bytes) <==> HoldPartial(p, dq, stripe, a, a, bytes)
  {
    hide Add, Mul, QMulOne, Partial, Dot;
    forall i | 0 <= i < bytes
      ensures dq'[i] == stripe[a][i] && p'[i] == DiskByte(stripe, |stripe|, i)
              <==> p[i] == Partial(stripe, a, a, |stripe|, i) && dq[i] == Partial(stripe, a, a, |stripe| + 1, i)
    {
      OneByteIff(stripe, a, i, p[i], dq[i]);
    }
  }

  /** raid6_datap_recov_intx1 with isal_gen_syndrome installed. */
  method DataPIntx1(a: nat, bytes: nat, ptrs: seq<array<GF>>, zero: array<GF>, alloc: bool, avx512: bool, ghost stripe: seq<Region>)
    requires Degraded(ptrs, stripe, DataP, a, -1, bytes) && zero !in ptrs && Zeros(zero, bytes)
    modifies ptrs[a], ptrs[|ptrs| - 2]
    ensures Holds(ptrs[a][..], stripe, a, bytes) && Holds(ptrs[|stripe|][..], stripe, |stripe|, bytes) <==>
            (|stripe| <= 32 && alloc) || HoldPartial(old(ptrs[|stripe|][..]), old(ptrs[a][..]), stripe, a, a, bytes)
    ensures ptrs[a][bytes..] == old(ptrs[a][bytes..]) && ptrs[|stripe|][bytes..] == old(ptrs[|stripe|][bytes..])
  {
    hide Holds, HoldPartial, Add, Mul, QMulOne;
    var k := |ptrs| - 2;
    var done := GenPartialP(a, bytes, ptrs, zero, alloc, avx512, stripe);
    ghost var p, dq := ptrs[k][..], ptrs[a][..];
    FixOne(a, bytes, ptrs[k], ptrs[k + 1], ptrs[a]);
    FixedOneIff(stripe, a, bytes, ptrs[k + 1][..], p, dq, ptrs[k][..], ptrs[a][..]);
  }

  /** isal_datap_recov with its fallback. */
  method DataPOrFallback(a: nat, bytes: nat, ptrs: seq<array<GF>>, cc: CpuCache, zero: array<GF>,
                         matrix: bool, scratch: bool, alloc: bool, avx512: bool, ghost stripe: seq<Region>)
    requires cc.Valid() && cc.enc !in ptrs && cc.inv !in ptrs && zero !in ptrs && Zeros(zero, bytes) && zero != cc.enc && zero != cc.inv
    requires Degraded(ptrs, stripe, DataP, a, -1, bytes)
    modifies cc, cc.enc, cc.inv, ptrs[a], ptrs[|ptrs| - 2]
    ensures Holds(ptrs[a][..], stripe, a, bytes) && Holds(ptrs[|stripe|][..], stripe, |stripe|, bytes) <==>
            |stripe| <= 32 || (|stripe| <= 64 && matrix && scratch)
            || HoldPartial(old(ptrs[|stripe|][..]), old(ptrs[a][..]), stripe, a, a, bytes)
    ensures ptrs[a][bytes..] == old(ptrs[a][bytes..]) && ptrs[|stripe|][bytes..] == old(ptrs[|stripe|][bytes..])
  {
    hide Holds, HoldPartial;
    var done := DataPRecov(a, bytes, ptrs, cc, matrix, scratch, avx512, stripe);
    if !done { DataPIntx1(a, bytes, ptrs, zero, alloc, avx512, stripe); }
  }

  /** In particular, of an array of zeros any other byte in the dead page gives a wrong result. */
  lemma StaleByte(stripe: seq<Region>, a: nat, b: nat, bytes: nat, dp: Region, dq: Region, i: nat)
    requires a < |stripe| && b < |stripe| && AtLeast(stripe, bytes) && i < bytes <= |dp|
    requires (forall j :: 0 <= j < |stripe| ==> stripe[j][i] == ZERO) && dp[i] != ZERO
    ensures !HoldPartial(dp, dq, stripe, a, b, bytes)
  {
    hide Dot;
    var k := |stripe|;
    assert At(stripe, i)[a := ZERO][b := ZERO] == ZeroV(k);
    DotZero(DiskRow(k, k), k);
  }

  /** An array of k data disks, one byte each and all of them zero; page is what the page of disk a
      holds after its loss. */
  method ZeroArray(k: nat, a: nat, page: GF) returns (ptrs: seq<array<GF>>)
    requires a < k
    ensures |ptrs| == k + 2 && forall i :: 0 <= i < |ptrs| ==> fresh(ptrs[i]) && ptrs[i].Length == 1
    ensures forall i, j :: 0 <= i < j < |ptrs| ==> ptrs[i] != ptrs[j]
    ensures forall i :: 0 <= i < |ptrs| ==> ptrs[i][0] == if i == a then page else ZERO
  {
    ptrs := [];
    for i := 0 to k + 2
      invariant |ptrs| == i && forall j :: 0 <= j < i ==> fresh(ptrs[j]) && ptrs[j].Length == 1
      invariant forall j, l :: 0 <= j < l < i ==> ptrs[j] != ptrs[l]
      invariant forall j :: 0 <= j < i ==> ptrs[j][0] == if j == a then page else ZERO
    {
      var d := new GF[1];
      d[0] := if i == a then page else ZERO;
      ptrs := ptrs + [d];
    }
  }

  lemma ZeroStripe(ptrs: seq<array<GF>>, stripe: seq<Region>, a: nat, b: nat)
    requires a < b < |stripe| && |ptrs| == |stripe| + 2 && stripe == seq(|stripe|, j => [ZERO])
    requires forall i, j :: 0 <= i < j < |ptrs| ==> ptrs[i] != ptrs[j]
    requires forall i :: 0 <= i < |ptrs| ==> ptrs[i].Length == 1 && (i != a ==> ptrs[i][0] == ZERO)
    ensures AtLeast(stripe, 1) && Degraded(ptrs, stripe, TwoData, a, b, 1)
  {
    hide Dot;
    var k := |stripe|;
    assert At(stripe, 0) == ZeroV(k);
    DotZero(PRow(k), k);
    DotZero(QRow(k), k);
    forall i | 0 <= i < |ptrs| && i != a && i != b
      ensures Holds(ptrs[i][..], stripe, i, 1)
    {}
  }

  /** Beyond 64 data disks the recovery does go wrong, whatever the allocations do: of an array of
      zeros, with any other byte in the dead page, the two lost bytes do not both come back. */
  method WideRecoveryCorrupts(k: nat, a: nat, b: nat, page: GF, matrix: bool, scratch: bool, alloc: bool, avx512: bool)
    returns (x: GF, y: GF)
    requires 64 < k <= 255 && a < b < k && page != ZERO
    ensures x != ZERO || y != ZERO
  {
    hide Holds, HoldPartial, Degraded;
    var ptrs := ZeroArray(k, a, page);
    var zero := new GF[1];
    zero[0] := ZERO;
    var cc := new CpuCache();
    ghost var stripe: seq<Region> := seq(k, j => [ZERO]);
    ZeroStripe(ptrs, stripe, a, b);
    StaleByte(stripe, a, b, 1, ptrs[a][..], ptrs[b][..], 0);
    TwoDataOrFallback(a, b, 1, ptrs, cc, zero, matrix, scratch, alloc, avx512, stripe);
    x, y := ptrs[a][0], ptrs[b][0];
    assert x == ZERO ==> Holds(ptrs[a][..], stripe, a, 1) by { ZeroHeld(ptrs[a][..], stripe, a); }
    assert y == ZERO ==> Holds(ptrs[b][..], stripe, b, 1) by { ZeroHeld(ptrs[b][..], stripe, b); }
  }

  lemma ZeroHeld(buf: Region, stripe: seq<Region>, id: nat)
    requires id < |stripe| && AtLeast(stripe, 1) && stripe[id][0] == ZERO && |buf| >= 1
    ensures buf[0] == ZERO ==> Holds(buf, stripe, id, 1)
  {
    hide Dot;
  }
}
