/** The encoders of isa-l/ec_base.c, isa-l/gfni_glue.c and the GFNI kernels.

    All of them promise the same thing: each output byte is the xor of coefficient times
    source byte, and nothing past len is written. A coefficient's 32-byte table is taken
    as the coefficient itself, so a table block is a matrix of coefficients. */
module ErasureCode {
  import opened Galois
  import opened LinearAlgebra

  type Region = seq<GF>

  ghost predicate AtLeast(data: seq<Region>, len: nat) {
    forall j :: 0 <= j < |data| ==> len <= |data[j]|
  }

  /** Byte p of every source. */
  function At(data: seq<Region>, p: nat): (v: Vector)
    requires AtLeast(data, p + 1)
    ensures |v| == |data|
  {
    seq(|data|, j requires 0 <= j < |data| => data[j][p])
  }

  /** The specification of every encoder, for one row: out holds the coded bytes below len
      and is otherwise what it was before. */
  ghost predicate Encoded(out: Region, before: Region, row: Vector, data: seq<Region>, len: nat)
    requires |row| == |data| && AtLeast(data, len)
  {
    && len <= |out| == |before|
    && (forall p :: 0 <= p < len ==> out[p] == Dot(row, At(data, p), |row|))
    && out[len..] == before[len..]
  }

  /** The specification leaves no freedom, so encoders that meet it agree. */
  lemma EncodedUnique(out: Region, out': Region, before: Region, row: Vector, data: seq<Region>, len: nat)
    requires |row| == |data| && AtLeast(data, len)
    requires Encoded(out, before, row, data, len) && Encoded(out', before, row, data, len)
    ensures out == out'
  {
    hide Dot;
    assert out == out[..len] + out[len..] && out' == out'[..len] + out'[len..];
  }

  /* ---------- buffers ---------- */

  ghost function Contents(rs: seq<array<GF>>): (data: seq<Region>)
    reads rs
    ensures |data| == |rs| && forall j :: 0 <= j < |rs| ==> data[j] == rs[j][..]
  {
    seq(|rs|, j requires 0 <= j < |rs| reads rs => rs[j][..])
  }

  /** Destinations are distinct, none of them is a source, and all buffers hold len bytes. */
  ghost predicate Buffers(src: seq<array<GF>>, dest: seq<array<GF>>, len: nat) {
    && (forall j :: 0 <= j < |src| ==> len <= src[j].Length)
    && (forall r :: 0 <= r < |dest| ==> len <= dest[r].Length && dest[r] !in src)
    && (forall r, q :: 0 <= r < q < |dest| ==> dest[r] != dest[q])
  }

  /** Every destination holds its first len coded bytes. */
  ghost predicate AllEncoded(dest: seq<array<GF>>, before: seq<Region>, tbl: Matrix, data: seq<Region>, len: nat)
    requires |before| == |dest| && IsMatrix(tbl, |dest|, |data|) && AtLeast(data, len)
    reads dest
  {
    forall r :: 0 <= r < |dest| ==> Encoded(dest[r][..], before[r], tbl[r], data, len)
  }

  /* ---------- the GFNI dot-product kernels ---------- */

  /** Stores block at d[pos..]. */
  method StoreBlock(d: array<GF>, pos: nat, block: Vector)
    requires pos + |block| <= d.Length
    modifies d
    ensures d[..] == old(d[..pos]) + block + old(d[pos + |block|..])
  {
    for b := 0 to |block|
      invariant d[..pos] == old(d[..pos])
      invariant d[pos..pos + b] == block[..b]
      invariant d[pos + b..] == old(d[pos + b..])
    {
      d[pos + b] := block[b];
    }
  }

  /** The accumulator registers of all rows after the pass over the sources: w bytes from pos
      on, padded with zeros to the register width. */
  method Accumulate(tbl: Matrix, src: seq<array<GF>>, pos: nat, w: nat, width: nat, ghost data: seq<Region>)
    returns (acc: seq<Vector>)
    requires IsMatrix(tbl, |tbl|, |src|) && data == Contents(src) && AtLeast(data, pos + w) && w <= width
    ensures IsMatrix(acc, |tbl|, width)
    ensures forall r, b :: 0 <= r < |tbl| && 0 <= b < w ==> acc[r][b] == Dot(tbl[r], At(data, pos + b), |src|)
  {
    hide Add, Mul;
    acc := seq(|tbl|, r => ZeroV(width));
    for i := 0 to |src|
      invariant IsMatrix(acc, |tbl|, width)
      invariant forall r, b :: 0 <= r < |tbl| && 0 <= b < w ==> acc[r][b] == Dot(tbl[r], At(data, pos + b), i)
    {
      assert data[i] == src[i][..];
      var x := src[i][pos..pos + w] + ZeroV(width - w);
      acc := seq(|tbl|, r requires 0 <= r < |tbl| => AddV(acc[r], ScaleV(tbl[r][i], x)));
    }
  }

  lemma Spliced(out: Region, out': Region, pos: nat, block: Vector)
    requires pos + |block| <= |out| && out' == out[..pos] + block + out[pos + |block|..]
    ensures |out'| == |out|
    ensures forall p :: 0 <= p < pos ==> out'[p] == out[p]
    ensures forall p :: pos <= p < pos + |block| ==> out'[p] == block[p - pos]
    ensures forall p :: pos + |block| <= p < |out| ==> out'[p] == out[p]
  {}

  lemma TailOf(out: Region, before: Region, out': Region, pos: nat, end: nat)
    requires pos <= end <= |out| == |before| == |out'| && out[pos..] == before[pos..]
    requires forall p :: end <= p < |out| ==> out'[p] == out[p]
    ensures out'[end..] == before[end..]
  {
    forall p | end <= p < |out|
      ensures out'[p] == before[p]
    {
      assert out[pos..][p - pos] == before[pos..][p - pos];
    }
  }

  lemma ExtendEncoded(out: Region, out': Region, before: Region, row: Vector, data: seq<Region>, pos: nat, block: Vector)
    requires |row| == |data| && AtLeast(data, pos + |block|) && pos + |block| <= |out|
    requires Encoded(out, before, row, data, pos)
    requires forall b :: 0 <= b < |block| ==> block[b] == Dot(row, At(data, pos + b), |row|)
    requires out' == out[..pos] + block + out[pos + |block|..]
    ensures Encoded(out', before, row, data, pos + |block|)
  {
    hide Dot, At;
    Spliced(out, out', pos, block);
    TailOf(out, before, out', pos, pos + |block|);
    forall p | 0 <= p < pos + |block|
      ensures out'[p] == Dot(row, At(data, p), |row|)
    {
      if p >= pos { assert block[p - pos] == Dot(row, At(data, pos + (p - pos)), |row|); }
    }
  }

  /** What a kernel needs to continue at pos. */
  ghost predicate Coding(tbl: Matrix, src: seq<array<GF>>, dest: seq<array<GF>>, len: nat,
                         before: seq<Region>, data: seq<Region>, pos: nat)
    reads src, dest
  {
    && Buffers(src, dest, len) && IsMatrix(tbl, |dest|, |src|) && |before| == |dest| && pos <= len
    && data == Contents(src) && AtLeast(data, len)
    && AllEncoded(dest, before, tbl, data, pos)
  }

  /** One block of w bytes for all rows: compute every accumulator, then store. */
  method DotBlock(tbl: Matrix, src: seq<array<GF>>, dest: seq<array<GF>>, len: nat, pos: nat, w: nat, width: nat,
                  ghost before: seq<Region>, ghost data: seq<Region>)
    requires Coding(tbl, src, dest, len, before, data, pos) && pos + w <= len && w <= width
    modifies dest
    ensures Coding(tbl, src, dest, len, before, data, pos + w)
  {
    hide Encoded, Dot, At;
    var acc := Accumulate(tbl, src, pos, w, width, data);
    for r := 0 to |dest|
      invariant forall q :: 0 <= q < r ==> Encoded(dest[q][..], before[q], tbl[q], data, pos + w)
      invariant forall q :: r <= q < |dest| ==> Encoded(dest[q][..], before[q], tbl[q], data, pos)
      invariant forall j :: 0 <= j < |src| ==> src[j][..] == data[j]
    {
      ghost var out := dest[r][..];
      assert Encoded(out, before[r], tbl[r], data, pos);
      StoreBlock(dest[r], pos, acc[r][..w]);
      ExtendEncoded(out, dest[r][..], before[r], tbl[r], data, pos, acc[r][..w]);
    }
  }

  /** gf_vect_dot_prod_avx2_gfni, gf_2vect_... and gf_3vect_...: blocks of 96, then 64, then 32
      bytes, then a staged tail. */
  method DotProdAvx2(len: nat, tbl: Matrix, src: seq<array<GF>>, dest: seq<array<GF>>)
    requires Buffers(src, dest, len) && IsMatrix(tbl, |dest|, |src|)
    modifies dest
    ensures Contents(src) == old(Contents(src))
    ensures AllEncoded(dest, old(Contents(dest)), tbl, old(Contents(src)), len)
  {
    hide AllEncoded, AtLeast, Contents;
    ghost var before, data := Contents(dest), Contents(src);
    CodingStart(len, tbl, src, dest);
    var pos := 0;
    while pos + 96 <= len
      invariant Coding(tbl, src, dest, len, before, data, pos)
    {
      DotBlock(tbl, src, dest, len, pos, 96, 96, before, data);
      pos := pos + 96;
    }
    if pos + 64 <= len {
      DotBlock(tbl, src, dest, len, pos, 64, 64, before, data);
      pos := pos + 64;
    }
    if pos + 32 <= len {
      DotBlock(tbl, src, dest, len, pos, 32, 32, before, data);
      pos := pos + 32;
    }
    if pos < len {
      DotBlock(tbl, src, dest, len, pos, len - pos, 32, before, data);
    }
  }

  lemma CodingStart(len: nat, tbl: Matrix, src: seq<array<GF>>, dest: seq<array<GF>>)
    requires Buffers(src, dest, len) && IsMatrix(tbl, |dest|, |src|)
    ensures Coding(tbl, src, dest, len, Contents(dest), Contents(src), 0)
  {}

  /** The AVX-512 kernels: blocks of 64 bytes, then a masked tail. */
  method DotProdAvx512(len: nat, tbl: Matrix, src: seq<array<GF>>, dest: seq<array<GF>>)
    requires Buffers(src, dest, len) && IsMatrix(tbl, |dest|, |src|)
    modifies dest
    ensures Contents(src) == old(Contents(src))
    ensures AllEncoded(dest, old(Contents(dest)), tbl, old(Contents(src)), len)
  {
    hide AllEncoded, AtLeast, Contents;
    ghost var before, data := Contents(dest), Contents(src);
    CodingStart(len, tbl, src, dest);
    var pos := 0;
    while pos + 64 <= len
      invariant Coding(tbl, src, dest, len, before, data, pos)
    {
      DotBlock(tbl, src, dest, len, pos, 64, 64, before, data);
      pos := pos + 64;
    }
    if pos < len {
      DotBlock(tbl, src, dest, len, pos, len - pos, 64, before, data);
    }
  }

  /* ---------- row-group dispatchers ---------- */

  /** The rows below done are coded; the others are untouched. */
  ghost predicate Dispatched(tbl: Matrix, src: seq<array<GF>>, dest: seq<array<GF>>, len: nat,
                             before: seq<Region>, data: seq<Region>, done: nat)
    reads src, dest
  {
    && Buffers(src, dest, len) && IsMatrix(tbl, |dest|, |src|) && |before| == |dest| && done <= |dest|
    && data == Contents(src) && AtLeast(data, len)
    && (forall r :: 0 <= r < done ==> Encoded(dest[r][..], before[r], tbl[r], data, len))
    && (forall r :: done <= r < |dest| ==> dest[r][..] == before[r])
  }

  /** A group of destinations is no less distinct, and apart from all other buffers. */
  lemma GroupBuffers(src: seq<array<GF>>, dest: seq<array<GF>>, len: nat, done: nat, g: nat)
    requires Buffers(src, dest, len) && done + g <= |dest|
    ensures Buffers(src, dest[done..done + g], len)
    ensures forall j :: 0 <= j < |src| ==> src[j] !in dest[done..done + g]
    ensures forall r :: 0 <= r < |dest| && !(done <= r < done + g) ==> dest[r] !in dest[done..done + g]
  {}

  /** One kernel call on the next g rows, on either instruction set. */
  method DispatchGroup(len: nat, tbl: Matrix, src: seq<array<GF>>, dest: seq<array<GF>>, done: nat, g: nat, avx512: bool,
                       ghost before: seq<Region>, ghost data: seq<Region>)
    requires Dispatched(tbl, src, dest, len, before, data, done) && done + g <= |dest|
    modifies dest
    ensures Dispatched(tbl, src, dest, len, before, data, done + g)
  {
    hide Encoded, AllEncoded, Buffers;
    GroupBuffers(src, dest, len, done, g);
    var group := dest[done..done + g];
    ghost var earlier := Contents(group);
    assert forall r :: 0 <= r < g ==> earlier[r] == before[done + r];
    if avx512 {
      DotProdAvx512(len, tbl[done..done + g], src, group);
    } else {
      DotProdAvx2(len, tbl[done..done + g], src, group);
    }
    forall r | done <= r < done + g
      ensures Encoded(dest[r][..], before[r], tbl[r], data, len)
    {
      EncodedRow(group, earlier, tbl[done..done + g], data, len, r - done);
    }
  }

  lemma EncodedRow(dest: seq<array<GF>>, before: seq<Region>, tbl: Matrix, data: seq<Region>, len: nat, r: nat)
    requires |before| == |dest| && IsMatrix(tbl, |dest|, |data|) && AtLeast(data, len) && AllEncoded(dest, before, tbl, data, len)
    requires r < |dest|
    ensures Encoded(dest[r][..], before[r], tbl[r], data, len)
  {}

  /** ec_encode_data_avx2_gfni: groups of three rows, then two or one. */
  method EncodeAvx2(len: nat, tbl: Matrix, src: seq<array<GF>>, dest: seq<array<GF>>)
    requires Buffers(src, dest, len) && IsMatrix(tbl, |dest|, |src|)
    modifies dest
    ensures Contents(src) == old(Contents(src))
    ensures AllEncoded(dest, old(Contents(dest)), tbl, old(Contents(src)), len)
  {
    hide Encoded;
    ghost var before, data := Contents(dest), Contents(src);
    var rows := |dest|;
    while rows >= 3
      invariant 0 <= rows <= |dest|
      invariant Dispatched(tbl, src, dest, len, before, data, |dest| - rows)
    {
      DispatchGroup(len, tbl, src, dest, |dest| - rows, 3, false, before, data);
      rows := rows - 3;
    }
    match rows
    case 2 => DispatchGroup(len, tbl, src, dest, |dest| - 2, 2, false, before, data);
    case 1 => DispatchGroup(len, tbl, src, dest, |dest| - 1, 1, false, before, data);
    case _ =>
  }

  /** ec_encode_data_avx512_gfni: groups of six rows, then the remainder in one call. */
  method EncodeAvx512(len: nat, tbl: Matrix, src: seq<array<GF>>, dest: seq<array<GF>>)
    requires Buffers(src, dest, len) && IsMatrix(tbl, |dest|, |src|)
    modifies dest
    ensures Contents(src) == old(Contents(src))
    ensures AllEncoded(dest, old(Contents(dest)), tbl, old(Contents(src)), len)
  {
    hide Encoded;
    ghost var before, data := Contents(dest), Contents(src);
    var rows := |dest|;
    while rows >= 6
      invariant 0 <= rows <= |dest|
      invariant Dispatched(tbl, src, dest, len, before, data, |dest| - rows)
    {
      DispatchGroup(len, tbl, src, dest, |dest| - rows, 6, true, before, data);
      rows := rows - 6;
    }
    match rows
    case 5 => DispatchGroup(len, tbl, src, dest, |dest| - 5, 5, true, before, data);
    case 4 => DispatchGroup(len, tbl, src, dest, |dest| - 4, 4, true, before, data);
    case 3 => DispatchGroup(len, tbl, src, dest, |dest| - 3, 3, true, before, data);
    case 2 => DispatchGroup(len, tbl, src, dest, |dest| - 2, 2, true, before, data);
    case 1 => DispatchGroup(len, tbl, src, dest, |dest| - 1, 1, true, before, data);
    case _ =>
  }

  /* ---------- the portable encoder ---------- */

  const TABLE_MIN_LEN := 256

  /** tbl[b] is c times b for every byte b. */
  ghost predicate ProductTable(tbl: seq<GF>, c: GF) {
    |tbl| == 256 && forall x: GF :: Value(x) < 256 && tbl[Value(x)] == Mul(c, x)
  }

  /** build_mul_tbl. */
  method BuildMulTbl(c: GF) returns (tbl: seq<GF>)
    ensures ProductTable(tbl, c)
  {
    hide Mul, TableMul, Byte, Value;
    tbl := [];
    for b := 0 to 256
      invariant |tbl| == b && forall v :: 0 <= v < b ==> tbl[v] == Mul(c, Byte(v))
    {
      tbl := tbl + [TableMul(c, Byte(b))];
    }
    forall x: GF
      ensures Value(x) < 256 && tbl[Value(x)] == Mul(c, x)
    {
      ByteValue(x);
    }
  }

  /** The sum over the first j sources only, below len. */
  ghost predicate PartlyEncoded(out: Region, before: Region, row: Vector, data: seq<Region>, len: nat, j: nat)
    requires j <= |row| == |data| && AtLeast(data, len)
  {
    && len <= |out| == |before|
    && (forall p :: 0 <= p < len ==> out[p] == Dot(row, At(data, p), j))
    && out[len..] == before[len..]
  }

  ghost predicate RowBuffers(src: seq<array<GF>>, d: array<GF>, len: nat) {
    (forall j :: 0 <= j < |src| ==> len <= src[j].Length) && len <= d.Length && d !in src
  }

  /** The coded byte at position i, one product at a time. */
  method SumAt(row: Vector, src: seq<array<GF>>, i: nat) returns (s: GF)
    requires |row| == |src| && AtLeast(Contents(src), i + 1)
    ensures s == Dot(row, At(Contents(src), i), |row|)
  {
    hide Mul, TableMul, Add;
    s := ZERO;
    for j := 0 to |src|
      invariant s == Dot(row, At(Contents(src), i), j)
    {
      assert Contents(src)[j] == src[j][..];
      MulComm(src[j][i], row[j]);
      s := Add(s, TableMul(src[j][i], row[j]));
    }
  }

  /** Short regions: one byte at a time through gf_mul. */
  method EncodeRowScalar(len: nat, row: Vector, src: seq<array<GF>>, d: array<GF>)
    requires RowBuffers(src, d, len) && |row| == |src|
    modifies d
    ensures AtLeast(Contents(src), len) && Encoded(d[..], old(d[..]), row, Contents(src), len)
  {
    hide Mul, TableMul, Add;
    ghost var data := Contents(src);
    for i := 0 to len
      invariant Contents(src) == data
      invariant forall p :: 0 <= p < i ==> d[p] == Dot(row, At(data, p), |row|)
      invariant d[i..] == old(d[i..])
    {
      var s := SumAt(row, src, i);
      d[i] := s;
    }
  }

  /** Long regions: one source at a time through its product table; the first source
      initializes the row and the others accumulate. */
  method EncodeRowTable(len: nat, row: Vector, src: seq<array<GF>>, d: array<GF>)
    requires RowBuffers(src, d, len) && |row| == |src| >= 1
    modifies d
    ensures AtLeast(Contents(src), len) && Encoded(d[..], old(d[..]), row, Contents(src), len)
  {
    hide Dot;
    ghost var before, data := d[..], Contents(src);
    var tbl := BuildMulTbl(row[0]);
    FirstSource(len, row, tbl, src, d);
    for j := 1 to |src|
      invariant Contents(src) == data
      invariant PartlyEncoded(d[..], before, row, data, len, j)
    {
      tbl := BuildMulTbl(row[j]);
      AddSource(len, row, tbl, src, d, j, before);
    }
  }

  method FirstSource(len: nat, row: Vector, tbl: seq<GF>, src: seq<array<GF>>, d: array<GF>)
    requires RowBuffers(src, d, len) && |row| == |src| >= 1 && ProductTable(tbl, row[0])
    modifies d
    ensures AtLeast(Contents(src), len) && PartlyEncoded(d[..], old(d[..]), row, Contents(src), len, 1)
  {
    hide Mul, Add, Value;
    ghost var data := Contents(src);
    for i := 0 to len
      invariant Contents(src) == data
      invariant forall p :: 0 <= p < i ==> d[p] == Dot(row, At(data, p), 1)
      invariant d[i..] == old(d[i..])
    {
      assert data[0] == src[0][..];
      AddZero(Mul(row[0], src[0][i]));
      d[i] := tbl[Value(src[0][i])];
    }
  }

  method AddSource(len: nat, row: Vector, tbl: seq<GF>, src: seq<array<GF>>, d: array<GF>, j: nat, ghost before: Region)
    requires RowBuffers(src, d, len) && 1 <= j < |row| == |src| && ProductTable(tbl, row[j])
    requires AtLeast(Contents(src), len) && PartlyEncoded(d[..], before, row, Contents(src), len, j)
    modifies d
    ensures AtLeast(Contents(src), len) && PartlyEncoded(d[..], before, row, Contents(src), len, j + 1)
  {
    hide Mul, Add, Value;
    ghost var data := Contents(src);
    for i := 0 to len
      invariant Contents(src) == data
      invariant forall p :: 0 <= p < i ==> d[p] == Dot(row, At(data, p), j + 1)
      invariant forall p :: i <= p < len ==> d[p] == Dot(row, At(data, p), j)
      invariant d[len..] == before[len..]
    {
      assert data[j] == src[j][..];
      d[i] := Add(d[i], tbl[Value(src[j][i])]);
    }
  }

  /** ec_encode_data_base. */
  method EncodeBase(len: nat, tbl: Matrix, src: seq<array<GF>>, dest: seq<array<GF>>)
    requires Buffers(src, dest, len) && IsMatrix(tbl, |dest|, |src|) && |src| >= 1
    modifies dest
    ensures Contents(src) == old(Contents(src))
    ensures AllEncoded(dest, old(Contents(dest)), tbl, old(Contents(src)), len)
  {
    hide Encoded;
    ghost var before, data := Contents(dest), Contents(src);
    for l := 0 to |dest|
      invariant Dispatched(tbl, src, dest, len, before, data, l)
    {
      EncodeRow(len, tbl, src, dest, l, before, data);
    }
  }

  method EncodeRow(len: nat, tbl: Matrix, src: seq<array<GF>>, dest: seq<array<GF>>, l: nat,
                   ghost before: seq<Region>, ghost data: seq<Region>)
    requires Dispatched(tbl, src, dest, len, before, data, l) && l < |dest| && |src| >= 1
    modifies dest[l]
    ensures Dispatched(tbl, src, dest, len, before, data, l + 1)
  {
    hide Encoded;
    assert forall r :: 0 <= r < |dest| && r != l ==> dest[r] != dest[l];
    if len < TABLE_MIN_LEN {
      EncodeRowScalar(len, tbl[l], src, dest[l]);
    } else {
      EncodeRowTable(len, tbl[l], src, dest[l]);
    }
    assert Contents(src) == data;
  }

  /* ---------- incremental update ---------- */

  /** The specification of every update routine, for one row. */
  ghost predicate Updated(out: Region, before: Region, c: GF, delta: Region, len: nat)
    requires len <= |delta|
  {
    && len <= |out| == |before|
    && (forall p :: 0 <= p < len ==> out[p] == Add(before[p], Mul(c, delta[p])))
    && out[len..] == before[len..]
  }

  /** gf_vect_mad_base. */
  method MadBase(len: nat, c: GF, src: array<GF>, d: array<GF>)
    requires len <= src.Length && len <= d.Length && src != d
    modifies d
    ensures Updated(d[..], old(d[..]), c, src[..], len)
  {
    hide Mul, TableMul, Add, Value;
    if len < TABLE_MIN_LEN {
      for i := 0 to len
        invariant forall p :: 0 <= p < i ==> d[p] == Add(old(d[p]), Mul(c, src[p]))
        invariant d[i..] == old(d[i..])
      {
        MulComm(src[i], c);
        d[i] := Add(d[i], TableMul(src[i], c));
      }
    } else {
      var tbl := BuildMulTbl(c);
      for i := 0 to len
        invariant forall p :: 0 <= p < i ==> d[p] == Add(old(d[p]), Mul(c, src[p]))
        invariant d[i..] == old(d[i..])
      {
        d[i] := Add(d[i], tbl[Value(src[i])]);
      }
    }
  }

  /** One block of the multiply-accumulate kernels: load, xor the product, store back. The tail
      is staged through zero-padded buffers of the register width. */
  method MadBlock(c: GF, src: array<GF>, d: array<GF>, pos: nat, w: nat, width: nat)
    requires pos + w <= src.Length && pos + w <= d.Length && src != d && w <= width
    modifies d
    ensures forall p :: pos <= p < pos + w ==> d[p] == Add(old(d[p]), Mul(c, src[p]))
    ensures d[..pos] == old(d[..pos]) && d[pos + w..] == old(d[pos + w..])
  {
    hide Mul, Add;
    var x := src[pos..pos + w] + ZeroV(width - w);
    var y := d[pos..pos + w] + ZeroV(width - w);
    var z := AddV(y, ScaleV(c, x));
    assert forall b :: 0 <= b < w ==> z[..w][b] == Add(d[pos + b], Mul(c, src[pos + b]));
    ghost var out := d[..];
    StoreBlock(d, pos, z[..w]);
    Spliced(out, d[..], pos, z[..w]);
    forall p | pos <= p < pos + w
      ensures d[p] == Add(out[p], Mul(c, src[p]))
    {
      assert d[..][p] == z[..w][p - pos] == Add(out[pos + (p - pos)], Mul(c, src[pos + (p - pos)]));
    }
  }

  ghost predicate Targets(src: array<GF>, dest: seq<array<GF>>, len: nat) {
    && len <= src.Length
    && (forall r :: 0 <= r < |dest| ==> len <= dest[r].Length && dest[r] != src)
    && (forall r, q :: 0 <= r < q < |dest| ==> dest[r] != dest[q])
  }

  /** Bytes below pos are updated in every destination. */
  ghost predicate Updating(coefs: Vector, src: array<GF>, dest: seq<array<GF>>, len: nat, before: seq<Region>, pos: nat)
    reads src, dest
  {
    && Targets(src, dest, len) && |coefs| == |before| == |dest| && pos <= len
    && (forall r :: 0 <= r < |dest| ==> Updated(dest[r][..], before[r], coefs[r], src[..], pos))
  }

  method MadBlockRows(coefs: Vector, src: array<GF>, dest: seq<array<GF>>, len: nat, pos: nat, w: nat, width: nat,
                      ghost before: seq<Region>)
    requires Updating(coefs, src, dest, len, before, pos) && pos + w <= len && w <= width
    modifies dest
    ensures Updating(coefs, src, dest, len, before, pos + w)
  {
    hide Add, Mul, Updated;
    ghost var delta := src[..];
    for r := 0 to |dest|
      invariant src[..] == delta
      invariant forall q :: 0 <= q < r ==> Updated(dest[q][..], before[q], coefs[q], delta, pos + w)
      invariant forall q :: r <= q < |dest| ==> Updated(dest[q][..], before[q], coefs[q], delta, pos)
    {
      ghost var out := dest[r][..];
      MadBlock(coefs[r], src, dest[r], pos, w, width);
      ExtendUpdated(out, dest[r][..], before[r], coefs[r], delta, pos, w);
    }
  }

  lemma ExtendUpdated(out: Region, out': Region, before: Region, c: GF, delta: Region, pos: nat, w: nat)
    requires pos + w <= |delta| && pos + w <= |out| == |out'|
    requires Updated(out, before, c, delta, pos)
    requires forall p :: pos <= p < pos + w ==> out'[p] == Add(out[p], Mul(c, delta[p]))
    requires out'[..pos] == out[..pos] && out'[pos + w..] == out[pos + w..]
    ensures Updated(out', before, c, delta, pos + w)
  {
    hide Add, Mul;
    forall p | 0 <= p < pos + w
      ensures out'[p] == Add(before[p], Mul(c, delta[p]))
    {
      if p < pos {
        assert out'[..pos][p] == out[..pos][p];
      } else {
        assert out[pos..][p - pos] == before[pos..][p - pos];
      }
    }
    assert out[pos + w..] == out[pos..][w..] && before[pos + w..] == before[pos..][w..];
  }

  lemma UpdatingStart(len: nat, coefs: Vector, src: array<GF>, dest: seq<array<GF>>)
    requires Targets(src, dest, len) && |coefs| == |dest|
    ensures Updating(coefs, src, dest, len, Contents(dest), 0)
  {
    hide Add, Mul;
  }

  /** gf_vect_mad_avx2_gfni and gf_2vect_mad_avx2_gfni. */
  method MadAvx2(len: nat, coefs: Vector, src: array<GF>, dest: seq<array<GF>>)
    requires Targets(src, dest, len) && |coefs| == |dest|
    modifies dest
    ensures Updating(coefs, src, dest, len, old(Contents(dest)), len)
  {
    hide Updating, Targets, Contents;
    ghost var before := Contents(dest);
    UpdatingStart(len, coefs, src, dest);
    var pos := 0;
    while pos + 96 <= len
      invariant pos <= len && Updating(coefs, src, dest, len, before, pos)
    {
      MadBlockRows(coefs, src, dest, len, pos, 96, 96, before);
      pos := pos + 96;
    }
    if pos + 64 <= len {
      MadBlockRows(coefs, src, dest, len, pos, 64, 64, before);
      pos := pos + 64;
    }
    if pos + 32 <= len {
      MadBlockRows(coefs, src, dest, len, pos, 32, 32, before);
      pos := pos + 32;
    }
    if pos < len {
      MadBlockRows(coefs, src, dest, len, pos, len - pos, 32, before);
    }
  }

  /** gf_2vect_mad_avx512_gfni. */
  method MadAvx512(len: nat, coefs: Vector, src: array<GF>, dest: seq<array<GF>>)
    requires Targets(src, dest, len) && |coefs| == |dest|
    modifies dest
    ensures Updating(coefs, src, dest, len, old(Contents(dest)), len)
  {
    hide Updating, Targets, Contents;
    ghost var before := Contents(dest);
    UpdatingStart(len, coefs, src, dest);
    var pos := 0;
    while pos + 64 <= len
      invariant pos <= len && Updating(coefs, src, dest, len, before, pos)
    {
      MadBlockRows(coefs, src, dest, len, pos, 64, 64, before);
      pos := pos + 64;
    }
    if pos < len {
      MadBlockRows(coefs, src, dest, len, pos, len - pos, 64, before);
    }
  }

  /** Rows below done are fully updated; the others are untouched. */
  ghost predicate UpdateDispatched(coefs: Vector, src: array<GF>, dest: seq<array<GF>>, len: nat, before: seq<Region>, done: nat)
    reads src, dest
  {
    && Targets(src, dest, len) && |coefs| == |before| == |dest| && done <= |dest|
    && (forall r :: 0 <= r < done ==> Updated(dest[r][..], before[r], coefs[r], src[..], len))
    && (forall r :: done <= r < |dest| ==> dest[r][..] == before[r])
  }

  lemma UpdatingRow(coefs: Vector, src: array<GF>, dest: seq<array<GF>>, len: nat, before: seq<Region>, r: nat)
    requires Updating(coefs, src, dest, len, before, len) && r < |dest|
    ensures r < |coefs| && r < |before| && len <= src.Length && Updated(dest[r][..], before[r], coefs[r], src[..], len)
  {}

  lemma GroupApart(src: array<GF>, dest: seq<array<GF>>, len: nat, done: nat, g: nat)
    requires Targets(src, dest, len) && done + g <= |dest|
    ensures Targets(src, dest[done..done + g], len) && len <= src.Length && src !in dest
    ensures forall r :: 0 <= r < |dest| && !(done <= r < done + g) ==> dest[r] !in dest[done..done + g]
  {}

  method UpdateGroup(len: nat, coefs: Vector, src: array<GF>, dest: seq<array<GF>>, done: nat, g: nat, avx512: bool,
                     ghost before: seq<Region>)
    requires UpdateDispatched(coefs, src, dest, len, before, done) && done + g <= |dest|
    modifies dest
    ensures UpdateDispatched(coefs, src, dest, len, before, done + g)
  {
    hide Updated, Updating, Targets;
    GroupApart(src, dest, len, done, g);
    var group := dest[done..done + g];
    ghost var earlier := Contents(group);
    assert forall r :: 0 <= r < g ==> earlier[r] == before[done + r];
    if avx512 {
      MadAvx512(len, coefs[done..done + g], src, group);
    } else {
      MadAvx2(len, coefs[done..done + g], src, group);
    }
    forall r | done <= r < done + g
      ensures Updated(dest[r][..], before[r], coefs[r], src[..], len)
    {
      UpdatingRow(coefs[done..done + g], src, group, len, earlier, r - done);
    }
  }

  /** ec_encode_data_update_avx2_gfni and its AVX-512 twin: pairs of rows, then the odd one, for
      which both use the AVX2 kernel. */
  method UpdateGfni(len: nat, tbl: Matrix, vecI: nat, src: array<GF>, dest: seq<array<GF>>, avx512: bool)
    requires Targets(src, dest, len) && |tbl| == |dest|
    requires forall r :: 0 <= r < |tbl| ==> vecI < |tbl[r]|
    modifies dest
    ensures forall r :: 0 <= r < |dest| ==>
              Updated(dest[r][..], old(Contents(dest))[r], tbl[r][vecI], src[..], len)
  {
    hide Updated;
    var coefs := Column(tbl, vecI);
    ghost var before := Contents(dest);
    var rows := |dest|;
    while rows >= 2
      invariant 0 <= rows <= |dest|
      invariant UpdateDispatched(coefs, src, dest, len, before, |dest| - rows)
    {
      UpdateGroup(len, coefs, src, dest, |dest| - rows, 2, avx512, before);
      rows := rows - 2;
    }
    if rows == 1 {
      UpdateGroup(len, coefs, src, dest, |dest| - 1, 1, false, before);
    }
  }

  /** ec_encode_data_update_base. */
  method UpdateBase(len: nat, tbl: Matrix, vecI: nat, src: array<GF>, dest: seq<array<GF>>)
    requires Targets(src, dest, len) && |tbl| == |dest|
    requires forall r :: 0 <= r < |tbl| ==> vecI < |tbl[r]|
    modifies dest
    ensures forall r :: 0 <= r < |dest| ==>
              Updated(dest[r][..], old(Contents(dest))[r], tbl[r][vecI], src[..], len)
  {
    hide Updated;
    var coefs := Column(tbl, vecI);
    ghost var before := Contents(dest);
    for l := 0 to |dest|
      invariant UpdateDispatched(coefs, src, dest, len, before, l)
    {
      UpdateRow(len, coefs, src, dest, l, before);
    }
  }

  method UpdateRow(len: nat, coefs: Vector, src: array<GF>, dest: seq<array<GF>>, l: nat, ghost before: seq<Region>)
    requires UpdateDispatched(coefs, src, dest, len, before, l) && l < |dest|
    modifies dest[l]
    ensures UpdateDispatched(coefs, src, dest, len, before, l + 1)
  {
    hide Updated;
    assert forall r :: 0 <= r < |dest| && r != l ==> dest[r] != dest[l];
    MadBase(len, coefs[l], src, dest[l]);
  }

  /** Folding the difference of one source into a coded row gives the row coded from the new
      sources, for any coefficients. */
  lemma UpdateIsReencode(out: Region, out': Region, before: Region, row: Vector, data: seq<Region>, len: nat,
                         vecI: nat, latest: Region, delta: Region)
    requires |row| == |data| && AtLeast(data, len) && vecI < |data| && len <= |latest| && len <= |delta|
    requires forall p :: 0 <= p < len ==> delta[p] == Add(data[vecI][p], latest[p])
    requires Encoded(out, before, row, data, len) && Updated(out', out, row[vecI], delta, len)
    ensures Encoded(out', before, row, data[vecI := latest], len)
  {
    hide Add, Mul;
    var data' := data[vecI := latest];
    forall p | 0 <= p < len
      ensures out'[p] == Dot(row, At(data', p), |row|)
    {
      assert At(data', p) == At(data, p)[vecI := latest[p]];
      DotUpdate(row, At(data, p), vecI, latest[p]);
    }
  }
}
