/** The field GF(2^8) of isa-l/ec_base.c, with the reduction byte 0x1d.

    A byte is its eight bits. Multiplication is defined by shift-and-xor, the field
    laws are proved from that definition, and the log/antilog form that the code runs
    is proved equal to it. Everything above this module uses the laws only. So that
    proofs there do not unfold bits they have no use for, addition and multiplication
    recurse bit by bit through a stage in between; MulStep and AddBits open them up. */
module Galois {

  datatype GF = GF(b7: bool, b6: bool, b5: bool, b4: bool, b3: bool, b2: bool, b1: bool, b0: bool)

  const ZERO := GF(false, false, false, false, false, false, false, false)
  const ONE := GF(false, false, false, false, false, false, false, true)

  /** b shifted right by one. */
  function Shift(b: GF): GF { GF(false, b.b7, b.b6, b.b5, b.b4, b.b3, b.b2, b.b1) }

  function Width(b: GF): nat {
    if b.b7 then 8 else if b.b6 then 7 else if b.b5 then 6 else if b.b4 then 5
    else if b.b3 then 4 else if b.b2 then 3 else if b.b1 then 2 else if b.b0 then 1 else 0
  }

  /** x shifted left, with a new lowest bit. */
  function Push(x: GF, c: bool): GF { GF(x.b6, x.b5, x.b4, x.b3, x.b2, x.b1, x.b0, c) }

  /** Xor, bit by bit: addition, and its own inverse. */
  function Add(a: GF, b: GF): GF
    decreases Width(a) + Width(b), 2
  {
    AddStage(a, b)
  }

  function AddStage(a: GF, b: GF): GF
    decreases Width(a) + Width(b), 1
  {
    AddBitwise(a, b)
  }

  function AddBitwise(a: GF, b: GF): GF
    decreases Width(a) + Width(b), 0
  {
    if a == ZERO && b == ZERO then ZERO else Push(Add(Shift(a), Shift(b)), a.b0 != b.b0)
  }

  /** Multiplication by two: shift left, and xor 0x1d (bits 4, 3, 2, 0) on carry out. */
  function Double(a: GF): GF {
    GF(a.b6, a.b5, a.b4, a.b3 != a.b7, a.b2 != a.b7, a.b1 != a.b7, a.b0, a.b7)
  }

  /** The inverse of Double. */
  function Half(a: GF): GF {
    GF(a.b0, a.b7, a.b6, a.b5, a.b4 != a.b0, a.b3 != a.b0, a.b2 != a.b0, a.b1)
  }

  function Select(c: bool, a: GF): GF { if c then a else ZERO }

  /** One step of shift-and-xor: a if the bit is set, plus twice what the higher bits gave. */
  function Term(c: bool, a: GF, x: GF): GF { Add(Select(c, a), Double(x)) }

  /** Shift-and-xor multiplication: the sum of Double^i(a) over the set bits i of b. */
  function Mul(a: GF, b: GF): GF
    decreases Width(b), 2
  {
    MulStage(a, b)
  }

  function MulStage(a: GF, b: GF): GF
    decreases Width(b), 1
  {
    MulBitwise(a, b)
  }

  function MulBitwise(a: GF, b: GF): GF
    decreases Width(b), 0
  {
    if b == ZERO then ZERO else Term(b.b0, a, Mul(a, Shift(b)))
  }

  lemma MulStep(a: GF, b: GF)
    ensures Mul(a, b) == if b == ZERO then ZERO else Term(b.b0, a, Mul(a, Shift(b)))
  {
    hide Term;
    assert MulStage(a, b) == MulBitwise(a, b);
  }

  /* ---------- addition ---------- */

  function Xor(a: GF, b: GF): GF {
    GF(a.b7 != b.b7, a.b6 != b.b6, a.b5 != b.b5, a.b4 != b.b4,
       a.b3 != b.b3, a.b2 != b.b2, a.b1 != b.b1, a.b0 != b.b0)
  }

  lemma {:induction false} AddBits(a: GF, b: GF)
    ensures Add(a, b) == Xor(a, b)
    decreases Width(a) + Width(b)
  {
    if a == ZERO && b == ZERO {
      AddStep(ZERO, ZERO);
    } else {
      hide Xor, Push, Add, Shift;
      assert Width(Shift(a)) + Width(Shift(b)) < Width(a) + Width(b) by { ShiftNarrows(a, b); }
      AddStep(a, b);
      XorStep(a, b);
      AddBits(Shift(a), Shift(b));
    }
  }

  lemma ShiftNarrows(a: GF, b: GF)
    requires a != ZERO || b != ZERO
    ensures Width(Shift(a)) + Width(Shift(b)) < Width(a) + Width(b)
  {}

  lemma AddStep(a: GF, b: GF)
    ensures Add(a, b) == if a == ZERO && b == ZERO then ZERO else Push(Add(Shift(a), Shift(b)), a.b0 != b.b0)
  {
    hide Push, Shift;
    assert AddStage(a, b) == AddBitwise(a, b);
  }

  lemma XorStep(a: GF, b: GF)
    ensures Xor(a, b) == Push(Xor(Shift(a), Shift(b)), a.b0 != b.b0)
  {}

  lemma AddComm(a: GF, b: GF)
    ensures Add(a, b) == Add(b, a)
  {
    AddBits(a, b);
    AddBits(b, a);
  }

  lemma AddAssoc(a: GF, b: GF, c: GF)
    ensures Add(Add(a, b), c) == Add(a, Add(b, c))
  {
    AddBits(a, b);
    AddBits(b, c);
    AddBits(Xor(a, b), c);
    AddBits(a, Xor(b, c));
    assert Xor(Xor(a, b), c) == Xor(a, Xor(b, c));
  }

  lemma AddZero(a: GF)
    ensures Add(a, ZERO) == a && Add(ZERO, a) == a && Add(a, a) == ZERO
  {
    AddBits(a, ZERO);
    AddBits(ZERO, a);
    AddBits(a, a);
  }

  lemma AddCancel(a: GF, b: GF)
    ensures Add(Add(a, b), b) == a
  {
    AddBits(a, b);
    AddBits(Xor(a, b), b);
  }

  lemma AddIsZero(a: GF, b: GF)
    ensures Add(a, b) == ZERO <==> a == b
  {
    AddBits(a, b);
  }

  lemma AddSwap(a: GF, b: GF, c: GF, d: GF)
    ensures Add(Add(a, b), Add(c, d)) == Add(Add(a, c), Add(b, d))
  {
    AddAssoc(a, b, Add(c, d));
    AddAssoc(b, c, d);
    AddComm(b, c);
    AddAssoc(c, b, d);
    AddAssoc(a, c, Add(b, d));
  }

  /* ---------- doubling is linear ---------- */

  lemma DoubleAdd(a: GF, b: GF)
    ensures Double(Add(a, b)) == Add(Double(a), Double(b))
  {
    AddBits(a, b);
    AddBits(Double(a), Double(b));
    assert Double(Xor(a, b)) == Xor(Double(a), Double(b));
  }

  lemma DoubleHalf(a: GF)
    ensures Double(Half(a)) == a && Half(Double(a)) == a
  {}

  /* ---------- multiplication is linear in its left factor ---------- */

  lemma TermAdd(c: bool, a: GF, b: GF, x: GF, y: GF)
    ensures Term(c, Add(a, b), Add(x, y)) == Add(Term(c, a, x), Term(c, b, y))
  {
    hide Add, Double;
    DoubleAdd(x, y);
    AddSwap(Select(c, a), Double(x), Select(c, b), Double(y));
    AddZero(ZERO);
  }

  lemma TermDouble(c: bool, a: GF, x: GF)
    ensures Term(c, Double(a), Double(x)) == Double(Term(c, a, x))
  {
    DoubleAdd(Select(c, a), Double(x));
  }

  lemma {:induction false} MulAddLeft(a: GF, b: GF, c: GF)
    ensures Mul(Add(a, b), c) == Add(Mul(a, c), Mul(b, c))
    decreases Width(c)
  {
    hide Add, Term;
    MulStep(a, c);
    MulStep(b, c);
    MulStep(Add(a, b), c);
    if c == ZERO {
      AddZero(ZERO);
    } else {
      MulAddLeft(a, b, Shift(c));
      TermAdd(c.b0, a, b, Mul(a, Shift(c)), Mul(b, Shift(c)));
    }
  }

  lemma {:induction false} MulDoubleLeft(a: GF, b: GF)
    ensures Mul(Double(a), b) == Double(Mul(a, b))
    decreases Width(b)
  {
    assert Double(ZERO) == ZERO;
    hide Double, Term;
    MulStep(a, b);
    MulStep(Double(a), b);
    if b != ZERO {
      MulDoubleLeft(a, Shift(b));
      TermDouble(b.b0, a, Mul(a, Shift(b)));
    }
  }

  lemma {:induction false} MulZero(a: GF)
    ensures Mul(a, ZERO) == ZERO && Mul(ZERO, a) == ZERO
    decreases Width(a)
  {
    MulStep(a, ZERO);
    MulStep(ZERO, a);
    if a != ZERO {
      MulZero(Shift(a));
      AddZero(ZERO);
    }
  }

  /** A byte is its lowest bit plus twice the others. */
  lemma Split(b: GF)
    ensures b == Term(b.b0, ONE, Shift(b))
  {
    AddBits(Select(b.b0, ONE), Double(Shift(b)));
  }

  lemma {:induction false} OneMul(a: GF)
    ensures Mul(ONE, a) == a
    decreases Width(a)
  {
    hide Term;
    MulStep(ONE, a);
    if a != ZERO {
      OneMul(Shift(a));
      Split(a);
    }
  }

  /* ---------- the ring laws ---------- */

  lemma TermMapLeft(c: bool, b: GF, x: GF, a: GF)
    ensures Mul(Term(c, b, x), a) == Term(c, Mul(b, a), Mul(x, a))
  {
    hide Mul, Add, Double;
    MulAddLeft(Select(c, b), Double(x), a);
    MulDoubleLeft(x, a);
    MulZero(a);
  }

  lemma {:induction false} MulComm(a: GF, b: GF)
    ensures Mul(a, b) == Mul(b, a)
    decreases Width(b)
  {
    if b == ZERO {
      MulZero(a);
    } else {
      hide Term, Mul;
      MulStep(a, b);
      MulComm(a, Shift(b));
      MulStepLeft(b, a);
    }
  }

  lemma MulStepLeft(b: GF, a: GF)
    ensures Mul(b, a) == Term(b.b0, a, Mul(Shift(b), a))
  {
    hide Term, Mul, Shift;
    Split(b);
    TermMapLeft(b.b0, ONE, Shift(b), a);
    OneMul(a);
  }

  lemma MulOne(a: GF)
    ensures Mul(a, ONE) == a
  {
    hide Mul;
    MulComm(a, ONE);
    OneMul(a);
  }

  lemma MulAddRight(a: GF, b: GF, c: GF)
    ensures Mul(a, Add(b, c)) == Add(Mul(a, b), Mul(a, c))
  {
    hide Mul, Add;
    MulComm(a, Add(b, c));
    MulComm(a, b);
    MulComm(a, c);
    MulAddLeft(b, c, a);
  }

  lemma MulDoubleRight(a: GF, b: GF)
    ensures Mul(a, Double(b)) == Double(Mul(a, b))
  {
    hide Mul, Double;
    MulComm(a, Double(b));
    MulComm(a, b);
    MulDoubleLeft(b, a);
  }

  lemma TermMapRight(a: GF, c: bool, b: GF, x: GF)
    ensures Mul(a, Term(c, b, x)) == Term(c, Mul(a, b), Mul(a, x))
  {
    hide Mul, Term;
    MulComm(a, Term(c, b, x));
    MulComm(a, b);
    MulComm(a, x);
    TermMapLeft(c, b, x, a);
  }

  lemma {:induction false} MulAssoc(a: GF, b: GF, c: GF)
    ensures Mul(a, Mul(b, c)) == Mul(Mul(a, b), c)
    decreases Width(c)
  {
    if c == ZERO {
      MulZero(a);
      MulZero(b);
      MulZero(Mul(a, b));
    } else {
      hide Mul, Term;
      MulAssoc(a, b, Shift(c));
      MulStep(b, c);
      MulStep(Mul(a, b), c);
      TermMapRight(a, c.b0, b, Mul(b, Shift(c)));
    }
  }

  /* ---------- powers of two and the log table ---------- */

  /** alpha_pow: the element 2 multiplied by itself e times. */
  function Pow(e: nat): GF { if e == 0 then ONE else Double(Pow(e - 1)) }

  function Pick(a: GF, v0: nat, v1: nat, v2: nat, v3: nat, v4: nat, v5: nat, v6: nat, v7: nat,
                v8: nat, v9: nat, vA: nat, vB: nat, vC: nat, vD: nat, vE: nat, vF: nat): nat
  {
    if a.b3 then
      if a.b2 then if a.b1 then if a.b0 then vF else vE else if a.b0 then vD else vC
      else if a.b1 then if a.b0 then vB else vA else if a.b0 then v9 else v8
    else
      if a.b2 then if a.b1 then if a.b0 then v7 else v6 else if a.b0 then v5 else v4
      else if a.b1 then if a.b0 then v3 else v2 else if a.b0 then v1 else v0
  }

  /** The table gflog_base, a row of sixteen entries for each high nibble. Entry 0 is the
      sentinel 511. */
  function Log(a: GF): (n: nat)
    ensures n <= 511
  {
    if a.b7 then
      if a.b6 then
        if a.b5 then
          if a.b4 then
            Pick(a, 79, 174, 213, 233, 230, 231, 173, 232, 116, 214, 244, 234, 168, 80, 88, 175)
          else
            Pick(a, 203, 89, 95, 176, 156, 169, 160, 81, 11, 245, 22, 235, 122, 117, 44, 215)
        else
          if a.b4 then
            Pick(a, 108, 161, 59, 82, 41, 157, 85, 170, 251, 96, 134, 177, 187, 204, 62, 90)
          else
            Pick(a, 31, 45, 67, 216, 183, 123, 164, 118, 196, 23, 73, 236, 127, 12, 111, 246)
      else
        if a.b5 then
          if a.b4 then
            Pick(a, 242, 86, 211, 171, 20, 42, 93, 158, 132, 60, 57, 83, 71, 109, 65, 162)
          else
            Pick(a, 55, 63, 209, 91, 149, 188, 207, 205, 144, 135, 151, 178, 220, 252, 190, 97)
        else
          if a.b4 then
            Pick(a, 227, 165, 153, 119, 38, 184, 180, 124, 17, 68, 146, 217, 35, 32, 137, 46)
          else
            Pick(a, 7, 112, 192, 247, 140, 128, 99, 13, 103, 74, 222, 237, 49, 197, 254, 24)
    else
      if a.b6 then
        if a.b5 then
          if a.b4 then
            Pick(a, 202, 94, 155, 159, 10, 21, 121, 43, 78, 212, 229, 172, 115, 243, 167, 87)
          else
            Pick(a, 30, 66, 182, 163, 195, 72, 126, 110, 107, 58, 40, 84, 250, 133, 186, 61)
        else
          if a.b4 then
            Pick(a, 54, 208, 148, 206, 143, 150, 219, 189, 241, 210, 19, 92, 131, 56, 70, 64)
          else
            Pick(a, 6, 191, 139, 98, 102, 221, 48, 253, 226, 152, 37, 179, 16, 145, 34, 136)
      else
        if a.b5 then
          if a.b4 then
            Pick(a, 29, 181, 194, 125, 106, 39, 249, 185, 201, 154, 9, 120, 77, 228, 114, 166)
          else
            Pick(a, 5, 138, 101, 47, 225, 36, 15, 33, 53, 147, 142, 218, 240, 18, 130, 69)
        else
          if a.b4 then
            Pick(a, 4, 100, 224, 14, 52, 141, 239, 129, 28, 193, 105, 248, 200, 8, 76, 113)
          else
            Pick(a, 511, 0, 1, 25, 2, 50, 26, 198, 3, 223, 51, 238, 27, 104, 199, 75)
  }

  lemma LogStep(a: GF)
    requires a != ZERO
    ensures Log(a) < 255
    ensures Log(Double(a)) == if Log(a) == 254 then 0 else Log(a) + 1
  {}

  lemma LogZero(a: GF)
    ensures Log(a) == 0 <==> a == ONE
    ensures Log(a) == 511 <==> a == ZERO
  {}

  /** The logs of successive powers count up and wrap at 255: 2 has order exactly 255. */
  lemma {:induction false} LogPow(e: nat)
    ensures Pow(e) != ZERO && Log(Pow(e)) == e % 255
  {
    hide Log, Double;
    LogZero(ONE);
    if e > 0 {
      LogPow(e - 1);
      LogStep(Pow(e - 1));
      DoubleHalf(Pow(e - 1));
      DoubleHalf(ZERO);
    }
  }

  /** Every nonzero byte is the power of two that its table entry names. */
  lemma {:induction false} PowLog(a: GF)
    requires a != ZERO
    ensures Log(a) < 255 && Pow(Log(a)) == a
    decreases Log(a)
  {
    hide Log, Double;
    LogZero(a);
    LogStep(a);
    if Log(a) > 0 {
      var h := Half(a);
      DoubleHalf(a);
      DoubleHalf(ZERO);
      LogStep(h);
      PowLog(h);
    }
  }

  lemma {:induction false} PowAdd(i: nat, j: nat)
    ensures Mul(Pow(i), Pow(j)) == Pow(i + j)
  {
    hide Mul, Double;
    if i == 0 {
      OneMul(Pow(j));
    } else {
      PowAdd(i - 1, j);
      MulDoubleLeft(Pow(i - 1), Pow(j));
    }
  }

  /** Powers repeat with period 255 and are distinct within it. */
  lemma PowPeriod(i: nat, j: nat)
    ensures Pow(i) == Pow(j) <==> i % 255 == j % 255
  {
    LogPow(i);
    LogPow(j);
    PowLog(Pow(i));
    PowLog(Pow(j));
  }

  /* ---------- the multiply and inverse that the code runs ---------- */

  function Entry(j: nat, v0: nat, v1: nat, v2: nat, v3: nat, v4: nat, v5: nat, v6: nat, v7: nat,
                 v8: nat, v9: nat, vA: nat, vB: nat, vC: nat, vD: nat, vE: nat, vF: nat): nat
  {
    if j < 8 then
      if j < 4 then if j < 2 then if j < 1 then v0 else v1 else if j < 3 then v2 else v3
      else if j < 6 then if j < 5 then v4 else v5 else if j < 7 then v6 else v7
    else
      if j < 12 then if j < 10 then if j < 9 then v8 else v9 else if j < 11 then vA else vB
      else if j < 14 then if j < 13 then vC else vD else if j < 15 then vE else vF
  }

  /** The first 255 entries of the table gff_base; the next 255 are the same again. */
  function Antilogs(i: nat): nat
    requires i < 255
  {
    if i < 128 then
      if i < 64 then
        if i < 32 then
          if i < 16 then
            Entry(i, 1, 2, 4, 8, 16, 32, 64, 128, 29, 58, 116, 232, 205, 135, 19, 38)
          else
            Entry(i - 16, 76, 152, 45, 90, 180, 117, 234, 201, 143, 3, 6, 12, 24, 48, 96, 192)
        else
          if i < 48 then
            Entry(i - 32, 157, 39, 78, 156, 37, 74, 148, 53, 106, 212, 181, 119, 238, 193, 159, 35)
          else
            Entry(i - 48, 70, 140, 5, 10, 20, 40, 80, 160, 93, 186, 105, 210, 185, 111, 222, 161)
      else
        if i < 96 then
          if i < 80 then
            Entry(i - 64, 95, 190, 97, 194, 153, 47, 94, 188, 101, 202, 137, 15, 30, 60, 120, 240)
          else
            Entry(i - 80, 253, 231, 211, 187, 107, 214, 177, 127, 254, 225, 223, 163, 91, 182, 113, 226)
        else
          if i < 112 then
            Entry(i - 96, 217, 175, 67, 134, 17, 34, 68, 136, 13, 26, 52, 104, 208, 189, 103, 206)
          else
            Entry(i - 112, 129, 31, 62, 124, 248, 237, 199, 147, 59, 118, 236, 197, 151, 51, 102, 204)
    else
      if i < 192 then
        if i < 160 then
          if i < 144 then
            Entry(i - 128, 133, 23, 46, 92, 184, 109, 218, 169, 79, 158, 33, 66, 132, 21, 42, 84)
          else
            Entry(i - 144, 168, 77, 154, 41, 82, 164, 85, 170, 73, 146, 57, 114, 228, 213, 183, 115)
        else
          if i < 176 then
            Entry(i - 160, 230, 209, 191, 99, 198, 145, 63, 126, 252, 229, 215, 179, 123, 246, 241, 255)
          else
            Entry(i - 176, 227, 219, 171, 75, 150, 49, 98, 196, 149, 55, 110, 220, 165, 87, 174, 65)
      else
        if i < 224 then
          if i < 208 then
            Entry(i - 192, 130, 25, 50, 100, 200, 141, 7, 14, 28, 56, 112, 224, 221, 167, 83, 166)
          else
            Entry(i - 208, 81, 162, 89, 178, 121, 242, 249, 239, 195, 155, 43, 86, 172, 69, 138, 9)
        else
          if i < 240 then
            Entry(i - 224, 18, 36, 72, 144, 61, 122, 244, 245, 247, 243, 251, 235, 203, 139, 11, 22)
          else
            Entry(i - 240, 44, 88, 176, 125, 250, 233, 207, 131, 27, 54, 108, 216, 173, 71, 142, 1)
  }

  /** The table gff_base: two periods, then zeros. */
  function Antilog(i: nat): GF
    requires i < 1024
  {
    if i < 255 then AntilogByte(i) else if i < 510 then AntilogByte(i - 255) else ZERO
  }

  function AntilogByte(i: nat): GF
    requires i < 255
  {
    if Antilogs(i) < 256 then Byte(Antilogs(i)) else ZERO
  }

  lemma AntilogsLog0(a: GF)
    requires a != ZERO && !a.b7 && !a.b6 && !a.b5
    ensures Log(a) < 255 && Antilogs(Log(a)) == Value(a)
  {}

  lemma AntilogsLog1(a: GF)
    requires a != ZERO && !a.b7 && !a.b6 && a.b5
    ensures Log(a) < 255 && Antilogs(Log(a)) == Value(a)
  {}

  lemma AntilogsLog2(a: GF)
    requires a != ZERO && !a.b7 && a.b6 && !a.b5
    ensures Log(a) < 255 && Antilogs(Log(a)) == Value(a)
  {}

  lemma AntilogsLog3(a: GF)
    requires a != ZERO && !a.b7 && a.b6 && a.b5
    ensures Log(a) < 255 && Antilogs(Log(a)) == Value(a)
  {}

  lemma AntilogsLog4(a: GF)
    requires a != ZERO && a.b7 && !a.b6 && !a.b5
    ensures Log(a) < 255 && Antilogs(Log(a)) == Value(a)
  {}

  lemma AntilogsLog5(a: GF)
    requires a != ZERO && a.b7 && !a.b6 && a.b5
    ensures Log(a) < 255 && Antilogs(Log(a)) == Value(a)
  {}

  lemma AntilogsLog6(a: GF)
    requires a != ZERO && a.b7 && a.b6 && !a.b5
    ensures Log(a) < 255 && Antilogs(Log(a)) == Value(a)
  {}

  lemma AntilogsLog7(a: GF)
    requires a != ZERO && a.b7 && a.b6 && a.b5
    ensures Log(a) < 255 && Antilogs(Log(a)) == Value(a)
  {}

  /** The two tables are inverse to each other. */
  lemma AntilogsLog(a: GF)
    requires a != ZERO
    ensures Log(a) < 255 && Antilogs(Log(a)) == Value(a)
  {
    hide Log, Antilogs, Value;
    if a.b7 {
      if a.b6 {
        if a.b5 { AntilogsLog7(a); } else { AntilogsLog6(a); }
      } else {
        if a.b5 { AntilogsLog5(a); } else { AntilogsLog4(a); }
      }
    } else {
      if a.b6 {
        if a.b5 { AntilogsLog3(a); } else { AntilogsLog2(a); }
      } else {
        if a.b5 { AntilogsLog1(a); } else { AntilogsLog0(a); }
      }
    }
  }

  /** The antilog table holds the powers of 2, twice over, and then zeros. */
  lemma AntilogPow(i: nat)
    requires i < 1024
    ensures Antilog(i) == if i < 510 then Pow(i) else ZERO
  {
    hide Log, Antilogs, Value, Byte, Double;
    if i < 510 {
      var j := if i < 255 then i else i - 255;
      LogPow(j);
      PowPeriod(i, j);
      AntilogsLog(Pow(j));
      ByteValue(Pow(j));
    }
  }

  /** gf_mul. The sentinel log of zero pushes the index into the zeros. */
  function TableMul(a: GF, b: GF): (r: GF)
    ensures r == Mul(a, b)
  {
    TableMulIsMul(a, b);
    Antilog(Log(a) + Log(b))
  }

  lemma TableMulIsMul(a: GF, b: GF)
    ensures Antilog(Log(a) + Log(b)) == Mul(a, b)
  {
    hide Mul, Log, Antilog;
    LogZero(a);
    LogZero(b);
    AntilogPow(Log(a) + Log(b));
    if a == ZERO {
      MulZero(b);
    } else if b == ZERO {
      MulZero(a);
    } else {
      PowLog(a);
      PowLog(b);
      PowAdd(Log(a), Log(b));
    }
  }

  /** The inverse, and zero for zero. */
  ghost function Inv(a: GF): (r: GF)
    ensures a != ZERO ==> Mul(a, r) == ONE && Mul(r, a) == ONE
    ensures a == ZERO ==> r == ZERO
  {
    if a == ZERO then ZERO
    else
      TableInvInverts(a);
      var r :| Mul(a, r) == ONE && Mul(r, a) == ONE;
      r
  }

  /** gf_inv. */
  function TableInv(a: GF): (r: GF)
    ensures r == Inv(a)
  {
    TableInvIsInv(a);
    if a == ZERO then ZERO else Antilog(255 - Log(a))
  }

  lemma TableInvIsInv(a: GF)
    ensures a != ZERO ==> Log(a) <= 255 && Antilog(255 - Log(a)) == Inv(a)
  {
    hide Mul, Log, Antilog, Inv;
    if a != ZERO {
      TableInvInverts(a);
      var r := Antilog(255 - Log(a));
      MulAssoc(r, a, Inv(a));
      MulOne(r);
      OneMul(Inv(a));
    }
  }

  lemma TableInvInverts(a: GF)
    requires a != ZERO
    ensures Log(a) <= 255
    ensures var r := Antilog(255 - Log(a)); Mul(a, r) == ONE && Mul(r, a) == ONE
  {
    hide Mul, Log, Double, Antilog;
    PowLog(a);
    AntilogPow(255 - Log(a));
    PowAdd(Log(a), 255 - Log(a));
    PowPeriod(255, 0);
    MulComm(a, Antilog(255 - Log(a)));
  }

  lemma MulIsZero(a: GF, b: GF)
    ensures Mul(a, b) == ZERO <==> a == ZERO || b == ZERO
  {
    hide Mul, Inv;
    MulZero(a);
    MulZero(b);
    if a != ZERO && Mul(a, b) == ZERO {
      MulAssoc(Inv(a), a, b);
      MulZero(Inv(a));
      OneMul(b);
    }
  }

  /** m takes back a multiplication by s. */
  ghost predicate Undoes(m: GF, s: GF) { forall z :: Mul(m, Mul(s, z)) == z }

  /** A factor takes back another when their product does nothing. */
  lemma UnitUndoes(m: GF, s: GF)
    requires forall z :: Mul(Mul(m, s), z) == z
    ensures Undoes(m, s)
  {
    hide Mul;
    forall z { MulAssoc(m, s, z); }
  }

  /** A factor that is taken back is not zero. */
  lemma UndoesNonzero(m: GF, s: GF)
    requires Undoes(m, s)
    ensures m != ZERO && s != ZERO
  {
    hide Mul;
    MulIsZero(m, Mul(s, ONE));
    MulIsZero(s, ONE);
    assert Mul(m, Mul(s, ONE)) == ONE;
  }

  /* ---------- bytes as numbers ---------- */

  function Odd(v: nat): bool { v % 2 == 1 }

  /** The byte with value v. */
  function Byte(v: nat): GF
    requires v < 256
  {
    var v1 := v / 2;
    var v2 := v1 / 2;
    var v3 := v2 / 2;
    var v4 := v3 / 2;
    var v5 := v4 / 2;
    var v6 := v5 / 2;
    GF(Odd(v6 / 2), Odd(v6), Odd(v5), Odd(v4), Odd(v3), Odd(v2), Odd(v1), Odd(v))
  }

  function Append(b: bool, v: nat): nat { if b then 2 * v + 1 else 2 * v }

  function Value(a: GF): nat {
    Append(a.b0, Append(a.b1, Append(a.b2, Append(a.b3, Append(a.b4, Append(a.b5, Append(a.b6, Append(a.b7, 0))))))))
  }

  lemma AppendOdd(v: nat)
    ensures Append(Odd(v), v / 2) == v
  {}

  lemma ValueByte(v: nat)
    requires v < 256
    ensures Value(Byte(v)) == v
  {
    hide Append, Odd;
    var v1 := v / 2;
    var v2 := v1 / 2;
    var v3 := v2 / 2;
    var v4 := v3 / 2;
    var v5 := v4 / 2;
    var v6 := v5 / 2;
    AppendOdd(v);
    AppendOdd(v1);
    AppendOdd(v2);
    AppendOdd(v3);
    AppendOdd(v4);
    AppendOdd(v5);
    AppendOdd(v6);
    AppendOdd(v6 / 2);
    assert v6 / 2 / 2 == 0;
  }

  lemma OddAppend(b: bool, v: nat)
    ensures Append(b, v) / 2 == v && Odd(Append(b, v)) == b
    ensures forall w: nat :: v < w ==> Append(b, v) < 2 * w
  {}

  lemma ByteValue(a: GF)
    ensures Value(a) < 256 && Byte(Value(a)) == a
  {
    hide Append, Odd;
    var v7 := Append(a.b7, 0);
    var v6 := Append(a.b6, v7);
    var v5 := Append(a.b5, v6);
    var v4 := Append(a.b4, v5);
    var v3 := Append(a.b3, v4);
    var v2 := Append(a.b2, v3);
    var v1 := Append(a.b1, v2);
    OddAppend(a.b7, 0);
    OddAppend(a.b6, v7);
    OddAppend(a.b5, v6);
    OddAppend(a.b4, v5);
    OddAppend(a.b3, v4);
    OddAppend(a.b2, v3);
    OddAppend(a.b1, v2);
    OddAppend(a.b0, v1);
    assert v7 < 2 * 1 && v6 < 2 * 2 && v5 < 2 * 4 && v4 < 2 * 8 && v3 < 2 * 16 && v2 < 2 * 32 && v1 < 2 * 64;
  }
}
