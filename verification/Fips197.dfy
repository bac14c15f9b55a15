/**
 FIPS 197, the reference the AES routines are measured against: the state is four
 columns of four bytes, and the cipher is written step by step as in sections 5.1 to 5.3.
 */
module Fips197 {
  import opened AesTables

  datatype Col = Col(b0: bv8, b1: bv8, b2: bv8, b3: bv8)
  datatype State = State(c0: Col, c1: Col, c2: Col, c3: Col)

  // ---- arithmetic in GF(2^8), sections 4.1 and 4.2 ----

  function Add(x: bv8, y: bv8): bv8 { x ^ y }
  function Add3(x: bv8, y: bv8, z: bv8): bv8 { Add(Add(x, y), z) }
  function Add4(x: bv8, y: bv8, z: bv8, w: bv8): bv8 { Add(Add3(x, y, z), w) }

  function XTime(x: bv8): bv8 {
    var high := x >> 7;
    (x << 1) ^ high ^ (high << 1) ^ (high << 3) ^ (high << 4)
  }

  function Scale(x: bv8, bit: bool): bv8 { if bit then x else 0 }

  function XTime2(x: bv8): bv8 { XTime(XTime(x)) }
  function XTime3(x: bv8): bv8 { XTime(XTime2(x)) }

  function Mul2(x: bv8): bv8 { XTime(x) }
  function Mul3(x: bv8): bv8 { Add(XTime(x), x) }
  function Mul9(x: bv8): bv8 { Add(XTime3(x), x) }
  function MulB(x: bv8): bv8 { Add3(XTime3(x), XTime(x), x) }
  function MulD(x: bv8): bv8 { Add3(XTime3(x), XTime2(x), x) }
  function MulE(x: bv8): bv8 { Add3(XTime3(x), XTime2(x), XTime(x)) }

  // ---- the round transformations, sections 5.1 and 5.3 ----

  function AddCol(a: Col, b: Col): Col {
    Col(Add(a.b0, b.b0), Add(a.b1, b.b1), Add(a.b2, b.b2), Add(a.b3, b.b3))
  }

  function AddRoundKey(s: State, k: State): State {
    State(AddCol(s.c0, k.c0), AddCol(s.c1, k.c1), AddCol(s.c2, k.c2), AddCol(s.c3, k.c3))
  }

  function SubCol(c: Col): Col {
    Col(FSb(c.b0), FSb(c.b1), FSb(c.b2), FSb(c.b3))
  }

  function InvSubCol(c: Col): Col {
    Col(RSb(c.b0), RSb(c.b1), RSb(c.b2), RSb(c.b3))
  }

  function SubBytes(s: State): State {
    State(SubCol(s.c0), SubCol(s.c1), SubCol(s.c2), SubCol(s.c3))
  }

  function InvSubBytes(s: State): State {
    State(InvSubCol(s.c0), InvSubCol(s.c1), InvSubCol(s.c2), InvSubCol(s.c3))
  }

  /** Row r moves left by r columns. */
  function ShiftRows(s: State): State {
    State(Col(s.c0.b0, s.c1.b1, s.c2.b2, s.c3.b3),
          Col(s.c1.b0, s.c2.b1, s.c3.b2, s.c0.b3),
          Col(s.c2.b0, s.c3.b1, s.c0.b2, s.c1.b3),
          Col(s.c3.b0, s.c0.b1, s.c1.b2, s.c2.b3))
  }

  /** Row r moves right by r columns. */
  function InvShiftRows(s: State): State {
    State(Col(s.c0.b0, s.c3.b1, s.c2.b2, s.c1.b3),
          Col(s.c1.b0, s.c0.b1, s.c3.b2, s.c2.b3),
          Col(s.c2.b0, s.c1.b1, s.c0.b2, s.c3.b3),
          Col(s.c3.b0, s.c2.b1, s.c1.b2, s.c0.b3))
  }

  function MixCol(c: Col): Col {
    Col(Add4(Mul2(c.b0), Mul3(c.b1), c.b2, c.b3),
        Add4(c.b0, Mul2(c.b1), Mul3(c.b2), c.b3),
        Add4(c.b0, c.b1, Mul2(c.b2), Mul3(c.b3)),
        Add4(Mul3(c.b0), c.b1, c.b2, Mul2(c.b3)))
  }

  function InvMixCol(c: Col): Col {
    Col(Add4(MulE(c.b0), MulB(c.b1), MulD(c.b2), Mul9(c.b3)),
        Add4(Mul9(c.b0), MulE(c.b1), MulB(c.b2), MulD(c.b3)),
        Add4(MulD(c.b0), Mul9(c.b1), MulE(c.b2), MulB(c.b3)),
        Add4(MulB(c.b0), MulD(c.b1), Mul9(c.b2), MulE(c.b3)))
  }

  function MixColumns(s: State): State {
    State(MixCol(s.c0), MixCol(s.c1), MixCol(s.c2), MixCol(s.c3))
  }

  function InvMixColumns(s: State): State {
    State(InvMixCol(s.c0), InvMixCol(s.c1), InvMixCol(s.c2), InvMixCol(s.c3))
  }

  // ---- the cipher (section 5.1) and the inverse cipher (section 5.3) ----

  /** The state after the first n full rounds; k[i] is the key of round i. */
  function Rounds(s: State, k: seq<State>, n: nat): State
    requires n < |k|
  {
    if n == 0 then AddRoundKey(s, k[0])
    else AddRoundKey(MixColumns(ShiftRows(SubBytes(Rounds(s, k, n - 1)))), k[n])
  }

  function Cipher(s: State, k: seq<State>): State
    requires |k| >= 2
  {
    var nr := |k| - 1;
    AddRoundKey(ShiftRows(SubBytes(Rounds(s, k, nr - 1))), k[nr])
  }

  /** The state of the inverse cipher when the rounds above n have been taken back. */
  function InvRounds(s: State, k: seq<State>, n: nat): State
    requires n < |k|
    decreases |k| - n
  {
    if n == |k| - 1 then InvSubBytes(InvShiftRows(AddRoundKey(s, k[n])))
    else InvSubBytes(InvShiftRows(InvMixColumns(AddRoundKey(InvRounds(s, k, n + 1), k[n]))))
  }

  function InvCipher(s: State, k: seq<State>): State
    requires |k| >= 2
  {
    AddRoundKey(InvRounds(s, k, 1), k[0])
  }

  /** The equivalent inverse cipher, section 5.3.5: d[i] is the key used in its step i. */
  function EqInvRounds(s: State, d: seq<State>, n: nat): State
    requires n < |d|
  {
    if n == 0 then AddRoundKey(s, d[0])
    else AddRoundKey(InvMixColumns(InvSubBytes(InvShiftRows(EqInvRounds(s, d, n - 1)))), d[n])
  }

  function EqInvCipher(s: State, d: seq<State>): State
    requires |d| >= 2
  {
    var nr := |d| - 1;
    AddRoundKey(InvSubBytes(InvShiftRows(EqInvRounds(s, d, nr - 1))), d[nr])
  }

  /** d is k reversed, with every key but the first and the last unmixed. */
  predicate EqInvKeys(k: seq<State>, d: seq<State>) {
    && |d| == |k| >= 2
    && d[0] == k[|k| - 1]
    && d[|k| - 1] == k[0]
    && forall i :: 0 < i < |k| - 1 ==> d[i] == InvMixColumns(k[|k| - 1 - i])
  }

  // ---- key expansion, section 5.2 ----

  function AddWords(a: Col, b: Col): Col { AddCol(a, b) }
  function SubWord(c: Col): Col { SubCol(c) }
  function RotWord(c: Col): Col { Col(c.b1, c.b2, c.b3, c.b0) }

  /** x to the power i in GF(2^8). */
  function PowerOfX(i: nat): bv8 {
    if i == 0 then 1 else XTime(PowerOfX(i - 1))
  }

  function Rcon(i: nat): Col
    requires i >= 1
  {
    Col(PowerOfX(i - 1), 0, 0, 0)
  }

  /** Word i of the schedule expanded from the nk words of the cipher key. */
  function ScheduleWord(key: seq<Col>, i: nat): Col
    requires |key| in {4, 6, 8}
  {
    var nk := |key|;
    if i < nk then key[i]
    else
      var temp := ScheduleWord(key, i - 1);
      var mixed :=
        if i % nk == 0 then AddWords(SubWord(RotWord(temp)), Rcon(i / nk))
        else if nk > 6 && i % nk == 4 then SubWord(temp)
        else temp;
      AddWords(ScheduleWord(key, i - nk), mixed)
  }

  function RoundCount(nk: nat): nat { nk + 6 }

  function RoundKey(key: seq<Col>, i: nat): State
    requires |key| in {4, 6, 8}
  {
    State(ScheduleWord(key, 4 * i), ScheduleWord(key, 4 * i + 1),
          ScheduleWord(key, 4 * i + 2), ScheduleWord(key, 4 * i + 3))
  }

  function RoundKeys(key: seq<Col>): (k: seq<State>)
    requires |key| in {4, 6, 8}
  {
    seq(RoundCount(|key|) + 1, i requires 0 <= i => RoundKey(key, i))
  }

  // ---- the two S-boxes, section 5.1.1 and 5.3.2 ----

  /** The product in the field, section 4.2: x times the powers of the indeterminate that y is the sum of. */
  function Product(x: bv8, y: bv8): bv8 {
    var x1 := XTime(x);
    var x2 := XTime(x1);
    var x3 := XTime(x2);
    var x4 := XTime(x3);
    var x5 := XTime(x4);
    var x6 := XTime(x5);
    var x7 := XTime(x6);
    Part(x, y) ^ Part(x1, y >> 1) ^ Part(x2, y >> 2) ^ Part(x3, y >> 3)
    ^ Part(x4, y >> 4) ^ Part(x5, y >> 5) ^ Part(x6, y >> 6) ^ Part(x7, y >> 7)
  }

  function Part(x: bv8, y: bv8): bv8 { if y & 1 == 1 then x else 0 }

  predicate IsInverse(x: bv8, y: bv8) {
    if x == 0 then y == 0 else Product(x, y) == 1
  }

  function Rotated(y: bv8, n: bv8): bv8
    requires n <= 8
  {
    (y << n) | (y >> (8 - n))
  }

  /** The affine transformation of section 5.1.1, and the one that undoes it. */
  function Affine(y: bv8): bv8 { y ^ Rotated(y, 1) ^ Rotated(y, 2) ^ Rotated(y, 3) ^ Rotated(y, 4) ^ 0x63 }

  function Unaffine(y: bv8): bv8 { Rotated(y, 1) ^ Rotated(y, 3) ^ Rotated(y, 6) ^ 0x05 }

  lemma AffineInverse(y: bv8)
    ensures Unaffine(Affine(y)) == y && Affine(Unaffine(y)) == y
  {
  }

  /** What the S-box comes from is an inverse, and there is no other. */
  predicate InverseFound(x: bv8) { x != 0 ==> Product(x, Unaffine(FSb(x))) == 1 }

  predicate NoOther(x: bv8, y: bv8) { Product(x, y) == 1 ==> y == Unaffine(FSb(x)) }

  lemma InverseLow(x: bv8)
    requires x & 0x80 == 0x00
    ensures InverseFound(x)
  {
  }

  lemma InverseHigh(x: bv8)
    requires x & 0x80 == 0x80
    ensures InverseFound(x)
  {
  }

  // A quarter of the table at a time.

  lemma NoOtherFirst(x: bv8, y: bv8)
    requires x & 0xc0 == 0x00
    ensures NoOther(x, y)
  {
  }

  lemma NoOtherSecond(x: bv8, y: bv8)
    requires x & 0xc0 == 0x40
    ensures NoOther(x, y)
  {
  }

  lemma NoOtherThird(x: bv8, y: bv8)
    requires x & 0xc0 == 0x80
    ensures NoOther(x, y)
  {
  }

  lemma NoOtherLast(x: bv8, y: bv8)
    requires x & 0xc0 == 0xc0
    ensures NoOther(x, y)
  {
  }

  lemma SBoxOfZero()
    ensures Unaffine(FSb(0)) == 0
  {
  }

  /** The S-box is the affine transformation of the inverse in the field, with 0 for that of 0. */
  lemma SBoxIsAffineOfInverse(x: bv8, y: bv8)
    ensures FSb(x) == Affine(y) <==> IsInverse(x, y)
  {
    hide FSb, Affine, Unaffine, Product;
    AffineInverse(y);
    AffineInverse(FSb(x));
    SBoxOfZero();
    if x & 0x80 == 0x00 {
      InverseLow(x);
    } else {
      InverseHigh(x);
    }
    if x & 0xc0 == 0x00 {
      NoOtherFirst(x, y);
    } else if x & 0xc0 == 0x40 {
      NoOtherSecond(x, y);
    } else if x & 0xc0 == 0x80 {
      NoOtherThird(x, y);
    } else {
      NoOtherLast(x, y);
    }
  }

  lemma SBoxesInverse(x: bv8)
    ensures RSb(FSb(x)) == x
    ensures FSb(RSb(x)) == x
  {
  }

  // ---- the transformations undo each other ----

  lemma XTimeLinear(x: bv8, y: bv8)
    ensures XTime(Add(x, y)) == Add(XTime(x), XTime(y))
  {
  }

  lemma AddLaws(x: bv8, y: bv8)
    ensures Add(x, 0) == x && Add(0, x) == x && Add(Add(x, y), y) == x
  {
    assert x ^ 0 == x && 0 ^ x == x && (x ^ y) ^ y == x;
  }

  lemma Regroup2(a: bv8, b: bv8, e: bv8, f: bv8)
    ensures Add(Add(a, e), Add(b, f)) == Add(Add(a, b), Add(e, f))
  {
    assert (a ^ e) ^ (b ^ f) == (a ^ b) ^ (e ^ f);
  }

  lemma Regroup3(a: bv8, b: bv8, c: bv8, e: bv8, f: bv8, g: bv8)
    ensures Add3(Add(a, e), Add(b, f), Add(c, g)) == Add(Add3(a, b, c), Add3(e, f, g))
  {
    hide Add;
    Regroup2(a, b, e, f);
    Regroup2(Add(a, b), c, Add(e, f), g);
  }

  lemma Regroup4(a: bv8, b: bv8, c: bv8, d: bv8, e: bv8, f: bv8, g: bv8, h: bv8)
    ensures Add4(Add(a, e), Add(b, f), Add(c, g), Add(d, h)) == Add(Add4(a, b, c, d), Add4(e, f, g, h))
  {
    hide Add;
    Regroup3(a, b, c, e, f, g);
    Regroup2(Add3(a, b, c), d, Add3(e, f, g), h);
  }

  lemma MulsLinear(x: bv8, y: bv8)
    ensures Mul2(Add(x, y)) == Add(Mul2(x), Mul2(y))
    ensures Mul3(Add(x, y)) == Add(Mul3(x), Mul3(y))
    ensures Mul9(Add(x, y)) == Add(Mul9(x), Mul9(y))
    ensures MulB(Add(x, y)) == Add(MulB(x), MulB(y))
    ensures MulD(Add(x, y)) == Add(MulD(x), MulD(y))
    ensures MulE(Add(x, y)) == Add(MulE(x), MulE(y))
  {
    hide XTime, Add;
    XTimeLinear(x, y);
    XTimeLinear(XTime(x), XTime(y));
    XTimeLinear(XTime2(x), XTime2(y));
    Regroup2(XTime(x), x, XTime(y), y);
    Regroup2(XTime3(x), x, XTime3(y), y);
    Regroup3(XTime3(x), XTime(x), x, XTime3(y), XTime(y), y);
    Regroup3(XTime3(x), XTime2(x), x, XTime3(y), XTime2(y), y);
    Regroup3(XTime3(x), XTime2(x), XTime(x), XTime3(y), XTime2(y), XTime(y));
  }

  lemma MixColLinear(a: Col, b: Col)
    ensures MixCol(AddCol(a, b)) == AddCol(MixCol(a), MixCol(b))
  {
    hide Add, Add4, Mul2, Mul3;
    MulsLinear(a.b0, b.b0);
    MulsLinear(a.b1, b.b1);
    MulsLinear(a.b2, b.b2);
    MulsLinear(a.b3, b.b3);
    Regroup4(Mul2(a.b0), Mul3(a.b1), a.b2, a.b3, Mul2(b.b0), Mul3(b.b1), b.b2, b.b3);
    Regroup4(a.b0, Mul2(a.b1), Mul3(a.b2), a.b3, b.b0, Mul2(b.b1), Mul3(b.b2), b.b3);
    Regroup4(a.b0, a.b1, Mul2(a.b2), Mul3(a.b3), b.b0, b.b1, Mul2(b.b2), Mul3(b.b3));
    Regroup4(Mul3(a.b0), a.b1, a.b2, Mul2(a.b3), Mul3(b.b0), b.b1, b.b2, Mul2(b.b3));
  }

  lemma InvMixColLinear(a: Col, b: Col)
    ensures InvMixCol(AddCol(a, b)) == AddCol(InvMixCol(a), InvMixCol(b))
  {
    hide Add, Add4, Mul9, MulB, MulD, MulE, Mul2, Mul3;
    MulsLinear(a.b0, b.b0);
    MulsLinear(a.b1, b.b1);
    MulsLinear(a.b2, b.b2);
    MulsLinear(a.b3, b.b3);
    Regroup4(MulE(a.b0), MulB(a.b1), MulD(a.b2), Mul9(a.b3), MulE(b.b0), MulB(b.b1), MulD(b.b2), Mul9(b.b3));
    Regroup4(Mul9(a.b0), MulE(a.b1), MulB(a.b2), MulD(a.b3), Mul9(b.b0), MulE(b.b1), MulB(b.b2), MulD(b.b3));
    Regroup4(MulD(a.b0), Mul9(a.b1), MulE(a.b2), MulB(a.b3), MulD(b.b0), Mul9(b.b1), MulE(b.b2), MulB(b.b3));
    Regroup4(MulB(a.b0), MulD(a.b1), Mul9(a.b2), MulE(a.b3), MulB(b.b0), MulD(b.b1), Mul9(b.b2), MulE(b.b3));
  }

  /** The sum of four terms starts anywhere on the circle. */
  lemma Rotate4(a: bv8, b: bv8, c: bv8, d: bv8)
    ensures Add4(a, b, c, d) == Add4(b, c, d, a)
  {
    assert ((a ^ b) ^ c) ^ d == ((b ^ c) ^ d) ^ a;
  }

  /** A polynomial of degree at most four, by its coefficients, and its value times x. */
  datatype Poly = Poly(c4: bool, c3: bool, c2: bool, c1: bool, c0: bool)

  function PolyAdd(p: Poly, q: Poly): Poly {
    Poly(p.c4 != q.c4, p.c3 != q.c3, p.c2 != q.c2, p.c1 != q.c1, p.c0 != q.c0)
  }

  function PolyAdd4(p: Poly, q: Poly, r: Poly, t: Poly): Poly {
    PolyAdd(PolyAdd(PolyAdd(p, q), r), t)
  }

  function Times(p: Poly, x: bv8): bv8 {
    Add(Scale(XTime(XTime3(x)), p.c4),
        Add4(Scale(XTime3(x), p.c3), Scale(XTime2(x), p.c2), Scale(XTime(x), p.c1), Scale(x, p.c0)))
  }

  lemma ScaleAdd(x: bv8, c: bool, d: bool)
    ensures Add(Scale(x, c), Scale(x, d)) == Scale(x, c != d)
  {
    assert x ^ x == 0 && x ^ 0 == x && 0 ^ x == x;
  }

  lemma CoefficientsAdd(p: Poly, q: Poly, x: bv8)
    ensures Add(Scale(x, p.c4), Scale(x, q.c4)) == Scale(x, PolyAdd(p, q).c4)
    ensures Add(Scale(x, p.c3), Scale(x, q.c3)) == Scale(x, PolyAdd(p, q).c3)
    ensures Add(Scale(x, p.c2), Scale(x, q.c2)) == Scale(x, PolyAdd(p, q).c2)
    ensures Add(Scale(x, p.c1), Scale(x, q.c1)) == Scale(x, PolyAdd(p, q).c1)
    ensures Add(Scale(x, p.c0), Scale(x, q.c0)) == Scale(x, PolyAdd(p, q).c0)
  {
    hide Add, Scale;
    ScaleAdd(x, p.c4, q.c4);
    ScaleAdd(x, p.c3, q.c3);
    ScaleAdd(x, p.c2, q.c2);
    ScaleAdd(x, p.c1, q.c1);
    ScaleAdd(x, p.c0, q.c0);
  }

  lemma TimesAdd(p: Poly, q: Poly, x: bv8)
    ensures Add(Times(p, x), Times(q, x)) == Times(PolyAdd(p, q), x)
  {
    hide Add, Add4, XTime, Scale, PolyAdd;
    var x1, x2, x3, x4 := XTime(x), XTime2(x), XTime3(x), XTime(XTime3(x));
    CoefficientsAdd(p, q, x);
    CoefficientsAdd(p, q, x1);
    CoefficientsAdd(p, q, x2);
    CoefficientsAdd(p, q, x3);
    CoefficientsAdd(p, q, x4);
    Regroup4(Scale(x3, p.c3), Scale(x2, p.c2), Scale(x1, p.c1), Scale(x, p.c0),
             Scale(x3, q.c3), Scale(x2, q.c2), Scale(x1, q.c1), Scale(x, q.c0));
    Regroup2(Scale(x4, p.c4), Add4(Scale(x3, p.c3), Scale(x2, p.c2), Scale(x1, p.c1), Scale(x, p.c0)),
             Scale(x4, q.c4), Add4(Scale(x3, q.c3), Scale(x2, q.c2), Scale(x1, q.c1), Scale(x, q.c0)));
  }

  lemma TimesAdd4(p: Poly, q: Poly, r: Poly, t: Poly, x: bv8)
    ensures Add4(Times(p, x), Times(q, x), Times(r, x), Times(t, x)) == Times(PolyAdd4(p, q, r, t), x)
  {
    hide Add, Times;
    TimesAdd(p, q, x);
    TimesAdd(PolyAdd(p, q), r, x);
    TimesAdd(PolyAdd(PolyAdd(p, q), r), t, x);
  }

  lemma PowersAsTimes(x: bv8)
    ensures Times(Poly(false, false, false, false, false), x) == 0
    ensures Times(Poly(false, false, false, false, true), x) == x
    ensures Times(Poly(false, false, false, true, false), x) == XTime(x)
    ensures Times(Poly(false, false, true, false, false), x) == XTime2(x)
    ensures Times(Poly(false, true, false, false, false), x) == XTime3(x)
    ensures Times(Poly(true, false, false, false, false), x) == XTime(XTime3(x))
  {
    hide Add, Add4, XTime;
    AloneInSum(x);
    AloneInSum(XTime(x));
    AloneInSum(XTime2(x));
    AloneInSum(XTime3(x));
    AloneInSum(0);
    AddLaws(x, 0);
    AddLaws(XTime(x), 0);
    AddLaws(XTime2(x), 0);
    AddLaws(XTime3(x), 0);
    AddLaws(XTime(XTime3(x)), 0);
    AddLaws(0, 0);
  }

  lemma MulsAsTimes(x: bv8)
    ensures Mul9(x) == Times(Poly(false, true, false, false, true), x)
    ensures MulB(x) == Times(Poly(false, true, false, true, true), x)
    ensures MulD(x) == Times(Poly(false, true, true, false, true), x)
    ensures MulE(x) == Times(Poly(false, true, true, true, false), x)
    ensures Mul9(Mul2(x)) == Times(Poly(true, false, false, true, false), x)
    ensures MulB(Mul2(x)) == Times(Poly(true, false, true, true, false), x)
    ensures MulD(Mul2(x)) == Times(Poly(true, true, false, true, false), x)
    ensures MulE(Mul2(x)) == Times(Poly(true, true, true, false, false), x)
  {
    hide Add, XTime, Times;
    PowersAsTimes(x);
    var p0 := Poly(false, false, false, false, true);
    var p1 := Poly(false, false, false, true, false);
    var p2 := Poly(false, false, true, false, false);
    var p3 := Poly(false, true, false, false, false);
    var p4 := Poly(true, false, false, false, false);
    TimesAdd(p3, p0, x);
    TimesAdd(p3, p1, x);
    TimesAdd(PolyAdd(p3, p1), p0, x);
    TimesAdd(p3, p2, x);
    TimesAdd(PolyAdd(p3, p2), p0, x);
    TimesAdd(PolyAdd(p3, p2), p1, x);
    TimesAdd(p4, p1, x);
    TimesAdd(p4, p2, x);
    TimesAdd(PolyAdd(p4, p2), p1, x);
    TimesAdd(p4, p3, x);
    TimesAdd(PolyAdd(p4, p3), p1, x);
    TimesAdd(PolyAdd(p4, p3), p2, x);
  }

  /** The product of the two mixing matrices is the identity: its first column. */
  lemma UnmixFirst(x: bv8)
    ensures Add4(MulE(Mul2(x)), MulB(x), MulD(x), Mul9(Mul3(x))) == x
    ensures Add4(Mul9(Mul2(x)), MulE(x), MulB(x), MulD(Mul3(x))) == 0
    ensures Add4(MulD(Mul2(x)), Mul9(x), MulE(x), MulB(Mul3(x))) == 0
    ensures Add4(MulB(Mul2(x)), MulD(x), Mul9(x), MulE(Mul3(x))) == 0
  {
    hide Add, Add4, Times, XTime, Mul9, MulB, MulD, MulE;
    MulsAsTimes(x);
    PowersAsTimes(x);
    MulsLinear(Mul2(x), x);
    var q9 := Poly(false, true, false, false, true);
    var qB := Poly(false, true, false, true, true);
    var qD := Poly(false, true, true, false, true);
    var qE := Poly(false, true, true, true, false);
    var t9 := Poly(true, false, false, true, false);
    var tB := Poly(true, false, true, true, false);
    var tD := Poly(true, true, false, true, false);
    var tE := Poly(true, true, true, false, false);
    TimesAdd(t9, q9, x);
    TimesAdd(tB, qB, x);
    TimesAdd(tD, qD, x);
    TimesAdd(tE, qE, x);
    TimesAdd4(tE, qB, qD, PolyAdd(t9, q9), x);
    TimesAdd4(t9, qE, qB, PolyAdd(tD, qD), x);
    TimesAdd4(tD, q9, qE, PolyAdd(tB, qB), x);
    TimesAdd4(tB, qD, q9, PolyAdd(tE, qE), x);
  }

  lemma MulsOfZero()
    ensures Mul2(0) == 0 && Mul3(0) == 0
    ensures Mul9(0) == 0 && MulB(0) == 0 && MulD(0) == 0 && MulE(0) == 0
  {
    assert XTime(0) == 0;
    assert 0 as bv8 ^ 0 == 0;
  }

  lemma AloneInSum(x: bv8)
    ensures Add4(x, 0, 0, 0) == x && Add4(0, x, 0, 0) == x && Add4(0, 0, x, 0) == x && Add4(0, 0, 0, x) == x
  {
    hide Add;
    AddLaws(x, 0);
    AddLaws(0, 0);
  }

  /** On a column with one byte set, the two mixing maps undo each other. */
  lemma UnmixOne(x: bv8)
    ensures InvMixCol(MixCol(Col(x, 0, 0, 0))) == Col(x, 0, 0, 0)
    ensures InvMixCol(MixCol(Col(0, x, 0, 0))) == Col(0, x, 0, 0)
    ensures InvMixCol(MixCol(Col(0, 0, x, 0))) == Col(0, 0, x, 0)
    ensures InvMixCol(MixCol(Col(0, 0, 0, x))) == Col(0, 0, 0, x)
  {
    hide Add, Add4, Mul2, Mul3, Mul9, MulB, MulD, MulE;
    MulsOfZero();
    AloneInSum(x);
    AloneInSum(Mul2(x));
    AloneInSum(Mul3(x));
    UnmixFirst(x);
    Rotate4(MulE(Mul2(x)), MulB(x), MulD(x), Mul9(Mul3(x)));
    Rotate4(Mul9(Mul2(x)), MulE(x), MulB(x), MulD(Mul3(x)));
    Rotate4(MulD(Mul2(x)), Mul9(x), MulE(x), MulB(Mul3(x)));
    Rotate4(MulB(Mul2(x)), MulD(x), Mul9(x), MulE(Mul3(x)));
    Rotate4(MulB(x), MulD(x), Mul9(Mul3(x)), MulE(Mul2(x)));
    Rotate4(MulE(x), MulB(x), MulD(Mul3(x)), Mul9(Mul2(x)));
    Rotate4(Mul9(x), MulE(x), MulB(Mul3(x)), MulD(Mul2(x)));
    Rotate4(MulD(x), Mul9(x), MulE(Mul3(x)), MulB(Mul2(x)));
    Rotate4(MulD(x), Mul9(Mul3(x)), MulE(Mul2(x)), MulB(x));
    Rotate4(MulB(x), MulD(Mul3(x)), Mul9(Mul2(x)), MulE(x));
    Rotate4(MulE(x), MulB(Mul3(x)), MulD(Mul2(x)), Mul9(x));
    Rotate4(Mul9(x), MulE(Mul3(x)), MulB(Mul2(x)), MulD(x));
  }

  lemma InvMixColUndoesMixCol(c: Col)
    ensures InvMixCol(MixCol(c)) == c
  {
    hide InvMixCol, MixCol, Add;
    var p, q := Col(c.b0, 0, 0, 0), Col(0, c.b1, 0, 0);
    var r, t := Col(0, 0, c.b2, 0), Col(0, 0, 0, c.b3);
    var pq, pqr := AddCol(p, q), AddCol(AddCol(p, q), r);
    AddLaws(c.b0, 0);
    AddLaws(c.b1, 0);
    AddLaws(c.b2, 0);
    AddLaws(c.b3, 0);
    AddLaws(0, 0);
    assert c == AddCol(pqr, t);
    MixColLinear(p, q);
    InvMixColLinear(MixCol(p), MixCol(q));
    MixColLinear(pq, r);
    InvMixColLinear(MixCol(pq), MixCol(r));
    MixColLinear(pqr, t);
    InvMixColLinear(MixCol(pqr), MixCol(t));
    UnmixOne(c.b0);
    UnmixOne(c.b1);
    UnmixOne(c.b2);
    UnmixOne(c.b3);
  }

  lemma AddRoundKeyTwice(s: State, k: State)
    ensures AddRoundKey(AddRoundKey(s, k), k) == s
  {
    hide Add;
    forall x: bv8, y: bv8
      ensures Add(Add(x, y), y) == x
    {
      AddLaws(x, y);
    }
  }

  lemma InvSubBytesUndoes(s: State)
    ensures InvSubBytes(SubBytes(s)) == s
  {
    hide FSb, RSb;
    forall x
      ensures RSb(FSb(x)) == x
    {
      SBoxesInverse(x);
    }
  }

  lemma InvMixColumnsUndoes(s: State)
    ensures InvMixColumns(MixColumns(s)) == s
  {
    hide MixCol, InvMixCol;
    InvMixColUndoesMixCol(s.c0);
    InvMixColUndoesMixCol(s.c1);
    InvMixColUndoesMixCol(s.c2);
    InvMixColUndoesMixCol(s.c3);
  }

  lemma InvMixColumnsLinear(s: State, k: State)
    ensures InvMixColumns(AddRoundKey(s, k)) == AddRoundKey(InvMixColumns(s), InvMixColumns(k))
  {
    hide AddCol, InvMixCol;
    InvMixColLinear(s.c0, k.c0);
    InvMixColLinear(s.c1, k.c1);
    InvMixColLinear(s.c2, k.c2);
    InvMixColLinear(s.c3, k.c3);
  }

  // ---- the theorems ----

  /** Taking back rounds nr down to n leaves the state before round n. */
  lemma {:induction false} InvRoundsUndo(s: State, k: seq<State>, n: nat)
    requires 1 <= n < |k|
    ensures InvRounds(Cipher(s, k), k, n) == Rounds(s, k, n - 1)
    decreases |k| - n
  {
    hide AddRoundKey, SubBytes, InvSubBytes, MixColumns, InvMixColumns;
    var before := Rounds(s, k, n - 1);
    InvSubBytesUndoes(before);
    var shifted := ShiftRows(SubBytes(before));
    if n == |k| - 1 {
      AddRoundKeyTwice(shifted, k[n]);
    } else {
      InvRoundsUndo(s, k, n + 1);
      AddRoundKeyTwice(MixColumns(shifted), k[n]);
      InvMixColumnsUndoes(shifted);
    }
  }

  /** The inverse cipher inverts the cipher, whatever the round keys. */
  lemma InvCipherInvertsCipher(s: State, k: seq<State>)
    requires |k| >= 2
    ensures InvCipher(Cipher(s, k), k) == s
  {
    hide AddRoundKey, Cipher;
    InvRoundsUndo(s, k, 1);
    AddRoundKeyTwice(s, k[0]);
  }

  lemma {:induction false} EqInvRoundsMatch(s: State, k: seq<State>, d: seq<State>, n: nat)
    requires EqInvKeys(k, d)
    requires n < |k| - 1
    ensures InvSubBytes(InvShiftRows(EqInvRounds(s, d, n))) == InvRounds(s, k, |k| - 1 - n)
  {
    hide AddRoundKey, InvSubBytes, InvMixColumns, InvShiftRows;
    if n > 0 {
      EqInvRoundsMatch(s, k, d, n - 1);
      var before := InvRounds(s, k, |k| - n);
      InvMixColumnsLinear(before, k[|k| - 1 - n]);
    }
  }

  /** With keys so derived, the equivalent inverse cipher is the inverse cipher. */
  lemma EqInvCipherIsInvCipher(s: State, k: seq<State>, d: seq<State>)
    requires EqInvKeys(k, d)
    ensures EqInvCipher(s, d) == InvCipher(s, k)
  {
    hide AddRoundKey, InvSubBytes, InvMixColumns, InvShiftRows, InvRounds, EqInvRounds;
    EqInvRoundsMatch(s, k, d, |k| - 2);
  }
}
