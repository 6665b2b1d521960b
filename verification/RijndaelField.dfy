/** lib/rijndael-alg-fst.c: arithmetic on bytes as elements of a field of 256, and on columns of four bytes. */
module RijndaelField {

  import opened RijndaelBox

  function Add(a: bv8, b: bv8): bv8
  {
    a ^ b
  }

  lemma {:induction false} AddLaws(a: bv8, b: bv8, c: bv8)
    ensures Add(a, b) == Add(b, a) && Add(Add(a, b), c) == Add(a, Add(b, c))
    ensures Add(a, a) == 0 && Add(a, 0) == a && Add(0, a) == a
  {
  }

  lemma {:induction false} AddSwap(a: bv8, b: bv8, c: bv8, d: bv8)
    ensures Add(Add(a, b), Add(c, d)) == Add(Add(a, c), Add(b, d))
  {
    hide Add;
    AddLaws(a, b, Add(c, d));
    AddLaws(b, c, d);
    AddLaws(c, b, d);
    AddLaws(a, c, Add(b, d));
  }

  /** What multiplying by two carries over: the polynomial x^8 + x^4 + x^3 + x + 1 without its top. */
  function Carry(x: bv8): bv8
  {
    if x & 0x80 == 0 then 0 else 0x1b
  }

  function Twice(x: bv8): bv8
  {
    Add(x << 1, Carry(x))
  }

  function Times3(x: bv8): bv8
  {
    Add(Twice(x), x)
  }

  function Times9(x: bv8): bv8
  {
    Add(Twice(Twice(Twice(x))), x)
  }

  function TimesB(x: bv8): bv8
  {
    Add(Add(Twice(Twice(Twice(x))), Twice(x)), x)
  }

  function TimesD(x: bv8): bv8
  {
    Add(Add(Twice(Twice(Twice(x))), Twice(Twice(x))), x)
  }

  function TimesE(x: bv8): bv8
  {
    Add(Add(Twice(Twice(Twice(x))), Twice(Twice(x))), Twice(x))
  }

  // ---------- The substitution, by section 5.1.1 of FIPS 197 ----------

  /** a, if the bit m of b is set. */
  function Part(a: bv8, b: bv8, m: bv8): bv8
  {
    if b & m == 0 then 0 else a
  }

  /** The product in the field. */
  function Times(a: bv8, b: bv8): bv8
  {
    var a1 := Twice(a);
    var a2 := Twice(a1);
    var a3 := Twice(a2);
    var a4 := Twice(a3);
    var a5 := Twice(a4);
    var a6 := Twice(a5);
    var a7 := Twice(a6);
    Part(a, b, 0x01) ^ Part(a1, b, 0x02) ^ Part(a2, b, 0x04) ^ Part(a3, b, 0x08)
    ^ Part(a4, b, 0x10) ^ Part(a5, b, 0x20) ^ Part(a6, b, 0x40) ^ Part(a7, b, 0x80)
  }

  function Affine(y: bv8): bv8
  {
    y ^ y.RotateLeft(1) ^ y.RotateLeft(2) ^ y.RotateLeft(3) ^ y.RotateLeft(4) ^ 0x63
  }

  function Unaffine(s: bv8): bv8
  {
    s.RotateLeft(1) ^ s.RotateLeft(3) ^ s.RotateLeft(6) ^ 0x05
  }

  lemma {:induction false} AffineBack(y: bv8)
    ensures Affine(Unaffine(y)) == y
  {
  }

  lemma {:induction false} TableInverts(x: bv8)
    ensures Times(x, Unaffine(S(x))) == if x == 0 then 0 else 1
    ensures x == 0 ==> Unaffine(S(x)) == 0
  {
  }

  /** The table holds, for each byte, the affine image of its inverse in the field, with zero for zero. */
  lemma {:induction false} BoxIsStandard(x: bv8) returns (y: bv8)
    ensures S(x) == Affine(y) && (if x == 0 then y == 0 else Times(x, y) == 1)
  {
    hide S, Times, Affine, Unaffine;
    y := Unaffine(S(x));
    AffineBack(S(x));
    TableInverts(x);
  }

  // ---------- Linearity ----------

  lemma {:induction false} ShiftAdd(a: bv8, b: bv8)
    ensures Add(a, b) << 1 == Add(a << 1, b << 1)
  {
  }

  lemma {:induction false} CarryAdd(a: bv8, b: bv8)
    ensures Carry(Add(a, b)) == Add(Carry(a), Carry(b))
  {
  }

  lemma {:induction false} TwiceLinear(a: bv8, b: bv8)
    ensures Twice(Add(a, b)) == Add(Twice(a), Twice(b))
  {
    hide Add, Carry;
    ShiftAdd(a, b);
    CarryAdd(a, b);
    AddSwap(a << 1, b << 1, Carry(a), Carry(b));
  }

  /** Multiplying by any of the constants of the inverse mixing distributes over addition. */
  lemma {:induction false} TimesLinear(a: bv8, b: bv8)
    ensures Times9(Add(a, b)) == Add(Times9(a), Times9(b))
    ensures TimesB(Add(a, b)) == Add(TimesB(a), TimesB(b))
    ensures TimesD(Add(a, b)) == Add(TimesD(a), TimesD(b))
    ensures TimesE(Add(a, b)) == Add(TimesE(a), TimesE(b))
  {
    hide Add, Twice;
    var a2, b2 := Twice(a), Twice(b);
    var a4, b4 := Twice(a2), Twice(b2);
    var a8, b8 := Twice(a4), Twice(b4);
    TwiceLinear(a, b);
    TwiceLinear(a2, b2);
    TwiceLinear(a4, b4);
    AddSwap(a8, b8, a, b);
    AddSwap(a8, b8, a2, b2);
    AddSwap(Add(a8, a2), Add(b8, b2), a, b);
    AddSwap(a8, b8, a4, b4);
    AddSwap(Add(a8, a4), Add(b8, b4), a, b);
    AddSwap(Add(a8, a4), Add(b8, b4), a2, b2);
  }

  function Sum(a: bv8, b: bv8, c: bv8, d: bv8): bv8
  {
    Add(Add(Add(a, b), c), d)
  }

  /** Equal terms cancel. */
  lemma {:induction false} Undo(a: bv8, b: bv8)
    ensures Add(Add(a, b), a) == b && Add(Add(a, b), b) == a && Add(a, Add(a, b)) == b
  {
    hide Add;
    AddLaws(a, a, b);
    AddLaws(a, b, b);
    AddLaws(Add(a, b), a, a);
    AddLaws(b, a, a);
  }

  lemma {:induction false} Drop(a: bv8, p: bv8, q: bv8)
    ensures Add(Add(p, a), Add(q, a)) == Add(p, q) && Add(Add(a, p), Add(a, q)) == Add(p, q)
    ensures Add(Add(p, a), Add(a, q)) == Add(p, q)
  {
    hide Add;
    AddSwap(p, a, q, a);
    AddLaws(a, p, Add(p, q));
    AddLaws(a, q, Add(p, q));
    AddLaws(Add(p, q), p, p);
  }

  lemma {:induction false} SumPairs(a: bv8, b: bv8, c: bv8, d: bv8)
    ensures Sum(a, b, c, d) == Add(Add(a, b), Add(c, d)) == Add(Add(a, c), Add(b, d)) == Add(Add(a, d), Add(b, c))
  {
    hide Add;
    AddLaws(Add(a, b), c, d);
    AddSwap(a, b, c, d);
    AddSwap(a, b, d, c);
    AddLaws(c, d, d);
  }

  /** The doublings of x tripled. */
  lemma {:induction false} Doublings(x: bv8, x2: bv8, x4: bv8, x8: bv8)
    requires x2 == Twice(x) && x4 == Twice(x2) && x8 == Twice(x4)
    ensures Twice(Times3(x)) == Add(x4, x2) && Twice(Add(x4, x2)) == Add(x8, x4)
    ensures Twice(Add(x8, x4)) == Add(Twice(x8), x8)
  {
    hide Add, Twice;
    TwiceLinear(x2, x);
    TwiceLinear(x4, x2);
    TwiceLinear(x8, x4);
  }

  /** A row of the inverse mixing with the columns of the mixing: one on the diagonal, zero elsewhere. */
  lemma {:induction false} Diagonal(x: bv8)
    ensures Sum(TimesE(Twice(x)), TimesB(x), TimesD(x), Times9(Times3(x))) == x
  {
    hide Add, Twice, Sum;
    var x2 := Twice(x);
    var x4 := Twice(x2);
    var x8 := Twice(x4);
    var p := Add(Twice(x8), x8);
    Doublings(x, x2, x4, x8);
    SumPairs(Add(p, x4), Add(Add(x8, x2), x), Add(Add(x8, x4), x), Add(p, Add(x2, x)));
    Drop(p, x4, Add(x2, x));
    Drop(x, Add(x8, x2), Add(x8, x4));
    Drop(x8, x2, x4);
    AddLaws(x4, x2, x);
    AddLaws(x2, x4, x);
    Undo(Add(x4, x2), x);
  }

  lemma {:induction false} SecondColumn(x: bv8)
    ensures Sum(TimesE(Times3(x)), TimesB(Twice(x)), TimesD(x), Times9(x)) == 0
  {
    hide Add, Twice, Sum;
    var x2 := Twice(x);
    var x4 := Twice(x2);
    var x8 := Twice(x4);
    var x16 := Twice(x8);
    Doublings(x, x2, x4, x8);
    Drop(x8, x16, x4);
    Drop(x4, x16, x2);
    SumPairs(Add(x16, x2), Add(Add(x16, x4), x2), Add(Add(x8, x4), x), Add(x8, x));
    Drop(x2, x16, Add(x16, x4));
    Undo(x16, x4);
    Drop(x, Add(x8, x4), x8);
    Undo(x8, x4);
    AddLaws(x4, x4, x4);
  }

  lemma {:induction false} ThirdColumn(x: bv8)
    ensures Sum(TimesE(x), TimesB(Times3(x)), TimesD(Twice(x)), Times9(x)) == 0
  {
    hide Add, Twice, Sum;
    var x2 := Twice(x);
    var x4 := Twice(x2);
    var x8 := Twice(x4);
    var x16 := Twice(x8);
    var p := Add(x16, x8);
    Doublings(x, x2, x4, x8);
    AddLaws(p, Add(x4, x2), Add(x2, x));
    Drop(x2, x4, x);
    SumPairs(Add(Add(x8, x4), x2), Add(p, Add(x4, x)), Add(p, x2), Add(x8, x));
    Drop(x2, Add(x8, x4), p);
    AddLaws(x8, x4, x4);
    Drop(x8, x4, x16);
    AddLaws(p, x4, x);
    Drop(x, Add(p, x4), x8);
    AddLaws(p, x4, x8);
    AddLaws(x4, x16, x8);
    Undo(Add(x4, x16), x8);
    AddLaws(Add(x4, x16), x4, x4);
  }

  lemma {:induction false} FourthColumn(x: bv8)
    ensures Sum(TimesE(x), TimesB(x), TimesD(Times3(x)), Times9(Twice(x))) == 0
  {
    hide Add, Twice, Sum;
    var x2 := Twice(x);
    var x4 := Twice(x2);
    var x8 := Twice(x4);
    var x16 := Twice(x8);
    Doublings(x, x2, x4, x8);
    Drop(x8, x16, x4);
    SumPairs(Add(Add(x8, x4), x2), Add(Add(x8, x2), x), Add(Add(x16, x4), Add(x2, x)), Add(x16, x2));
    AddLaws(x8, x4, x2);
    AddLaws(x8, x2, x);
    Drop(x8, Add(x4, x2), Add(x2, x));
    Drop(x2, x4, x);
    AddSwap(Add(x16, x4), Add(x2, x), x16, x2);
    Undo(x16, x4);
    Undo(x2, x);
    AddLaws(Add(x4, x), x, x);
  }

  /** Adding up sixteen bytes row by row or column by column. */
  lemma {:induction false} SumTransposed(a0: bv8, a1: bv8, a2: bv8, a3: bv8, b0: bv8, b1: bv8, b2: bv8, b3: bv8,
                                         c0: bv8, c1: bv8, c2: bv8, c3: bv8, d0: bv8, d1: bv8, d2: bv8, d3: bv8)
    ensures Sum(Sum(a0, a1, a2, a3), Sum(b0, b1, b2, b3), Sum(c0, c1, c2, c3), Sum(d0, d1, d2, d3)) ==
            Sum(Sum(a0, b0, c0, d0), Sum(a1, b1, c1, d1), Sum(a2, b2, c2, d2), Sum(a3, b3, c3, d3))
  {
    hide Add, Sum;
    SumAdd(a0, a1, a2, a3, b0, b1, b2, b3);
    SumAdd(Add(a0, b0), Add(a1, b1), Add(a2, b2), Add(a3, b3), c0, c1, c2, c3);
    SumAdd(Add(Add(a0, b0), c0), Add(Add(a1, b1), c1), Add(Add(a2, b2), c2), Add(Add(a3, b3), c3), d0, d1, d2, d3);
    SumIs(a0, b0, c0, d0);
    SumIs(a1, b1, c1, d1);
    SumIs(a2, b2, c2, d2);
    SumIs(a3, b3, c3, d3);
    SumIs(Sum(a0, a1, a2, a3), Sum(b0, b1, b2, b3), Sum(c0, c1, c2, c3), Sum(d0, d1, d2, d3));
  }

  lemma {:induction false} SumIs(a: bv8, b: bv8, c: bv8, d: bv8)
    ensures Sum(a, b, c, d) == Add(Add(Add(a, b), c), d)
  {
    hide Add;
  }

  lemma {:induction false} SumAdd(a0: bv8, a1: bv8, a2: bv8, a3: bv8, b0: bv8, b1: bv8, b2: bv8, b3: bv8)
    ensures Add(Sum(a0, a1, a2, a3), Sum(b0, b1, b2, b3)) == Sum(Add(a0, b0), Add(a1, b1), Add(a2, b2), Add(a3, b3))
  {
    hide Add;
    AddSwap(a0, a1, b0, b1);
    AddSwap(Add(a0, a1), a2, Add(b0, b1), b2);
    AddSwap(Add(Add(a0, a1), a2), a3, Add(Add(b0, b1), b2), b3);
  }

  lemma {:induction false} SumLinear(a: bv8, b: bv8, c: bv8, d: bv8)
    ensures Times9(Sum(a, b, c, d)) == Sum(Times9(a), Times9(b), Times9(c), Times9(d))
    ensures TimesB(Sum(a, b, c, d)) == Sum(TimesB(a), TimesB(b), TimesB(c), TimesB(d))
    ensures TimesD(Sum(a, b, c, d)) == Sum(TimesD(a), TimesD(b), TimesD(c), TimesD(d))
    ensures TimesE(Sum(a, b, c, d)) == Sum(TimesE(a), TimesE(b), TimesE(c), TimesE(d))
  {
    hide Add, Times9, TimesB, TimesD, TimesE;
    TimesLinear(a, b);
    TimesLinear(Add(a, b), c);
    TimesLinear(Add(Add(a, b), c), d);
  }

  /** One byte of a column mixed and mixed back. */
  lemma {:induction false} MixBack(a: bv8, b: bv8, c: bv8, d: bv8)
    ensures Sum(TimesE(Sum(Twice(a), Times3(b), c, d)), TimesB(Sum(a, Twice(b), Times3(c), d)),
                TimesD(Sum(a, b, Twice(c), Times3(d))), Times9(Sum(Times3(a), b, c, Twice(d)))) == a
  {
    hide *;
    SumLinear(Twice(a), Times3(b), c, d);
    SumLinear(a, Twice(b), Times3(c), d);
    SumLinear(a, b, Twice(c), Times3(d));
    SumLinear(Times3(a), b, c, Twice(d));
    SumTransposed(TimesE(Twice(a)), TimesE(Times3(b)), TimesE(c), TimesE(d),
                  TimesB(a), TimesB(Twice(b)), TimesB(Times3(c)), TimesB(d),
                  TimesD(a), TimesD(b), TimesD(Twice(c)), TimesD(Times3(d)),
                  Times9(Times3(a)), Times9(b), Times9(c), Times9(Twice(d)));
    Diagonal(a);
    SecondColumn(b);
    ThirdColumn(c);
    FourthColumn(d);
    SumZeros(a);
  }

  lemma {:induction false} SumZeros(a: bv8)
    ensures Sum(a, 0, 0, 0) == a
  {
  }

  /** The terms of a sum may come in turn. */
  lemma {:induction false} SumRotate(a: bv8, b: bv8, c: bv8, d: bv8)
    ensures Sum(a, b, c, d) == Sum(b, c, d, a)
  {
    hide Add;
    AddLaws(a, b, c);
    AddLaws(a, Add(b, c), d);
    AddLaws(a, Add(Add(b, c), d), 0);
  }

  // ---------- Columns ----------

  /** A 32-bit word by its bytes, the high one first. A shift and a mask of the source select one of them. */
  datatype Word = Word(b3: bv8, b2: bv8, b1: bv8, b0: bv8)

  function Xor(x: Word, y: Word): Word
  {
    Word(Add(x.b3, y.b3), Add(x.b2, y.b2), Add(x.b1, y.b1), Add(x.b0, y.b0))
  }

  lemma {:induction false} XorLaws(x: Word, y: Word, z: Word)
    ensures Xor(x, y) == Xor(y, x) && Xor(Xor(x, y), z) == Xor(x, Xor(y, z)) && Xor(Xor(x, y), y) == x
  {
    hide Add;
    AddLaws(x.b3, y.b3, z.b3);
    AddLaws(x.b2, y.b2, z.b2);
    AddLaws(x.b1, y.b1, z.b1);
    AddLaws(x.b0, y.b0, z.b0);
    AddBack(x.b3, y.b3);
    AddBack(x.b2, y.b2);
    AddBack(x.b1, y.b1);
    AddBack(x.b0, y.b0);
  }

  lemma {:induction false} AddBack(a: bv8, b: bv8)
    ensures Add(Add(a, b), b) == a
  {
    hide Add;
    AddLaws(a, b, b);
    AddLaws(b, b, b);
  }

  /** The mixing of a column, section 5.1.3 of FIPS 197. */
  function Mix(w: Word): Word
  {
    Word(Sum(Twice(w.b3), Times3(w.b2), w.b1, w.b0), Sum(w.b3, Twice(w.b2), Times3(w.b1), w.b0),
         Sum(w.b3, w.b2, Twice(w.b1), Times3(w.b0)), Sum(Times3(w.b3), w.b2, w.b1, Twice(w.b0)))
  }

  /** Its inverse, section 5.3.3 of FIPS 197. */
  function Unmix(w: Word): Word
  {
    Word(Sum(TimesE(w.b3), TimesB(w.b2), TimesD(w.b1), Times9(w.b0)),
         Sum(Times9(w.b3), TimesE(w.b2), TimesB(w.b1), TimesD(w.b0)),
         Sum(TimesD(w.b3), Times9(w.b2), TimesE(w.b1), TimesB(w.b0)),
         Sum(TimesB(w.b3), TimesD(w.b2), Times9(w.b1), TimesE(w.b0)))
  }

  lemma {:induction false} UnmixMix(w: Word)
    ensures Unmix(Mix(w)) == w
  {
    hide Add, Sum, Twice, Times3, Times9, TimesB, TimesD, TimesE;
    var a, b, c, d := w.b3, w.b2, w.b1, w.b0;
    var m := Mix(w);
    MixBack(a, b, c, d);
    MixBack(b, c, d, a);
    SumRotate(a, Twice(b), Times3(c), d);
    SumRotate(a, b, Twice(c), Times3(d));
    SumRotate(Times3(a), b, c, Twice(d));
    SumRotate(Twice(a), Times3(b), c, d);
    SumRotate(Times9(m.b3), TimesE(m.b2), TimesB(m.b1), TimesD(m.b0));
    UnmixLow(w);
  }

  lemma {:induction false} UnmixLow(w: Word)
    ensures Unmix(Mix(w)).b1 == w.b1 && Unmix(Mix(w)).b0 == w.b0
  {
    hide Add, Sum, Twice, Times3, Times9, TimesB, TimesD, TimesE;
    var a, b, c, d := w.b3, w.b2, w.b1, w.b0;
    var m := Mix(w);
    MixBack(c, d, a, b);
    MixBack(d, a, b, c);
    SumRotate(a, b, Twice(c), Times3(d));
    SumRotate(b, Twice(c), Times3(d), a);
    SumRotate(Twice(c), Times3(d), a, b);
    SumRotate(Times3(a), b, c, Twice(d));
    SumRotate(b, c, Twice(d), Times3(a));
    SumRotate(c, Twice(d), Times3(a), b);
    SumRotate(Twice(a), Times3(b), c, d);
    SumRotate(Times3(b), c, d, Twice(a));
    SumRotate(c, d, Twice(a), Times3(b));
    SumRotate(a, Twice(b), Times3(c), d);
    SumRotate(Twice(b), Times3(c), d, a);
    SumRotate(Times3(c), d, a, Twice(b));
    SumRotate(TimesD(m.b3), Times9(m.b2), TimesE(m.b1), TimesB(m.b0));
    SumRotate(Times9(m.b2), TimesE(m.b1), TimesB(m.b0), TimesD(m.b3));
    SumRotate(TimesB(m.b3), TimesD(m.b2), Times9(m.b1), TimesE(m.b0));
    SumRotate(TimesD(m.b2), Times9(m.b1), TimesE(m.b0), TimesB(m.b3));
    SumRotate(Times9(m.b1), TimesE(m.b0), TimesB(m.b3), TimesD(m.b2));
  }

  lemma {:induction false} UnmixXor(x: Word, y: Word)
    ensures Unmix(Xor(x, y)) == Xor(Unmix(x), Unmix(y))
  {
    hide Add, Sum, Times9, TimesB, TimesD, TimesE;
    TimesLinear(x.b3, y.b3);
    TimesLinear(x.b2, y.b2);
    TimesLinear(x.b1, y.b1);
    TimesLinear(x.b0, y.b0);
    SumAdd(TimesE(x.b3), TimesB(x.b2), TimesD(x.b1), Times9(x.b0), TimesE(y.b3), TimesB(y.b2), TimesD(y.b1),
           Times9(y.b0));
    SumAdd(Times9(x.b3), TimesE(x.b2), TimesB(x.b1), TimesD(x.b0), Times9(y.b3), TimesE(y.b2), TimesB(y.b1),
           TimesD(y.b0));
    SumAdd(TimesD(x.b3), Times9(x.b2), TimesE(x.b1), TimesB(x.b0), TimesD(y.b3), Times9(y.b2), TimesE(y.b1),
           TimesB(y.b0));
    SumAdd(TimesB(x.b3), TimesD(x.b2), Times9(x.b1), TimesE(x.b0), TimesB(y.b3), TimesD(y.b2), Times9(y.b1),
           TimesE(y.b0));
  }
}
