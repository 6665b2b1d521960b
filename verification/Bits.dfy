/** Bitwise operations on unsigned words, as functions on natural numbers. */
module Bits {
  import opened Modular

  const TWO_22: nat := 0x40_0000
  const TWO_32: nat := 0x1_0000_0000
  const TWO_64: nat := 0x1_0000_0000_0000_0000

  /** 2 to the power d. */
  function P2(d: nat): (r: nat)
    ensures r > 0
  {
    if d == 0 then 1 else 2 * P2(d - 1)
  }

  lemma {:induction false} P2Sum(a: nat, b: nat)
    ensures P2(a + b) == P2(a) * P2(b)
  {
    if a > 0 {
      P2Sum(a - 1, b);
      P2Next(a - 1);
      P2Next(a - 1 + b);
      hide P2;
      DoubleProduct(P2(a - 1), P2(b));
    } else {
      assert P2(0) == 1;
    }
  }

  lemma {:induction false} DoubleProduct(x: nat, y: nat)
    ensures 2 * (x * y) == (2 * x) * y
  {
  }

  lemma {:induction false} P2Monotone(a: nat, b: nat)
    requires a <= b
    ensures P2(a) <= P2(b)
  {
    if a < b { P2Monotone(a, b - 1); }
  }

  lemma {:induction false} P2Next(a: nat)
    ensures P2(a + 1) == 2 * P2(a)
  {
  }

  lemma {:induction false} P2AtLeast(a: nat, b: nat)
    requires P2(a) > P2(b)
    ensures a > b
  {
    hide P2;
    if a <= b { P2Monotone(a, b); }
  }

  /** `x | y`. */
  function Or(x: nat, y: nat): nat
    decreases x + y
  {
    if x == 0 && y == 0 then 0
    else 2 * Or(x / 2, y / 2) + (if x % 2 == 1 || y % 2 == 1 then 1 else 0)
  }

  /** `x & y`. */
  function And(x: nat, y: nat): nat
    decreases x + y
  {
    if x == 0 && y == 0 then 0
    else 2 * And(x / 2, y / 2) + (if x % 2 == 1 && y % 2 == 1 then 1 else 0)
  }

  lemma {:induction false} OrZero(x: nat)
    ensures Or(x, 0) == x && And(x, 0) == 0
  {
    if x > 0 { OrZero(x / 2); }
  }

  /** Where the set bits cannot overlap, or is addition. */
  lemma {:induction false} OrDisjoint(x: nat, y: nat, k: nat)
    requires y < P2(k)
    ensures Or(x * P2(k), y) == x * P2(k) + y
    decreases k
  {
    if k == 0 {
      OrZero(x);
    } else {
      var u := x * P2(k - 1);
      assert x * P2(k) == 2 * u;
      OrDisjoint(x, y / 2, k - 1);
    }
  }

  lemma {:induction false} HalveDivMod(x: nat, w: nat)
    requires w > 0
    ensures x / (2 * w) == (x / 2) / w && x % (2 * w) == 2 * ((x / 2) % w) + x % 2
  {
    var q, r := (x / 2) / w, (x / 2) % w;
    assert x == (2 * w) * q + (2 * r + x % 2) by {
      assert x / 2 == w * q + r;
      assert (2 * w) * q == 2 * (w * q);
    }
    DivModUnique(x, 2 * w, q, 2 * r + x % 2);
  }

  /** Masking with 2^k - 1 keeps the low k bits. */
  lemma {:induction false} AndMask(x: nat, k: nat)
    ensures And(x, P2(k) - 1) == x % P2(k)
    decreases k
  {
    if k == 0 {
      OrZero(x);
    } else {
      AndMask(x / 2, k - 1);
      HalveDivMod(x, P2(k - 1));
      var m := P2(k) - 1;
      assert m / 2 == P2(k - 1) - 1 && m % 2 == 1;
    }
  }

  /** Testing bit k. */
  lemma {:induction false} AndBit(x: nat, k: nat)
    ensures And(x, P2(k)) != 0 <==> (x / P2(k)) % 2 == 1
    decreases k
  {
    if k == 0 {
      OrZero(x / 2);
      assert And(x, 1) == 2 * And(x / 2, 0) + (if x % 2 == 1 then 1 else 0);
      assert x / 1 == x;
    } else {
      AndBit(x / 2, k - 1);
      HalveDivMod(x, P2(k - 1));
    }
  }

  /** Bit k of x is set iff the low k + 1 bits reach 2^k; clearing it leaves the low k bits. */
  lemma {:induction false} TopBit(x: nat, k: nat)
    ensures And(x, P2(k)) != 0 <==> Rem(x, P2(k + 1)) >= P2(k)
    ensures Rem(x, P2(k)) == if Rem(x, P2(k + 1)) < P2(k) then Rem(x, P2(k + 1)) else Rem(x, P2(k + 1)) - P2(k)
  {
    AndBit(x, k);
    RemIsMod(x, P2(k));
    RemIsMod(x, P2(k + 1));
    TopBitArithmetic(x, P2(k));
  }

  lemma {:induction false} TopBitArithmetic(x: nat, w: nat)
    requires w > 0
    ensures (x / w) % 2 == 1 <==> x % (2 * w) >= w
    ensures x % w == if x % (2 * w) < w then x % (2 * w) else x % (2 * w) - w
  {
    var q, r := x / w, x % w;
    var h, b := q / 2, q % 2;
    assert x == (2 * w) * h + (b * w + r) by {
      assert x == w * (2 * h + b) + r;
      assert w * (2 * h + b) == (2 * w) * h + b * w;
    }
    assert b * w == if b == 1 then w else 0;
    DivModUnique(x, 2 * w, h, b * w + r);
  }

  lemma {:induction false} WordSizes()
    ensures P2(16) == 0x1_0000 && P2(32) == 0x1_0000_0000
    ensures P2(48) == 0x1_0000_0000_0000 && P2(64) == 0x1_0000_0000_0000_0000
  {
    assert P2(4) == 16 && P2(8) == 256 && P2(12) == 4096 && P2(16) == 65536;
    assert P2(24) == 0x100_0000 && P2(32) == 0x1_0000_0000 && P2(40) == 0x100_0000_0000;
    assert P2(48) == 0x1_0000_0000_0000 && P2(56) == 0x100_0000_0000_0000;
  }
}
