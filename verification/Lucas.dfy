/** Certificates for primes: a primitive root and the factors of p - 1, as Lucas and Pratt use them. */
module Lucas {
  import opened Modular
  import opened NumberTheory

  lemma {:induction false} DivisorInside(d: nat, p: nat)
    requires p > 0 && Divides(d, p) && d != p
    ensures 1 <= d < p
  {
    var k := Cofactor(d, p);
    assert k == 0 ==> d * k == 0;
    assert k == 1 ==> d * k == d;
    assert k >= 2 ==> d * k >= 2 * d;
  }

  /** A divisor of p that has an inverse modulo p is 1. */
  lemma {:induction false} InvertibleDivisor(d: nat, h: nat, p: nat)
    requires Divides(d, p) && p > 1 && Rem(d * h, p) == 1
    ensures d == 1
  {
    var k := Cofactor(d, p);
    RemIsMod(d * h, p);
    var q := d * h / p;
    assert d * h == p * q + 1;
    assert p * q == d * (k * q);
    DividesProduct(d, h);
    DividesProduct(d, k * q);
    DividesSecond(d, d * (k * q), 1);
    RemIsMod(1, d);
  }

  lemma {:induction false} DivisorIsOne(g: nat, p: nat, d: nat)
    requires p > 2 && IsPrimitiveRoot(g, p) && Divides(d, p) && 1 <= d < p
    ensures d == 1
  {
    hide Rem, Pow;
    var e := PowersCover(g, p, d);
    var h := Pow(g, p - 1 - e);
    PowAdd(g, e, p - 1 - e);
    RemRem(Pow(g, e), p);
    RemMul(Pow(g, e), d, h, h, p);
    InvertibleDivisor(d, h, p);
  }

  /** A residue of order exactly p - 1 leaves no room for a divisor of p. */
  lemma {:induction false} RootMakesPrime(g: nat, p: nat)
    requires p > 2 && IsPrimitiveRoot(g, p)
    ensures IsPrime(p)
  {
    hide Divides, IsPrimitiveRoot;
    forall d: nat | Divides(d, p) ensures d == 1 || d == p {
      if d != p {
        DivisorInside(d, p);
        DivisorIsOne(g, p, d);
      }
    }
  }

  // ---------- The factors of p - 1 ----------

  /** No primes but those of fs divide n. */
  ghost predicate Only(n: nat, fs: seq<nat>)
  {
    forall q: nat :: IsPrime(q) && Divides(q, n) ==> q in fs
  }

  lemma {:induction false} OnlyOne(fs: seq<nat>)
    ensures Only(1, fs)
  {
    forall q: nat | Divides(q, 1) ensures q == 1 {
      RemIsMod(1, q);
    }
  }

  lemma {:induction false} OnlyTimes(q: nat, n: nat, fs: seq<nat>)
    requires IsPrime(q) && q in fs && Only(n, fs)
    ensures Only(q * n, fs)
  {
    hide Divides;
    forall r: nat | IsPrime(r) && Divides(r, q * n) ensures r in fs {
      Euclid(r, q, n);
    }
  }

  /** g to the power e is r modulo p. */
  ghost predicate Power(g: nat, p: nat, e: nat, r: nat)
  {
    p > 1 && Rem(Pow(g, e), p) == r
  }

  /** q is a prime factor of p - 1, and g to the power (p - 1) / q is not one. */
  ghost predicate Witness(g: nat, p: nat, q: nat)
    requires p > 1
  {
    IsPrime(q) && Divides(q, p - 1) && Rem(Pow(g, (p - 1) / q), p) != 1
  }

  lemma {:induction false} Witnessed(g: nat, p: nat, q: nat, e: nat, r: nat)
    requires IsPrime(q) && p > 1 && p - 1 == q * e && Power(g, p, e, r) && r != 1
    ensures Witness(g, p, q)
  {
    hide Rem, Pow;
    DividesProduct(q, e);
    DivByFactor(q, e);
  }

  /** What a certificate for p holds: a residue whose power p - 1 is one, and for every prime factor of p - 1 a
      witness that no smaller power is. */
  ghost predicate Certificate(g: nat, p: nat, fs: seq<nat>)
  {
    && p > 2 && IsUnit(g, p) && Power(g, p, p - 1, 1) && Only(p - 1, fs)
    && forall q: nat :: q in fs ==> Witness(g, p, q)
  }

  /** A certificate proves its prime, its root and its factors. */
  lemma {:induction false} Certified(g: nat, p: nat, fs: seq<nat>)
    requires Certificate(g, p, fs)
    ensures IsPrime(p) && IsPrimitiveRoot(g, p)
    ensures forall q: nat :: q in fs <==> IsPrime(q) && Divides(q, p - 1)
  {
    hide Rem, Pow, IsPrime, IsPrimitiveRoot, Divides;
    assert PassesExponentTest(g, p);
    TestImpliesRoot(g, p);
    RootMakesPrime(g, p);
  }

  // ---------- Powers, eight bits of the exponent at a time ----------

  lemma {:induction false} PowerZero(g: nat, p: nat)
    requires p > 1
    ensures Power(g, p, 0, 1)
  {
    RemIsMod(1, p);
  }

  /** The residue after one more bit of the exponent. */
  function Next(g: nat, p: nat, r: nat, bit: nat): nat
    requires p > 0
  {
    r * r * (if bit == 1 then g else 1) % p
  }

  lemma {:induction false} PowerBit(g: nat, p: nat, e: nat, r: nat, bit: nat, next: nat)
    requires Power(g, p, e, r) && bit <= 1 && next == Next(g, p, r, bit)
    ensures Power(g, p, 2 * e + bit, next)
  {
    hide Rem, Pow;
    PowEven(g, e, p);
    if bit == 1 {
      PowNext(g, 2 * e, p);
      RemRem(r * r, p);
      RemMul(Rem(r * r, p), r * r, g, g, p);
      RemIsMod(r * r * g, p);
    } else {
      RemIsMod(r * r, p);
    }
  }

  /** Eight more bits, and the residue after each. */
  lemma {:induction false} PowerByte(g: nat, p: nat, e: nat, r: nat, b7: nat, r7: nat, b6: nat, r6: nat, b5: nat,
                                     r5: nat, b4: nat, r4: nat, b3: nat, r3: nat, b2: nat, r2: nat, b1: nat, r1: nat,
                                     b0: nat, r0: nat)
    requires Power(g, p, e, r)
    requires b7 <= 1 && b6 <= 1 && b5 <= 1 && b4 <= 1 && b3 <= 1 && b2 <= 1 && b1 <= 1 && b0 <= 1
    requires r7 == Next(g, p, r, b7) && r6 == Next(g, p, r7, b6) && r5 == Next(g, p, r6, b5) && r4 == Next(g, p, r5, b4)
    requires r3 == Next(g, p, r4, b3) && r2 == Next(g, p, r3, b2) && r1 == Next(g, p, r2, b1) &&
             r0 == Next(g, p, r1, b0)
    ensures Power(g, p, 256 * e + 128 * b7 + 64 * b6 + 32 * b5 + 16 * b4 + 8 * b3 + 4 * b2 + 2 * b1 + b0, r0)
  {
    hide Power, Next;
    var e7 := 2 * e + b7;
    var e6 := 2 * e7 + b6;
    var e5 := 2 * e6 + b5;
    var e4 := 2 * e5 + b4;
    var e3 := 2 * e4 + b3;
    var e2 := 2 * e3 + b2;
    PowerBit(g, p, e, r, b7, r7);
    PowerBit(g, p, e7, r7, b6, r6);
    PowerBit(g, p, e6, r6, b5, r5);
    PowerBit(g, p, e5, r5, b4, r4);
    PowerBit(g, p, e4, r4, b3, r3);
    PowerBit(g, p, e3, r3, b2, r2);
    PowerBit(g, p, e2, r2, b1, r1);
    PowerBit(g, p, 2 * e2 + b1, r1, b0, r0);
  }

  // ---------- Small primes ----------

  /** No number from 2 to d divides p. */
  predicate NoDivisor(p: nat, d: nat)
  {
    d < 2 || (p % d != 0 && NoDivisor(p, d - 1))
  }

  lemma {:induction false} NoDivisorAt(p: nat, d: nat, k: nat)
    requires NoDivisor(p, d) && 2 <= k <= d
    ensures p % k != 0
  {
    if k < d { NoDivisorAt(p, d - 1, k); }
  }

  lemma {:induction false} CofactorBelow(k: nat, j: nat, d: nat)
    requires k > d && k * j < (d + 1) * (d + 1)
    ensures j <= d
  {
    assert k * j >= (d + 1) * j;
    assert j > d ==> (d + 1) * j >= (d + 1) * (d + 1);
  }

  lemma {:induction false} CofactorAbove(k: nat, j: nat)
    requires k < k * j
    ensures j >= 2
  {
    assert j == 1 ==> k * j == k;
  }

  lemma {:induction false} NoDivisorBelow(p: nat, d: nat, k: nat)
    requires p < (d + 1) * (d + 1) && NoDivisor(p, d) && 2 <= k < p
    ensures p % k != 0
  {
    if k <= d {
      NoDivisorAt(p, d, k);
    } else if p % k == 0 {
      assert p == k * (p / k);
      NoCofactor(p, d, k, p / k);
    }
  }

  lemma {:induction false} NoCofactor(p: nat, d: nat, k: nat, j: nat)
    requires p < (d + 1) * (d + 1) && NoDivisor(p, d) && d < k < p
    ensures p != k * j
  {
    hide NoDivisor;
    if p == k * j {
      CofactorBelow(k, j, d);
      CofactorAbove(k, j);
      NoDivisorAt(p, d, j);
      DivModUnique(p, j, k, 0);
    }
  }

  /** Trial division up to the square root. */
  lemma {:induction false} TrialPrime(p: nat, d: nat)
    requires 2 <= p < (d + 1) * (d + 1) && NoDivisor(p, d)
    ensures IsPrime(p)
  {
    hide NoDivisor;
    forall k: nat | Divides(k, p) ensures k == 1 || k == p {
      RemIsMod(p, k);
      if k != p {
        DivisorInside(k, p);
        if k != 1 { NoDivisorBelow(p, d, k); }
      }
    }
  }
}
