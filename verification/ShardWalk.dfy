/** The arcs of the cycle that shards walk, and why together they pass every group element once. */
module ShardWalk {
  import opened Modular
  import opened NumberTheory
  import opened Bits
  import opened Cyclic

  /** A cycle as make_cycle builds it. */
  ghost predicate ValidCycle(c: Cycle)
  {
    && IsPrime(c.group.prime) && c.group.prime > 2
    && IsPrimitiveRoot(c.generator, c.group.prime)
    && c.order == c.group.prime - 1
  }

  /** The jth element of the cycle, counted from the offset. */
  function Element(c: Cycle, j: nat): nat
    requires c.group.prime > 0
  {
    Rem(Pow(c.generator, c.offset + j), c.group.prime)
  }

  /** Subshard i of s walks positions ArcBegin to ArcEnd; the last one takes the remainder. */
  function ArcBegin(order: nat, s: nat, i: nat): nat
    requires s > 0
  {
    (order / s) * i
  }

  function ArcEnd(order: nat, s: nat, i: nat): nat
    requires s > 0
  {
    if i + 1 == s then order else ArcBegin(order, s, i + 1)
  }

  lemma {:induction false} ArcBounds(order: nat, s: nat, i: nat)
    requires 0 < s <= order && i < s
    ensures ArcBegin(order, s, i) < ArcEnd(order, s, i) <= order
  {
    var w := order / s;
    assert w >= 1 && w * s <= order;
    assert w * (i + 1) == w * i + w;
    assert w * (i + 1) <= w * s;
  }

  /** The arc that owns a position. */
  function Owner(order: nat, s: nat, j: nat): nat
    requires 0 < s <= order
  {
    if j / (order / s) < s then j / (order / s) else s - 1
  }

  /** j / w is the only multiple-of-w block holding j. */
  lemma {:induction false} BlockOf(w: nat, j: nat, i: nat)
    requires w > 0
    ensures w * i <= j <==> i <= j / w
    ensures j < w * i + w <==> j / w <= i
  {
    var q := j / w;
    QuotientSpan(j, w);
    Monotone(w, i, q);
    Monotone(w, q + 1, i);
    Monotone(w, q, i);
    Monotone(w, i + 1, q);
    assert w * (q + 1) == w * q + w && w * (i + 1) == w * i + w;
  }

  lemma {:induction false} QuotientSpan(j: nat, w: nat)
    requires w > 0
    ensures w * (j / w) <= j < w * (j / w) + w
  {
  }

  lemma {:induction false} Monotone(w: nat, a: nat, b: nat)
    ensures a <= b ==> w * a <= w * b
  {
  }

  /** The arcs partition the positions: exactly the owner's arc contains a position. */
  lemma {:induction false} ArcsPartition(order: nat, s: nat, j: nat, i: nat)
    requires 0 < s <= order && j < order && i < s
    ensures Owner(order, s, j) < s
    ensures ArcBegin(order, s, i) <= j < ArcEnd(order, s, i) <==> i == Owner(order, s, j)
  {
    var w := order / s;
    assert w >= 1;
    BlockOf(w, j, i);
    var e := w * (i + 1);
    assert e == w * i + w;
    var q := j / w;
    assert Owner(order, s, j) == if q < s then q else s - 1;
  }

  /** The exponent of shard_init's first element. */
  function BeginExponent(order: nat, s: nat, i: nat, offset: nat): nat
    requires 0 < s && 0 < order
  {
    (order / s * i + offset) % order
  }

  /** The exponent of the element it stops at. */
  function EndExponent(order: nat, s: nat, i: nat, offset: nat): nat
    requires 0 < s && 0 < order
  {
    (order / s * ((i + 1) % s) + offset) % order
  }

  lemma {:induction false} ExponentsAre(order: nat, s: nat, i: nat, offset: nat)
    requires 0 < s <= order && i < s
    ensures BeginExponent(order, s, i, offset) == (ArcBegin(order, s, i) + offset) % order
    ensures EndExponent(order, s, i, offset) ==
            if i + 1 == s then (0 + offset) % order else (ArcEnd(order, s, i) + offset) % order
  {
    if i + 1 == s { LastArc(order / s, i, s); } else { NextArc(i, s); }
  }

  /** The exponents shard_init computes start at the arc's first element and stop at the next arc's. */
  lemma {:induction false} ArcElements(c: Cycle, s: nat, i: nat)
    requires ValidCycle(c) && 0 < s <= c.order && i < s
    ensures Rem(Pow(c.generator, BeginExponent(c.order, s, i, c.offset)), c.group.prime) ==
            Element(c, ArcBegin(c.order, s, i))
    ensures Rem(Pow(c.generator, EndExponent(c.order, s, i, c.offset)), c.group.prime) ==
            Element(c, ArcEnd(c.order, s, i))
  {
    CyclePeriod(c);
    hide Rem, Pow, ValidCycle, BeginExponent, EndExponent, ArcBegin;
    var g, q, p := c.generator, c.order, c.group.prime;
    ExponentsAre(q, s, i, c.offset);
    StartExponent(g, q, p, ArcBegin(q, s, i), c.offset);
    if i + 1 == s {
      FullTurn(g, q, p, c.offset);
    } else {
      StartExponent(g, q, p, ArcEnd(q, s, i), c.offset);
    }
  }

  lemma {:induction false} CyclePeriod(c: Cycle)
    requires ValidCycle(c)
    ensures c.group.prime > 1 && c.order > 0 && Rem(Pow(c.generator, c.order), c.group.prime) == 1
  {
    hide Rem, Pow;
  }

  lemma {:induction false} StartExponent(g: nat, q: nat, p: nat, x: nat, offset: nat)
    requires p > 1 && q > 0 && Rem(Pow(g, q), p) == 1
    ensures Rem(Pow(g, (x + offset) % q), p) == Rem(Pow(g, offset + x), p)
  {
    hide *;
    PowPeriod(g, q, x + offset, p);
    assert x + offset == offset + x;
  }

  lemma {:induction false} FullTurn(g: nat, q: nat, p: nat, offset: nat)
    requires p > 1 && q > 0 && Rem(Pow(g, q), p) == 1
    ensures Rem(Pow(g, (0 + offset) % q), p) == Rem(Pow(g, offset + q), p)
  {
    hide *;
    PowPeriod(g, q, offset, p);
    PowShift(g, q, offset, p);
    assert 0 + offset == offset && offset + q == q + offset;
  }

  lemma {:induction false} LastArc(w: nat, i: nat, s: nat)
    requires i + 1 == s
    ensures w * ((i + 1) % s) == 0
  {
    DivModUnique(i + 1, s, 1, 0);
  }

  lemma {:induction false} NextArc(i: nat, s: nat)
    requires i + 1 < s
    ensures (i + 1) % s == i + 1
  {
    DivModUnique(i + 1, s, 0, i + 1);
  }

  lemma {:induction false} DifferentElements(c: Cycle, j: nat, k: nat)
    requires ValidCycle(c) && j < k < j + c.order
    ensures Element(c, j) != Element(c, k)
  {
    DifferentPowers(c.generator, c.group.prime, c.offset + j, c.offset + k);
  }

  lemma {:induction false} StartOf(c: Cycle)
    requires ValidCycle(c)
    ensures c.order > 0 && Element(c, 0) == Rem(Pow(c.generator, c.offset % c.order), c.group.prime)
  {
    hide Pow, Rem;
    PowPeriod(c.generator, c.order, c.offset, c.group.prime);
  }

  /** Second words start the walk at the same element exactly if their offsets agree modulo p - 1. */
  lemma {:induction false} SameStartIff(c: Cycle, d: Cycle, word: nat, v: nat, w: nat)
    requires ValidCycle(c) && ValidCycle(d) && c.group == d.group
    requires Seeded(c, word, v) && Seeded(d, word, w)
    ensures var p := c.group.prime;
            Element(c, 0) == Element(d, 0) <==> v % TWO_32 % p % (p - 1) == w % TWO_32 % p % (p - 1)
  {
    StartOf(c);
    StartOf(d);
    SameGenerator(c, d, word, v, w);
    var p, i, j := c.group.prime, c.offset % c.order, d.offset % c.order;
    assert IsPrimitiveRoot(c.generator, p);
    hide FirstRoot, IsPrimitiveRoot, IsPrime, Rem, Pow, Element;
    if i < j {
      DifferentPowers(c.generator, p, i, j);
    } else if j < i {
      DifferentPowers(c.generator, p, j, i);
    }
  }

  lemma {:induction false} SameGenerator(c: Cycle, d: Cycle, word: nat, v: nat, w: nat)
    requires Seeded(c, word, v) && Seeded(d, word, w) && c.group == d.group
    ensures c.generator == d.generator
  {
    hide FirstRoot;
    SeededUnique(c, d.(offset := c.offset), word, v);
  }

  lemma {:induction false} ElementIsUnit(c: Cycle, j: nat)
    requires ValidCycle(c)
    ensures IsUnit(Element(c, j), c.group.prime)
  {
    PowerIsUnit(c.generator, c.group.prime, c.offset + j);
  }

  /** One multiplication by the generator moves one position along the cycle. */
  lemma {:induction false} ElementStep(c: Cycle, j: nat)
    requires ValidCycle(c)
    ensures Rem(Element(c, j) * c.generator, c.group.prime) == Element(c, j + 1)
  {
    PowNext(c.generator, c.offset + j, c.group.prime);
  }

  /** Every group element is at exactly one position of the cycle. */
  lemma {:induction false} Position(c: Cycle, x: nat) returns (j: nat)
    requires ValidCycle(c) && IsUnit(x, c.group.prime)
    ensures j < c.order && Element(c, j) == x
    ensures forall k: nat :: k < c.order && Element(c, k) == x ==> k == j
  {
    var g, p, q := c.generator, c.group.prime, c.order;
    var e := PowersCover(g, p, x);
    var o := c.offset % q;
    j := if e >= o then e - o else e + q - o;
    SplitByOrder(c.offset, q, j);
    PositionExponent(c, e, o, j, c.offset / q);
    forall k: nat | k < q && Element(c, k) == x ensures k == j {
      if k < j { DifferentElements(c, k, j); } else if j < k { DifferentElements(c, j, k); }
    }
  }

  lemma {:induction false} SplitByOrder(x: nat, q: nat, j: nat)
    requires q > 0
    ensures x + j == q * (x / q) + (x % q + j)
  {
  }

  lemma {:induction false} PositionExponent(c: Cycle, e: nat, o: nat, j: nat, m: nat)
    requires ValidCycle(c) && c.offset + j == c.order * m + (o + j) && (o + j == e || o + j == e + c.order)
    ensures Element(c, j) == Rem(Pow(c.generator, e), c.group.prime)
  {
    CyclePeriod(c);
    hide Rem, Pow, ValidCycle;
    var g, p, q := c.generator, c.group.prime, c.order;
    PowShiftMany(g, q, m, o + j, p);
    if o + j == e + q {
      PowShift(g, q, e, p);
      assert q + e == o + j;
    }
  }
}
