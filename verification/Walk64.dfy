/** src/shard.c as it walks whatever the generator: 64-bit products, reduced, until the last element comes up. */
module Walk64 {
  import opened Bits
  import opened Modular
  import opened NumberTheory
  import opened Cyclic
  import opened ShardWalk
  import opened Coverage
  import S = Shard

  /** The element the walk stands at after k steps. */
  function Reached(c: Cycle, first: nat, k: nat): nat
    requires c.group.prime > 0
  {
    if k == 0 then first else S.Step(Reached(c, first, k - 1), c.generator, c.group.prime)
  }

  /** The walk ends with step k: the first to come to its last element. */
  ghost predicate EndsAt(c: Cycle, first: nat, last: nat, k: nat)
    requires c.group.prime > 0
  {
    k > 0 && Reached(c, first, k) == last && forall j: nat :: 0 < j < k ==> Reached(c, first, j) != last
  }

  /** The decrement before an element is decoded, in 64 bits: the walk may come to 0. */
  function Before(x: nat): nat
  {
    if x == 0 then TWO_64 - 1 else x - 1
  }

  function SlotOf(w: View, x: nat): Slot
  {
    Slot(ExtractIp(Before(x), w.bits), ExtractPort(Before(x), w.bits))
  }

  predicate Accepted(w: View, x: nat, first: bool)
  {
    InRange(w, if first then Slot(RawIndex(Before(x), w.bits), ExtractPort(Before(x), w.bits)) else SlotOf(w, x))
  }

  /** The slots returned in the first k steps. */
  function Returned(c: Cycle, w: View, first: nat, k: nat): seq<Slot>
    requires c.group.prime > 0
  {
    if k == 0 then []
    else
      var x := Reached(c, first, k - 1);
      Returned(c, w, first, k - 1) + if Accepted(w, x, k == 1) then [SlotOf(w, x)] else []
  }

  // ---------- With room for the products ----------

  lemma {:induction false} ReachedIsElement(c: Cycle, b: nat, k: nat)
    requires ValidCycle(c) && S.WidthOk(c.generator, c.group.prime)
    ensures Reached(c, Element(c, b), k) == Element(c, b + k)
  {
    hide S.Step, Element, S.WidthOk, IsPrimitiveRoot, IsPrime;
    if k > 0 {
      ReachedIsElement(c, b, k - 1);
      ElementIsUnit(c, b + (k - 1));
      S.StepInGroup(Element(c, b + (k - 1)), c.generator, c.group.prime);
      ElementStep(c, b + (k - 1));
    }
  }

  /** Then the walk of a subshard is the walk of its arc: it ends, at the end of the arc, and returns its slots. */
  lemma {:induction false} WalkIsArc(c: Cycle, s: nat, w: View, i: nat, k: nat)
    requires ValidCycle(c) && S.WidthOk(c.generator, c.group.prime) && i < s <= c.order
    ensures var b, e := ArcBegin(c.order, s, i), ArcEnd(c.order, s, i);
            && b < e && (EndsAt(c, Element(c, b), Element(c, e), k) <==> k == e - b)
            && Returned(c, w, Element(c, b), e - b) == Emitted(c, s, w, b, e)
  {
    ArcBounds(c.order, s, i);
    ReturnedIsEmitted(c, s, w, i, ArcEnd(c.order, s, i) - ArcBegin(c.order, s, i));
    EndsWithArc(c, ArcBegin(c.order, s, i), ArcEnd(c.order, s, i), k);
  }

  lemma {:induction false} EndsWithArc(c: Cycle, b: nat, e: nat, k: nat)
    requires ValidCycle(c) && S.WidthOk(c.generator, c.group.prime) && b < e <= c.order
    ensures EndsAt(c, Element(c, b), Element(c, e), k) <==> k == e - b
  {
    hide Element, Reached, S.WidthOk, IsPrimitiveRoot, IsPrime;
    forall j: nat | 0 < j <= e - b
      ensures Reached(c, Element(c, b), j) == Element(c, e) <==> j == e - b
    {
      ReachedIsElement(c, b, j);
      if j < e - b { DifferentElements(c, b + j, e); }
    }
    if k > e - b {
      assert Reached(c, Element(c, b), e - b) == Element(c, e);
    }
  }

  lemma {:induction false} ReturnedIsEmitted(c: Cycle, s: nat, w: View, i: nat, k: nat)
    requires ValidCycle(c) && S.WidthOk(c.generator, c.group.prime) && i < s <= c.order
    requires k <= ArcEnd(c.order, s, i) - ArcBegin(c.order, s, i)
    ensures var b := ArcBegin(c.order, s, i);
            Returned(c, w, Element(c, b), k) == Emitted(c, s, w, b, b + k)
  {
    hide Element, S.WidthOk, IsPrimitiveRoot, IsPrime, ArcBegin, ArcEnd, Owner;
    if k > 0 {
      var b := ArcBegin(c.order, s, i);
      var j := b + (k - 1);
      ReturnedIsEmitted(c, s, w, i, k - 1);
      ReachedIsElement(c, b, k - 1);
      ElementIsUnit(c, j);
      S.OnlyBeginIsStart(c.order, s, i, j);
    }
  }

  // ---------- Without ----------

  lemma {:induction false} SameOnward(c: Cycle, first: nat, i: nat, j: nat, m: nat)
    requires c.group.prime > 0 && Reached(c, first, i) == Reached(c, first, j)
    ensures Reached(c, first, i + m) == Reached(c, first, j + m)
  {
    if m > 0 {
      SameOnward(c, first, i, j, m - 1);
    }
  }

  /** A walk that ends does not pass two elements with the same successor. */
  lemma {:induction false} NoTwoToOne(c: Cycle, first: nat, last: nat, k: nat, i: nat, j: nat)
    requires c.group.prime > 0 && EndsAt(c, first, last, k) && i < j < k
    ensures Reached(c, first, i + 1) != Reached(c, first, j + 1)
  {
    if Reached(c, first, i + 1) == Reached(c, first, j + 1) {
      SameOnward(c, first, i + 1, j + 1, k - (j + 1));
    }
  }

  /** A slot that only element x stands for is returned only where the walk passes x. */
  lemma {:induction false} ReturnedOnlyAt(c: Cycle, w: View, first: nat, k: nat, t: Slot, x: nat)
    requires first < c.group.prime && t in Returned(c, w, first, k)
    requires forall y: nat :: y < c.group.prime && SlotOf(w, y) == t ==> y == x
    ensures exists i: nat :: i < k && Reached(c, first, i) == x
  {
    var y := Reached(c, first, k - 1);
    if t in Returned(c, w, first, k - 1) {
      ReturnedOnlyAt(c, w, first, k - 1, t, x);
    } else {
      assert SlotOf(w, y) == t;
      assert y == x;
    }
  }

  /** Two elements with the same successor, each the only one for its slot: a walk that ends misses one of the two
      slots. */
  lemma {:induction false} OneOfTwoMissed(c: Cycle, w: View, first: nat, last: nat, k: nat, x: nat, y: nat)
    requires first < c.group.prime && EndsAt(c, first, last, k) && x != y
    requires S.Step(x, c.generator, c.group.prime) == S.Step(y, c.generator, c.group.prime)
    requires forall z: nat :: z < c.group.prime && SlotOf(w, z) == SlotOf(w, x) ==> z == x
    requires forall z: nat :: z < c.group.prime && SlotOf(w, z) == SlotOf(w, y) ==> z == y
    ensures SlotOf(w, x) !in Returned(c, w, first, k) || SlotOf(w, y) !in Returned(c, w, first, k)
  {
    hide S.Step, SlotOf, EndsAt;
    if SlotOf(w, x) in Returned(c, w, first, k) && SlotOf(w, y) in Returned(c, w, first, k) {
      ReturnedOnlyAt(c, w, first, k, SlotOf(w, x), x);
      ReturnedOnlyAt(c, w, first, k, SlotOf(w, y), y);
      var i: nat :| i < k && Reached(c, first, i) == x;
      var j: nat :| j < k && Reached(c, first, j) == y;
      if i < j { NoTwoToOne(c, first, last, k, i, j); } else { NoTwoToOne(c, first, last, k, j, i); }
    }
  }
}
