/** How often each target is visited when all subshards of a scan are walked. */
module Coverage {
  import opened Modular
  import opened NumberTheory
  import opened Bits
  import opened Cyclic
  import opened FiniteSets
  import opened ShardWalk

  /** The bounds a group element is checked against: addresses, ports and the bits that hold a port. */
  datatype View = View(maxIndex: nat, portCount: nat, bits: nat)

  ghost predicate ValidView(w: View, c: Cycle)
  {
    && w.maxIndex < TWO_32 && w.bits <= 16 && w.portCount <= P2(w.bits)
    && w.maxIndex * P2(w.bits) <= c.order
  }

  /** A decoded element: positions in the address list and in the port list. */
  datatype Slot = Slot(ip: nat, port: nat)

  /** `v >> bits`. */
  function RawIndex(v: nat, bits: nat): nat
  {
    Ratio(v, P2(bits))
  }

  /** extract_ip, with its 32-bit cast. */
  function ExtractIp(v: nat, bits: nat): nat
  {
    RawIndex(v, bits) % TWO_32
  }

  /** extract_port, with its mask and 16-bit cast. */
  function ExtractPort(v: nat, bits: nat): nat
  {
    And(v, P2(bits) - 1) % 0x1_0000
  }

  function Decode(w: View, x: nat): Slot
    requires x > 0
  {
    Slot(ExtractIp(x - 1, w.bits), ExtractPort(x - 1, w.bits))
  }

  predicate InRange(w: View, t: Slot)
  {
    t.ip < w.maxIndex && t.port < w.portCount
  }

  /** The element passes the check: shard_roll_to_valid tests the uncast index of a subshard's first
      element, shard_get_next_target the cast index of the others. */
  predicate Accepts(w: View, x: nat, first: bool)
    requires x > 0
  {
    InRange(w, if first then Slot(RawIndex(x - 1, w.bits), ExtractPort(x - 1, w.bits)) else Decode(w, x))
  }

  predicate IsStart(order: nat, s: nat, j: nat)
    requires 0 < s <= order
  {
    j == ArcBegin(order, s, Owner(order, s, j))
  }

  ghost predicate AcceptsAt(c: Cycle, s: nat, w: View, j: nat)
    requires ValidCycle(c) && 0 < s <= c.order
  {
    ElementIsUnit(c, j);
    Accepts(w, Element(c, j), IsStart(c.order, s, j))
  }

  ghost function SlotAt(c: Cycle, w: View, j: nat): Slot
    requires ValidCycle(c)
  {
    ElementIsUnit(c, j);
    Decode(w, Element(c, j))
  }

  /** The slots returned while walking positions lo to hi. */
  ghost function Emitted(c: Cycle, s: nat, w: View, lo: nat, hi: nat): seq<Slot>
    requires ValidCycle(c) && 0 < s <= c.order && lo <= hi
  {
    if lo == hi then []
    else Emitted(c, s, w, lo, hi - 1) + (if AcceptsAt(c, s, w, hi - 1) then [SlotAt(c, w, hi - 1)] else [])
  }

  /** The slots returned by subshards 0 to n-1, one after another. */
  ghost function AllEmitted(c: Cycle, s: nat, w: View, n: nat): seq<Slot>
    requires ValidCycle(c) && 0 < s <= c.order && n <= s
  {
    if n == 0 then []
    else
      ArcBounds(c.order, s, n - 1);
      AllEmitted(c, s, w, n - 1) + Emitted(c, s, w, ArcBegin(c.order, s, n - 1), ArcEnd(c.order, s, n - 1))
  }

  lemma {:induction false} EmittedSplits(c: Cycle, s: nat, w: View, lo: nat, mid: nat, hi: nat)
    requires ValidCycle(c) && 0 < s <= c.order && lo <= mid <= hi
    ensures Emitted(c, s, w, lo, hi) == Emitted(c, s, w, lo, mid) + Emitted(c, s, w, mid, hi)
    decreases hi
  {
    if mid < hi {
      EmittedSplits(c, s, w, lo, mid, hi - 1);
    }
  }

  /** The subshards together walk the whole cycle. */
  lemma {:induction false} ShardsConcatenate(c: Cycle, s: nat, w: View, n: nat)
    requires ValidCycle(c) && 0 < s <= c.order && 0 < n <= s
    ensures AllEmitted(c, s, w, n) == Emitted(c, s, w, 0, ArcEnd(c.order, s, n - 1))
  {
    ArcBounds(c.order, s, n - 1);
    assert ArcBegin(c.order, s, 0) == 0;
    if n == 1 {
      assert AllEmitted(c, s, w, 0) == [];
    } else {
      ShardsConcatenate(c, s, w, n - 1);
      EmittedSplits(c, s, w, 0, ArcBegin(c.order, s, n - 1), ArcEnd(c.order, s, n - 1));
    }
  }

  /** The positions below n that return slot t. */
  ghost function Visits(c: Cycle, s: nat, w: View, t: Slot, n: nat): set<nat>
    requires ValidCycle(c) && 0 < s <= c.order
  {
    set j: nat | j < n && AcceptsAt(c, s, w, j) && SlotAt(c, w, j) == t
  }

  lemma {:induction false} CountIsVisits(c: Cycle, s: nat, w: View, t: Slot, n: nat)
    requires ValidCycle(c) && 0 < s <= c.order
    ensures multiset(Emitted(c, s, w, 0, n))[t] == |Visits(c, s, w, t, n)|
  {
    hide AcceptsAt, SlotAt, ValidCycle;
    if n == 0 {
      assert Visits(c, s, w, t, n) == {};
    } else {
      CountIsVisits(c, s, w, t, n - 1);
      VisitsNext(c, s, w, t, n - 1);
      hide Visits;
      var before := Emitted(c, s, w, 0, n - 1);
      assert Emitted(c, s, w, 0, n) ==
             before + (if AcceptsAt(c, s, w, n - 1) then [SlotAt(c, w, n - 1)] else []);
    }
  }

  lemma {:induction false} VisitsNext(c: Cycle, s: nat, w: View, t: Slot, n: nat)
    requires ValidCycle(c) && 0 < s <= c.order
    ensures |Visits(c, s, w, t, n + 1)| ==
            |Visits(c, s, w, t, n)| + if AcceptsAt(c, s, w, n) && SlotAt(c, w, n) == t then 1 else 0
  {
    hide AcceptsAt, SlotAt, ValidCycle;
    var before := Visits(c, s, w, t, n);
    if AcceptsAt(c, s, w, n) && SlotAt(c, w, n) == t {
      assert Visits(c, s, w, t, n + 1) == before + {n};
    } else {
      assert Visits(c, s, w, t, n + 1) == before;
    }
  }

  // ---------- Decoding ----------

  lemma {:induction false} PortIsLowBits(v: nat, bits: nat)
    requires bits <= 16
    ensures ExtractPort(v, bits) == v % P2(bits)
  {
    assert P2(bits) <= 65536 by {
      P2Monotone(bits, 16);
      assert P2(8) == 256 && P2(16) == 65536;
    }
    AndMask(v, bits);
    RemainderFits(v, P2(bits));
  }

  lemma {:induction false} RemainderFits(v: nat, u: nat)
    requires 0 < u <= 0x1_0000
    ensures v % u % 0x1_0000 == v % u
  {
  }

  /** The element that stands for slot t. */
  function ElementFor(w: View, t: Slot): nat
  {
    t.ip * P2(w.bits) + t.port + 1
  }

  lemma {:induction false} ElementForIs(w: View, t: Slot)
    ensures ElementFor(w, t) == t.ip * P2(w.bits) + t.port + 1
  {
  }

  lemma {:induction false} DivModCompose(ip: nat, port: nat, u: nat)
    requires port < u
    ensures (ip * u + port) / u == ip && (ip * u + port) % u == port
  {
    DivModUnique(ip * u + port, u, ip, port);
  }

  lemma {:induction false} SlotFits(ip: nat, port: nat, m: nat, u: nat)
    requires ip < m && port < u
    ensures ip * u + port < m * u
  {
    assert (ip + 1) * u <= m * u;
    assert (ip + 1) * u == ip * u + u;
  }

  /** Every slot in range has its own element, which decodes to it and is accepted anywhere. */
  lemma {:induction false} ElementForDecodes(c: Cycle, w: View, t: Slot)
    requires ValidCycle(c) && ValidView(w, c) && InRange(w, t)
    ensures IsUnit(ElementFor(w, t), c.group.prime)
    ensures Decode(w, ElementFor(w, t)) == t
    ensures Accepts(w, ElementFor(w, t), true) && Accepts(w, ElementFor(w, t), false)
  {
    hide P2, ValidCycle, RawIndex, ExtractPort, ExtractIp, Ratio;
    var u := P2(w.bits);
    var v := t.ip * u + t.port;
    CycleOrder(c);
    SlotFits(t.ip, t.port, w.maxIndex, u);
    RawOfSlot(t.ip, t.port, w.bits);
    PortIsLowBits(v, w.bits);
    DivModCompose(t.ip, t.port, u);
    IpUncast(v, w.bits);
  }

  lemma {:induction false} CycleOrder(c: Cycle)
    requires ValidCycle(c)
    ensures c.order + 1 == c.group.prime
  {
  }

  lemma {:induction false} RawOfSlot(ip: nat, port: nat, bits: nat)
    requires port < P2(bits)
    ensures RawIndex(ip * P2(bits) + port, bits) == ip
  {
    hide P2;
    DivModCompose(ip, port, P2(bits));
  }

  lemma {:induction false} IpUncast(v: nat, bits: nat)
    requires RawIndex(v, bits) < TWO_32
    ensures ExtractIp(v, bits) == RawIndex(v, bits)
  {
    hide RawIndex;
  }

  lemma {:induction false} DecodeParts(w: View, v: nat)
    requires w.bits <= 16 && RawIndex(v, w.bits) < TWO_32
    ensures Decode(w, v + 1).ip == RawIndex(v, w.bits) && Decode(w, v + 1).port == v % P2(w.bits)
  {
    PortIsLowBits(v, w.bits);
    IpUncast(v, w.bits);
  }

  /** Without the cast losing anything, decoding is injective. */
  lemma {:induction false} DecodeInjective(w: View, v: nat)
    requires w.bits <= 16 && RawIndex(v, w.bits) < TWO_32
    ensures v + 1 == ElementFor(w, Decode(w, v + 1))
  {
    DecodeParts(w, v);
    ElementForIs(w, Decode(w, v + 1));
    DivideAndMultiply(v, w.bits);
    hide *;
  }

  lemma {:induction false} DivideAndMultiply(v: nat, bits: nat)
    ensures RawIndex(v, bits) * P2(bits) + v % P2(bits) == v
  {
  }

  lemma {:induction false} AcceptedInRange(c: Cycle, s: nat, w: View, j: nat)
    requires ValidCycle(c) && 0 < s <= c.order && ValidView(w, c) && AcceptsAt(c, s, w, j)
    ensures InRange(w, SlotAt(c, w, j))
  {
    ElementIsUnit(c, j);
    if RawIndex(Element(c, j) - 1, w.bits) < TWO_32 {
      IpUncast(Element(c, j) - 1, w.bits);
    }
  }

  // ---------- Exactly once ----------

  /** An accepted element whose address index does not fit 32 bits repeats another element's slot. */
  ghost predicate Aliased(c: Cycle, s: nat, w: View, j: nat)
    requires ValidCycle(c) && 0 < s <= c.order
  {
    ElementIsUnit(c, j);
    AcceptsAt(c, s, w, j) && RawIndex(Element(c, j) - 1, w.bits) >= TWO_32
  }

  /** Every slot in range is visited at its own element. */
  lemma {:induction false} Visited(c: Cycle, s: nat, w: View, t: Slot) returns (j: nat)
    requires ValidCycle(c) && 0 < s <= c.order && ValidView(w, c) && InRange(w, t)
    ensures j in Visits(c, s, w, t, c.order) && Element(c, j) == ElementFor(w, t)
  {
    ElementForDecodes(c, w, t);
    j := Position(c, ElementFor(w, t));
  }

  /** A slot is visited at other positions only through aliased elements. */
  lemma {:induction false} OtherVisitsAreAliased(c: Cycle, s: nat, w: View, t: Slot, j: nat, k: nat)
    requires ValidCycle(c) && 0 < s <= c.order && ValidView(w, c)
    requires j in Visits(c, s, w, t, c.order) && Element(c, j) == ElementFor(w, t)
    requires k in Visits(c, s, w, t, c.order) && k != j
    ensures Aliased(c, s, w, k)
  {
    ElementIsUnit(c, k);
    if RawIndex(Element(c, k) - 1, w.bits) < TWO_32 {
      DecodeInjective(w, Element(c, k) - 1);
      if j < k { DifferentElements(c, j, k); } else { DifferentElements(c, k, j); }
    }
  }

  lemma {:induction false} SingletonSize(s: set<nat>, j: nat)
    requires j in s
    ensures |s| == 1 <==> forall k :: k in s ==> k == j
  {
    assert s == {j} + (s - {j});
  }

  /** Over all subshards, every slot in range is returned exactly once if and only if no accepted
      element is aliased. */
  lemma {:induction false} ExactlyOnceIff(c: Cycle, s: nat, w: View)
    requires ValidCycle(c) && 0 < s <= c.order && ValidView(w, c)
    ensures (forall t :: InRange(w, t) ==> multiset(AllEmitted(c, s, w, s))[t] == 1) <==>
            !exists j: nat :: j < c.order && Aliased(c, s, w, j)
  {
    var all := AllEmitted(c, s, w, s);
    ShardsConcatenate(c, s, w, s);
    forall t | InRange(w, t)
      ensures multiset(all)[t] == 1 <==> forall k :: k in Visits(c, s, w, t, c.order) ==> !Aliased(c, s, w, k)
    {
      CountIsVisits(c, s, w, t, c.order);
      SlotOnceIff(c, s, w, t);
    }
    if j: nat :| j < c.order && Aliased(c, s, w, j) {
      var t := SlotAt(c, w, j);
      AliasedSlot(c, s, w, j);
      assert j in Visits(c, s, w, t, c.order);
    }
  }

  lemma {:induction false} AliasedSlot(c: Cycle, s: nat, w: View, j: nat)
    requires ValidCycle(c) && 0 < s <= c.order && ValidView(w, c) && Aliased(c, s, w, j)
    ensures InRange(w, SlotAt(c, w, j)) && !IsStart(c.order, s, j)
  {
  }

  lemma {:induction false} SlotOnceIff(c: Cycle, s: nat, w: View, t: Slot)
    requires ValidCycle(c) && 0 < s <= c.order && ValidView(w, c) && InRange(w, t)
    ensures |Visits(c, s, w, t, c.order)| == 1 <==>
            forall k :: k in Visits(c, s, w, t, c.order) ==> !Aliased(c, s, w, k)
  {
    var visits := Visits(c, s, w, t, c.order);
    var j := Visited(c, s, w, t);
    SingletonSize(visits, j);
    forall k | k in visits && k != j ensures Aliased(c, s, w, k) {
      OtherVisitsAreAliased(c, s, w, t, j, k);
    }
    OwnElementNotAliased(c, s, w, t, j);
  }

  lemma {:induction false} OwnElementNotAliased(c: Cycle, s: nat, w: View, t: Slot, j: nat)
    requires ValidCycle(c) && 0 < s <= c.order && ValidView(w, c) && InRange(w, t)
    requires Element(c, j) == ElementFor(w, t)
    ensures !Aliased(c, s, w, j)
  {
    ElementForDecodes(c, w, t);
    DivModCompose(t.ip, t.port, P2(w.bits));
  }

  /** The width condition: if p - 1 is at most 2^(32 + bits), nothing is aliased. */
  lemma {:induction false} NarrowGroupsAreExact(c: Cycle, s: nat, w: View)
    requires ValidCycle(c) && 0 < s <= c.order && ValidView(w, c)
    requires c.order <= TWO_32 * P2(w.bits)
    ensures forall t :: InRange(w, t) ==> multiset(AllEmitted(c, s, w, s))[t] == 1
  {
    forall j: nat | j < c.order ensures !Aliased(c, s, w, j) {
      ElementIsUnit(c, j);
      QuotientBelow(Element(c, j) - 1, P2(w.bits), TWO_32);
    }
    ExactlyOnceIff(c, s, w);
  }

  // ---------- What a caller can check before the walk ----------

  /** The elements above 2^(32 + bits) whose slots are in range: the cast makes them repeat lower elements. */
  ghost function Repeats(c: Cycle, w: View): set<nat>
  {
    set x: nat | TWO_32 * P2(w.bits) < x < c.group.prime && InRange(w, Decode(w, x))
  }

  /** The first elements of the first n of s subshards, as shard_init computes them. */
  ghost function Starts(c: Cycle, s: nat, n: nat): set<nat>
    requires ValidCycle(c) && 0 < s <= c.order
  {
    set i: nat | i < n :: Element(c, ArcBegin(c.order, s, i))
  }

  /** An element is cut by the cast exactly when it lies above 2^(32 + bits). */
  lemma {:induction false} WideIffAbove(x: nat, bits: nat)
    requires x > 0
    ensures RawIndex(x - 1, bits) >= TWO_32 <==> x > TWO_32 * P2(bits)
  {
    hide P2;
    if x <= TWO_32 * P2(bits) {
      QuotientBelow(x - 1, P2(bits), TWO_32);
    } else {
      QuotientAtLeast(x - 1, P2(bits), TWO_32);
    }
  }

  lemma {:induction false} StartIsFirst(c: Cycle, s: nat, j: nat)
    requires ValidCycle(c) && 0 < s <= c.order && j < c.order
    ensures IsStart(c.order, s, j) <==> Element(c, j) in Starts(c, s, s)
  {
    CycleOrder(c);
    hide ValidCycle, Element, ArcBegin, Owner;
    ArcsPartition(c.order, s, j, 0);
    if IsStart(c.order, s, j) {
      assert Element(c, j) == Element(c, ArcBegin(c.order, s, Owner(c.order, s, j)));
    } else {
      forall i: nat | i < s ensures Element(c, ArcBegin(c.order, s, i)) != Element(c, j) {
        ArcBounds(c.order, s, i);
        var b := ArcBegin(c.order, s, i);
        ArcsPartition(c.order, s, b, i);
        if b < j { DifferentElements(c, b, j); } else if j < b { DifferentElements(c, j, b); }
      }
    }
  }

  lemma {:induction false} AliasedIff(c: Cycle, s: nat, w: View, j: nat)
    requires ValidCycle(c) && 0 < s <= c.order && ValidView(w, c) && j < c.order
    ensures Aliased(c, s, w, j) <==> Element(c, j) in Repeats(c, w) && Element(c, j) !in Starts(c, s, s)
  {
    hide ValidCycle, Element, P2, RawIndex, Starts, Decode, InRange;
    ElementIsUnit(c, j);
    StartIsFirst(c, s, j);
    WideIffAbove(Element(c, j), w.bits);
    if Aliased(c, s, w, j) {
      AliasedSlot(c, s, w, j);
    }
  }

  /** Over all s subshards, every slot in range is returned exactly once if and only if each element that the cast
      would repeat is the first element of a subshard, where the index is tested uncast. */
  lemma {:induction false} ExactIffStarts(c: Cycle, s: nat, w: View)
    requires ValidCycle(c) && 0 < s <= c.order && ValidView(w, c)
    ensures (forall t :: InRange(w, t) ==> multiset(AllEmitted(c, s, w, s))[t] == 1) <==>
            Repeats(c, w) <= Starts(c, s, s)
  {
    ExactlyOnceIff(c, s, w);
    hide InRange, ValidView, AllEmitted, Aliased, Starts, IsPrimitiveRoot, IsPrime;
    forall j: nat | j < c.order
      ensures Aliased(c, s, w, j) <==> Element(c, j) in Repeats(c, w) && Element(c, j) !in Starts(c, s, s)
    {
      AliasedIff(c, s, w, j);
    }
    forall x | x in Repeats(c, w) && x !in Starts(c, s, s)
      ensures exists j: nat :: j < c.order && Aliased(c, s, w, j)
    {
      var j := Position(c, x);
      assert Aliased(c, s, w, j);
    }
  }

  /** The elements above 2^(32 + bits) that return slot t once more. */
  ghost function RepeatsOf(c: Cycle, s: nat, w: View, t: Slot): set<nat>
    requires ValidCycle(c) && 0 < s <= c.order
  {
    set x | x in Repeats(c, w) && x !in Starts(c, s, s) && x > 0 && Decode(w, x) == t
  }

  ghost function ElementsAt(c: Cycle, ks: set<nat>): set<nat>
    requires c.group.prime > 0
  {
    set k | k in ks :: Element(c, k)
  }

  lemma {:induction false} ElementsAtSize(c: Cycle, ks: set<nat>)
    requires ValidCycle(c) && forall k :: k in ks ==> k < c.order
    ensures |ElementsAt(c, ks)| == |ks|
  {
    CycleOrder(c);
    hide Element, ValidCycle;
    if ks != {} {
      var k :| k in ks;
      var rest := ks - {k};
      ElementsAtSize(c, rest);
      assert ElementsAt(c, ks) == ElementsAt(c, rest) + {Element(c, k)};
      forall i | i in rest ensures Element(c, i) != Element(c, k) {
        if i < k { DifferentElements(c, i, k); } else { DifferentElements(c, k, i); }
      }
    }
  }

  lemma {:induction false} OtherVisits(c: Cycle, s: nat, w: View, t: Slot, j: nat)
    requires ValidCycle(c) && 0 < s <= c.order && ValidView(w, c) && InRange(w, t)
    requires j in Visits(c, s, w, t, c.order) && Element(c, j) == ElementFor(w, t)
    ensures ElementsAt(c, Visits(c, s, w, t, c.order) - {j}) == RepeatsOf(c, s, w, t)
  {
    CycleOrder(c);
    OwnElementNotAliased(c, s, w, t, j);
    hide ValidCycle, ValidView, Element, InRange, Repeats, Starts, ElementFor, IsStart, Accepts, Decode;
    var others := Visits(c, s, w, t, c.order) - {j};
    forall k | k in others ensures Element(c, k) in RepeatsOf(c, s, w, t) {
      ElementIsUnit(c, k);
      OtherVisitsAreAliased(c, s, w, t, j, k);
      AliasedIff(c, s, w, k);
    }
    forall x | x in RepeatsOf(c, s, w, t) ensures x in ElementsAt(c, others) {
      RepeatIsUnit(c, w, x);
      var k := Position(c, x);
      AliasedIff(c, s, w, k);
      assert k in others;
    }
  }

  lemma {:induction false} RepeatIsUnit(c: Cycle, w: View, x: nat)
    requires x in Repeats(c, w)
    ensures IsUnit(x, c.group.prime)
  {
  }

  /** How often a slot in range is returned over all s subshards: once, and once more for each element above
      2^(32 + bits) that decodes to it and does not start a subshard. */
  lemma {:induction false} SlotCount(c: Cycle, s: nat, w: View, t: Slot)
    requires ValidCycle(c) && 0 < s <= c.order && ValidView(w, c) && InRange(w, t)
    ensures multiset(AllEmitted(c, s, w, s))[t] == 1 + |RepeatsOf(c, s, w, t)|
  {
    ShardsConcatenate(c, s, w, s);
    assert ArcEnd(c.order, s, s - 1) == c.order;
    hide *;
    CountIsVisits(c, s, w, t, c.order);
    var visits := Visits(c, s, w, t, c.order);
    var j := Visited(c, s, w, t);
    VisitsBounded(c, s, w, t);
    ElementsAtSize(c, visits - {j});
    OtherVisits(c, s, w, t, j);
  }

  lemma {:induction false} VisitsBounded(c: Cycle, s: nat, w: View, t: Slot)
    requires ValidCycle(c) && 0 < s <= c.order
    ensures forall k :: k in Visits(c, s, w, t, c.order) ==> k < c.order
  {
  }

  lemma {:induction false} StartsSize(c: Cycle, s: nat, n: nat)
    requires ValidCycle(c) && 0 < s <= c.order
    ensures |Starts(c, s, n)| <= n
  {
    CycleOrder(c);
    hide ValidCycle, Element, ArcBegin;
    if n == 0 {
      assert Starts(c, s, n) == {};
    } else {
      StartsSize(c, s, n - 1);
      assert Starts(c, s, n) == Starts(c, s, n - 1) + {Element(c, ArcBegin(c.order, s, n - 1))};
    }
  }

  /** The elements just above 2^(32 + bits) decode to the first slots again. */
  lemma {:induction false} LowSlotsRepeat(w: View, i: nat)
    requires w.bits <= 16 && w.maxIndex >= 1 && w.portCount >= 1
    requires w.maxIndex < TWO_32 && w.portCount <= P2(w.bits)
    requires i < if w.bits == 0 then w.maxIndex else w.portCount
    ensures InRange(w, Decode(w, TWO_32 * P2(w.bits) + i + 1))
  {
    hide P2, Decode, InRange;
    if w.bits == 0 {
      NoPortBits();
      CastOnce(i);
      DecodesTo(w, TWO_32 + i, 0);
    } else {
      CastOnce(0);
      DecodesTo(w, TWO_32, i);
    }
  }

  lemma {:induction false} NoPortBits()
    ensures P2(0) == 1
  {
  }

  lemma {:induction false} CastOnce(i: nat)
    requires i < TWO_32
    ensures (TWO_32 + i) % TWO_32 == i
  {
  }

  lemma {:induction false} DecodesTo(w: View, ip: nat, port: nat)
    requires w.bits <= 16 && port < P2(w.bits) && ip % TWO_32 < w.maxIndex && port < w.portCount
    ensures InRange(w, Decode(w, ip * P2(w.bits) + port + 1))
  {
    hide P2, RawIndex, ExtractPort;
    RawOfSlot(ip, port, w.bits);
    PortIsLowBits(ip * P2(w.bits) + port, w.bits);
    DivModCompose(ip, port, P2(w.bits));
  }

  /** How many elements repeat, at least: as many as lie above 2^(32 + bits), up to the addresses of a scan without
      port bits and up to the ports of any other. */
  lemma {:induction false} ManyRepeats(c: Cycle, w: View, k: nat)
    requires ValidCycle(c) && ValidView(w, c) && w.maxIndex >= 1 && w.portCount >= 1
    requires k <= (if w.bits == 0 then w.maxIndex else w.portCount) && TWO_32 * P2(w.bits) + k <= c.order
    ensures |Repeats(c, w)| >= k
  {
    var base := TWO_32 * P2(w.bits);
    var low := Range(base + 1, base + 1 + k);
    RangeSize(base + 1, base + 1 + k);
    forall x | x in low ensures x in Repeats(c, w) {
      LowSlotsRepeat(w, x - base - 1);
    }
    SubsetSize(low, Repeats(c, w));
  }

  lemma {:induction false} RepeatsNoneIff(c: Cycle, w: View)
    requires ValidCycle(c) && ValidView(w, c) && w.maxIndex >= 1 && w.portCount >= 1
    ensures Repeats(c, w) == {} <==> c.order <= TWO_32 * P2(w.bits)
  {
    if c.order > TWO_32 * P2(w.bits) {
      ManyRepeats(c, w, 1);
    }
  }

  /** With fewer subshards than repeating elements, exactly-once holds precisely when p - 1 is at most
      2^(32 + bits), so that there are no such elements. */
  lemma {:induction false} FewShardsExactIff(c: Cycle, s: nat, w: View)
    requires ValidCycle(c) && 0 < s <= c.order && ValidView(w, c) && w.maxIndex >= 1 && w.portCount >= 1
    requires s < |Repeats(c, w)| || c.order <= TWO_32 * P2(w.bits)
    ensures (forall t :: InRange(w, t) ==> multiset(AllEmitted(c, s, w, s))[t] == 1) <==>
            c.order <= TWO_32 * P2(w.bits)
  {
    hide *;
    ExactIffStarts(c, s, w);
    RepeatsNoneIff(c, w);
    StartsSize(c, s, s);
    if Repeats(c, w) <= Starts(c, s, s) {
      SubsetSize(Repeats(c, w), Starts(c, s, s));
    }
  }

  lemma {:induction false} PrimeIsOdd(p: nat, k: nat)
    requires IsPrime(p) && p > 2
    ensures p != 2 * k
  {
    if p == 2 * k {
      DividesProduct(2, k);
    }
  }

  /** p - 1 is even, so a group that is too wide has at least two such elements. */
  lemma {:induction false} WideRepeatsTwice(c: Cycle, w: View)
    requires ValidCycle(c) && ValidView(w, c) && w.maxIndex >= 1 && w.portCount >= 1
    requires if w.bits == 0 then w.maxIndex >= 2 else w.portCount >= 2
    ensures c.order > TWO_32 * P2(w.bits) ==> |Repeats(c, w)| >= 2
  {
    if c.order > TWO_32 * P2(w.bits) {
      PrimeIsOdd(c.group.prime, TWO_32 / 2 * P2(w.bits) + 1);
      ManyRepeats(c, w, 2);
    }
  }

  /** In particular with one subshard. */
  lemma {:induction false} SingleShardExactIff(c: Cycle, w: View)
    requires ValidCycle(c) && ValidView(w, c) && w.maxIndex >= 1 && w.portCount >= 1
    requires if w.bits == 0 then w.maxIndex >= 2 else w.portCount >= 2
    ensures (forall t :: InRange(w, t) ==> multiset(AllEmitted(c, 1, w, 1))[t] == 1) <==>
            c.order <= TWO_32 * P2(w.bits)
  {
    hide *;
    WideRepeatsTwice(c, w);
    CycleOrder(c);
    CyclePeriod(c);
    FewShardsExactIff(c, 1, w);
  }
}
