/** src/iterator.c: sizing the group for a scan. */
module Iterator {
  import opened Modular
  import opened NumberTheory
  import opened Bits
  import opened Cyclic
  import opened GroupCertificates
  import opened ShardWalk
  import opened Coverage

  function BitLength(m: nat): nat
  {
    if m == 0 then 0 else 1 + BitLength(m / 2)
  }

  lemma {:induction false} BitLengthBounds(m: nat)
    ensures m < P2(BitLength(m))
    ensures m > 0 ==> P2(BitLength(m) - 1) <= m
  {
    if m > 0 {
      BitLengthBounds(m / 2);
    }
  }

  /** bits_needed, with its unsigned decrement: the least r with n <= 2^r. */
  method BitsNeeded(n: nat) returns (r: nat)
    requires n < TWO_64
    ensures n > 0 ==> n <= P2(r) && (r == 0 || P2(r - 1) < n)
    ensures n == 0 ==> r == 64
  {
    hide P2;
    var m: nat := (n + TWO_64 - 1) % TWO_64;
    assert m == if n == 0 then TWO_64 - 1 else n - 1;
    r := 0;
    ghost var start := m;
    while m != 0
      invariant r + BitLength(m) == BitLength(start)
    {
      r := r + 1;
      m := m / 2;
    }
    BitLengthBounds(start);
    if n == 0 {
      SixtyFourBits(r);
    }
  }

  lemma {:induction false} SixtyFourBits(r: nat)
    requires TWO_64 - 1 < P2(r) && (r == 0 || P2(r - 1) <= TWO_64 - 1)
    ensures r == 64
  {
    WordSizes();
    if r < 64 {
      P2Monotone(r, 63);
    } else if r > 64 {
      P2Monotone(64, r - 1);
    }
  }

  lemma {:induction false} BitsAtMost(n: nat, r: nat, k: nat)
    requires n <= P2(k) && (r == 0 || P2(r - 1) < n)
    ensures r <= k
  {
    if r > k {
      P2Monotone(k, r - 1);
    }
  }

  lemma {:induction false} MulAtMost(a: nat, b: nat, c: nat, d: nat)
    requires a <= c && b <= d
    ensures a * b <= c * d
  {
    assert a * b <= c * b <= c * d;
  }

  /** The group iterator_init picks holds every slot of the scan, whatever generator it gets. */
  lemma {:induction false} GroupHoldsScan(numAddrs: nat, numPorts: nat, ipBits: nat, portBits: nat, order: nat)
    requires numAddrs <= P2(ipBits) && numPorts <= P2(portBits) && P2(ipBits + portBits) <= order
    ensures numAddrs * P2(portBits) <= order
  {
    P2Sum(ipBits, portBits);
    MulAtMost(numAddrs, P2(portBits), P2(ipBits), P2(portBits));
  }

  /** r is the least number of bits for n values. */
  predicate BitsFor(n: nat, r: nat)
  {
    n <= P2(r) && (r == 0 || P2(r - 1) < n)
  }

  lemma {:induction false} BitsForUnique(n: nat, r: nat, s: nat)
    requires BitsFor(n, r) && BitsFor(n, s)
    ensures r == s
  {
    hide P2;
    BitsAtMost(n, r, s);
    BitsAtMost(n, s, r);
  }

  /** The smallest table group above 2^bits. */
  ghost predicate SmallestAbove(group: Group, bits: nat)
  {
    && group in GROUPS && group.prime > P2(bits)
    && forall other :: other in GROUPS && other.prime > P2(bits) ==> group.prime <= other.prime
  }

  lemma {:induction false} RowIndex(g: Group) returns (i: nat)
    requires g in GROUPS
    ensures i < |GROUPS| && g == GROUPS[i]
  {
    hide GROUPS;
    i :| i < |GROUPS| && g == GROUPS[i];
  }

  lemma {:induction false} SmallestUnique(g: Group, h: Group, bits: nat)
    requires SmallestAbove(g, bits) && SmallestAbove(h, bits)
    ensures g == h
  {
    hide P2, GROUPS;
    var i := RowIndex(g);
    var j := RowIndex(h);
    if i < j { TableAscends(i, j); }
    if j < i { TableAscends(j, i); }
  }

  /** The cycle and the bounds that the size of a scan and two random words lead to. */
  ghost predicate Chosen(numAddrs: nat, numPorts: nat, word: nat, nextWord: nat, c: Cycle, w: View)
  {
    && w.maxIndex == numAddrs && w.portCount == numPorts && BitsFor(numPorts, w.bits)
    && (exists ipBits: nat :: BitsFor(numAddrs, ipBits) && SmallestAbove(c.group, ipBits + w.bits))
    && Seeded(c, word, nextWord)
  }

  /** They are settled, so that the shards of a scan agree on them. */
  lemma {:induction false} ChosenUnique(numAddrs: nat, numPorts: nat, word: nat, nextWord: nat, c: Cycle, w: View,
                                        d: Cycle, v: View)
    requires Chosen(numAddrs, numPorts, word, nextWord, c, w) && Chosen(numAddrs, numPorts, word, nextWord, d, v)
    ensures c == d && w == v
  {
    hide BitsFor, SmallestAbove, Seeded;
    BitsForUnique(numPorts, w.bits, v.bits);
    var i: nat :| BitsFor(numAddrs, i) && SmallestAbove(c.group, i + w.bits);
    var j: nat :| BitsFor(numAddrs, j) && SmallestAbove(d.group, j + v.bits);
    BitsForUnique(numAddrs, i, j);
    SmallestUnique(c.group, d.group, i + w.bits);
    SeededUnique(c, d, word, nextWord);
  }

  // ---------- When the 32-bit address of an element loses nothing ----------

  /** Row r of the table holds a prime just above 2^EXPONENTS[r]. */
  const EXPONENTS: seq<nat> := [8, 16, 24, 28, 32, 33, 34, 36, 40, 44, 48]

  /** For 0 to 16 port bits: the address bits up to which 32 bits of address cover the group, and its row there. */
  const NARROW: seq<nat> := [28, 31, 31, 31, 30, 31, 30, 29, 28, 31, 30, 29, 28, 31, 30, 29, 28]
  const NARROW_ROWS: seq<nat> := [3, 4, 5, 6, 6, 7, 7, 7, 7, 8, 8, 8, 8, 9, 9, 9, 9]

  lemma {:induction false} P2Values()
    ensures P2(8) == 0x100 && P2(16) == 0x1_0000 && P2(24) == 0x100_0000 && P2(28) == 0x1000_0000
    ensures P2(32) == 0x1_0000_0000 && P2(33) == 0x2_0000_0000 && P2(34) == 0x4_0000_0000
    ensures P2(36) == 0x10_0000_0000 && P2(40) == 0x100_0000_0000 && P2(44) == 0x1000_0000_0000
    ensures P2(48) == 0x1_0000_0000_0000
  {
  }

  lemma {:induction false} RowExponent(row: nat)
    requires row < |GROUPS|
    ensures |EXPONENTS| == |GROUPS| && P2(EXPONENTS[row]) < GROUPS[row].prime <= P2(EXPONENTS[row] + 1)
    ensures row >= 2 ==> P2(EXPONENTS[row]) + 1 < GROUPS[row].prime
  {
    P2Values();
    P2Next(EXPONENTS[row]);
    hide P2;
  }

  lemma {:induction false} NarrowTable(portBits: nat)
    requires portBits <= 16
    ensures |NARROW| == |NARROW_ROWS| == 17 && |EXPONENTS| == |GROUPS| == 11
    ensures var row := NARROW_ROWS[portBits];
            && 2 <= row <= 9 && EXPONENTS[row] == NARROW[portBits] + portBits
            && EXPONENTS[row] < 32 + portBits <= EXPONENTS[row + 1]
    ensures 28 <= NARROW[portBits] && NARROW[0] == 28
  {
  }

  /** Which scans have a group that 32 bits of address cover: those with at most NARROW[b] address bits where the
      ports take b bits. */
  lemma {:induction false} NarrowIff(ipBits: nat, portBits: nat, group: Group)
    requires portBits <= 16 && SmallestAbove(group, ipBits + portBits)
    ensures group.prime - 1 <= TWO_32 * P2(portBits) <==> ipBits <= NARROW[portBits]
  {
    P2Values();
    Widths();
    hide *;
    NarrowTable(portBits);
    var row := NARROW_ROWS[portBits];
    RowExponent(row);
    RowExponent(row + 1);
    P2Sum(32, portBits);
    P2Monotone(EXPONENTS[row] + 1, 32 + portBits);
    P2Monotone(32 + portBits, EXPONENTS[row + 1]);
    SmallestIs(group, ipBits + portBits, row);
    if ipBits <= NARROW[portBits] {
      P2Monotone(ipBits + portBits, EXPONENTS[row]);
    } else {
      P2Monotone(EXPONENTS[row] + 1, ipBits + portBits);
      var i := RowIndex(group);
      if i < row { TableAscends(i, row); }
      if row + 1 < i { TableAscends(row + 1, i); }
    }
  }

  /** The same by the number of addresses. Up to 2^28 addresses the group is never too wide. */
  lemma {:induction false} ChosenNarrow(numAddrs: nat, numPorts: nat, word: nat, nextWord: nat, c: Cycle, w: View)
    requires Chosen(numAddrs, numPorts, word, nextWord, c, w) && w.bits <= 16
    ensures c.order <= TWO_32 * P2(w.bits) <==> numAddrs <= P2(NARROW[w.bits])
    ensures numAddrs <= 0x1000_0000 ==> c.order <= TWO_32 * P2(w.bits)
    ensures w.bits == 0 && numAddrs > 0x1000_0000 ==> c.order > TWO_32
  {
    hide BitsFor, SmallestAbove, P2, FirstRoot, NARROW;
    var ipBits: nat :| BitsFor(numAddrs, ipBits) && SmallestAbove(c.group, ipBits + w.bits);
    NarrowIff(ipBits, w.bits, c.group);
    NarrowByCount(numAddrs, ipBits, w.bits);
  }

  lemma {:induction false} NarrowByCount(numAddrs: nat, ipBits: nat, portBits: nat)
    requires BitsFor(numAddrs, ipBits) && portBits <= 16
    ensures ipBits <= NARROW[portBits] <==> numAddrs <= P2(NARROW[portBits])
    ensures P2(NARROW[portBits]) >= 0x1000_0000 && P2(NARROW[0]) == 0x1000_0000 && P2(0) == 1
  {
    P2Values();
    assert P2(0) == 1;
    hide *;
    NarrowTable(portBits);
    BitsForIs(numAddrs, ipBits);
    P2Monotone(28, NARROW[portBits]);
    if ipBits <= NARROW[portBits] {
      P2Monotone(ipBits, NARROW[portBits]);
    }
    if numAddrs <= P2(NARROW[portBits]) {
      BitsAtMost(numAddrs, ipBits, NARROW[portBits]);
    }
  }

  /** On one port, more than 2^28 addresses lead to the group modulo 2^32 + 15. */
  lemma {:induction false} ChosenOrder(numAddrs: nat, numPorts: nat, word: nat, nextWord: nat, c: Cycle, w: View)
    requires Chosen(numAddrs, numPorts, word, nextWord, c, w)
    requires w.bits == 0 && numAddrs < TWO_32
    ensures numAddrs > 0x1000_0000 ==> c.order == 0x1_0000_000e
  {
    hide BitsFor, SmallestAbove, P2, FirstRoot;
    var ipBits: nat :| BitsFor(numAddrs, ipBits) && SmallestAbove(c.group, ipBits + w.bits);
    if numAddrs > 0x1000_0000 {
      MiddleGroup(numAddrs, ipBits, c.group);
    }
  }

  lemma {:induction false} MiddleGroup(numAddrs: nat, ipBits: nat, group: Group)
    requires 0x1000_0000 < numAddrs < TWO_32 && BitsFor(numAddrs, ipBits) && SmallestAbove(group, ipBits)
    ensures group.prime == 0x1_0000_000f
  {
    P2Values();
    Widths();
    hide *;
    MiddleRows();
    BitsForIs(numAddrs, ipBits);
    BitsAtMost(numAddrs, ipBits, 32);
    P2Monotone(ipBits, 32);
    P2AtLeast(ipBits, 28);
    P2Monotone(29, ipBits);
    P2Next(28);
    SmallestIs(group, ipBits, 4);
    var i := RowIndex(group);
    if i < 3 { TableAscends(i, 3); }
    if 4 < i { TableAscends(4, i); }
  }

  lemma {:induction false} MiddleRows()
    ensures |GROUPS| == 11 && GROUPS[3].prime == 268435459 && GROUPS[4].prime == 4294967311
  {
  }

  lemma {:induction false} BitsForIs(n: nat, r: nat)
    requires BitsFor(n, r)
    ensures n <= P2(r) && (r == 0 || P2(r - 1) < n)
  {
    hide P2;
  }

  lemma {:induction false} SmallestIs(group: Group, bits: nat, row: nat)
    requires SmallestAbove(group, bits) && row < |GROUPS|
    ensures group in GROUPS && group.prime > P2(bits)
    ensures GROUPS[row].prime > P2(bits) ==> group.prime <= GROUPS[row].prime
  {
    hide P2, GROUPS;
    assert GROUPS[row] in GROUPS;
  }

  /** iterator_init, up to the creation of the subshards: the scan's bounds and its cycle. */
  method InitScan(numAddrs: nat, numPorts: nat, word: nat, nextWord: nat)
    returns (cycle: Cycle, view: View, ghost row: nat)
    requires 1 <= numAddrs < TWO_32 && 1 <= numPorts <= 0x1_0000
    ensures ValidCycle(cycle) && ValidView(view, cycle)
    ensures view.maxIndex == numAddrs && view.portCount == numPorts
    ensures view.bits == 0 <==> numPorts == 1
    ensures cycle.generator < TWO_22 && row < |GROUPS| && cycle.group == GROUPS[row]
    ensures numPorts <= 256 ==> row <= 8
    ensures Chosen(numAddrs, numPorts, word, nextWord, cycle, view)
    ensures cycle.order <= TWO_32 * P2(view.bits) <==> numAddrs <= P2(NARROW[view.bits])
  {
    hide *;
    Widths();
    var ipBits := BitsNeeded(numAddrs);
    var portBits := BitsNeeded(numPorts);
    SizesFit(numAddrs, ipBits, numPorts, portBits);
    var group;
    group, row := GetGroup(P2(ipBits + portBits));
    if numPorts <= 256 {
      FewPorts(numPorts, ipBits, portBits, row);
    }
    TableIsValid(row);
    var maxIndex := if numAddrs > TWO_32 then 0xFFFF_FFFF else numAddrs % TWO_32;
    cycle := MakeCycle(group, word, nextWord);
    view := View(maxIndex, numPorts, portBits);
    SeededOrder(cycle, word, nextWord);
    ChosenIs(numAddrs, numPorts, word, nextWord, cycle, view, ipBits, row);
    ChosenNarrow(numAddrs, numPorts, word, nextWord, cycle, view);
    GroupHoldsScan(numAddrs, numPorts, ipBits, portBits, cycle.order);
    CycleIsValid(cycle);
    ViewIsValid(view, cycle);
  }

  lemma {:induction false} Widths()
    ensures TWO_32 == 0x1_0000_0000 && TWO_64 == 0x1_0000_0000_0000_0000
  {
  }

  lemma {:induction false} SeededOrder(c: Cycle, word: nat, nextWord: nat)
    requires Seeded(c, word, nextWord)
    ensures c.order + 1 == c.group.prime
  {
  }

  lemma {:induction false} ChosenIs(numAddrs: nat, numPorts: nat, word: nat, nextWord: nat, c: Cycle, w: View,
                                    ipBits: nat, row: nat)
    requires w.maxIndex == numAddrs && w.portCount == numPorts && Seeded(c, word, nextWord)
    requires numPorts <= P2(w.bits) && (w.bits == 0 || P2(w.bits - 1) < numPorts)
    requires numAddrs <= P2(ipBits) && (ipBits == 0 || P2(ipBits - 1) < numAddrs)
    requires row < |GROUPS| && c.group == GROUPS[row] && c.group.prime > P2(ipBits + w.bits)
    requires forall other :: other in GROUPS && other.prime > P2(ipBits + w.bits) ==> c.group.prime <= other.prime
    ensures BitsFor(numAddrs, ipBits) && SmallestAbove(c.group, ipBits + w.bits)
    ensures Chosen(numAddrs, numPorts, word, nextWord, c, w)
  {
    hide P2, GROUPS, Seeded;
    assert GROUPS[row] in GROUPS;
    assert BitsFor(numAddrs, ipBits) && SmallestAbove(c.group, ipBits + w.bits);
  }

  lemma {:induction false} ViewIsValid(view: View, cycle: Cycle)
    requires view.maxIndex < TWO_32 && view.bits <= 16 && view.portCount <= P2(view.bits)
    requires view.maxIndex * P2(view.bits) <= cycle.order
    ensures ValidView(view, cycle)
  {
  }

  lemma {:induction false} CycleIsValid(cycle: Cycle)
    requires ValidGroup(cycle.group) && IsPrimitiveRoot(cycle.generator, cycle.group.prime)
    requires cycle.order == cycle.group.prime - 1
    ensures ValidCycle(cycle)
  {
  }

  lemma {:induction false} SizesFit(numAddrs: nat, ipBits: nat, numPorts: nat, portBits: nat)
    requires 1 <= numAddrs < TWO_32 && 1 <= numPorts <= 0x1_0000
    requires numAddrs <= P2(ipBits) && (ipBits == 0 || P2(ipBits - 1) < numAddrs)
    requires numPorts <= P2(portBits) && (portBits == 0 || P2(portBits - 1) < numPorts)
    ensures ipBits <= 32 && portBits <= 16 && P2(ipBits + portBits) < GROUPS[10].prime
    ensures portBits == 0 <==> numPorts == 1
  {
    hide *;
    Widths();
    WordSizes();
    BitsAtMost(numAddrs, ipBits, 32);
    BitsAtMost(numPorts, portBits, 16);
    P2Monotone(ipBits + portBits, 48);
    LastPrime();
    SinglePort(numPorts, portBits);
  }

  lemma {:induction false} FewPortsFewBits(numPorts: nat, ipBits: nat, portBits: nat)
    requires 1 <= numPorts <= 256 && ipBits <= 32 && (portBits == 0 || P2(portBits - 1) < numPorts)
    ensures P2(ipBits + portBits) <= 0x100_0000_0000
  {
    assert P2(8) == 256;
    assert P2(40) == 0x100_0000_0000 by {
      assert P2(16) == 0x1_0000 && P2(24) == 0x100_0000 && P2(32) == 0x1_0000_0000;
    }
    hide P2;
    if portBits > 8 {
      P2Monotone(8, portBits - 1);
    }
    P2Monotone(ipBits + portBits, 40);
  }

  /** Up to 256 ports need at most 40 bits, so one of the first nine groups is large enough. */
  lemma {:induction false} FewPorts(numPorts: nat, ipBits: nat, portBits: nat, row: nat)
    requires 1 <= numPorts <= 256 && ipBits <= 32 && (portBits == 0 || P2(portBits - 1) < numPorts)
    requires row < |GROUPS|
    requires forall other :: other in GROUPS && other.prime > P2(ipBits + portBits) ==>
               GROUPS[row].prime <= other.prime
    ensures row <= 8
  {
    hide P2;
    FewPortsFewBits(numPorts, ipBits, portBits);
    assert GROUPS[8] in GROUPS;
    if row > 8 {
      TableAscends(8, row);
    }
  }

  lemma {:induction false} LastPrime()
    ensures GROUPS[10].prime > 0x1_0000_0000_0000
  {
  }

  lemma {:induction false} SinglePort(numPorts: nat, portBits: nat)
    requires 1 <= numPorts <= P2(portBits) && (portBits == 0 || P2(portBits - 1) < numPorts)
    ensures portBits == 0 <==> numPorts == 1
  {
  }
}
