/** src/ziterate.c: printing the targets of one shard, and what all shards print together. */
module Ziterate {
  import opened Bits
  import opened Cyclic
  import opened ConstraintTree
  import opened ConstraintRank
  import opened ConstraintHistory
  import opened Coverage
  import opened FiniteSets
  import opened ShardWalk
  import opened Walk64
  import B = Blocklist
  import S = Shard
  import I = Iterator

  /** A printed target: an address and the position of its port in the port list. */
  datatype Probe = Probe(address: nat, portIndex: nat)

  ghost predicate AllBelow(slots: seq<Slot>, n: nat)
  {
    forall i :: 0 <= i < |slots| ==> slots[i].ip < n
  }

  /** The printed form of a list of slots: each index looked up among the allowed addresses. */
  ghost function Probes(t: Tree, slots: seq<Slot>): seq<Probe>
    requires DepthAtMost(t, 32) && AllBelow(slots, Total(t, B.ALLOWED, 32))
  {
    if slots == [] then []
    else
      var last := slots[|slots| - 1];
      Probes(t, slots[..|slots| - 1]) + [Probe(Select(t, B.ALLOWED, 32, last.ip), last.port)]
  }

  lemma {:induction false} ProbesNil(t: Tree)
    requires DepthAtMost(t, 32)
    ensures AllBelow([], Total(t, B.ALLOWED, 32)) && Probes(t, []) == []
  {
  }

  lemma {:induction false} ProbesSnoc(t: Tree, slots: seq<Slot>, slot: Slot)
    requires DepthAtMost(t, 32) && AllBelow(slots, Total(t, B.ALLOWED, 32)) && slot.ip < Total(t, B.ALLOWED, 32)
    ensures AllBelow(slots + [slot], Total(t, B.ALLOWED, 32))
    ensures Probes(t, slots + [slot]) == Probes(t, slots) + [Probe(Select(t, B.ALLOWED, 32, slot.ip), slot.port)]
  {
    assert (slots + [slot])[..|slots|] == slots;
  }

  /** An index never selects 0.0.0.0, so the loop's test for address 0 only stops at the end. */
  lemma {:induction false} SelectedIsNonzero(t: Tree, k: nat)
    requires DepthAtMost(t, 32) && k < Total(t, B.ALLOWED, 32) && At(t, 32, 0) != B.ALLOWED
    ensures Select(t, B.ALLOWED, 32, k) != 0
  {
    SelectHits(t, B.ALLOWED, 32, k);
  }

  /** The slots of a shard's whole arc. */
  ghost function Arc(shard: S.Shard): seq<Slot>
    requires shard.Valid()
    reads shard
  {
    shard.Walked(shard.End())
  }

  /** Leaving the current slot adds it to what has been passed, and stays within the arc. */
  lemma {:induction false} PassSlot(shard: S.Shard)
    requires shard.Ready() && shard.current != 0
    ensures shard.Walked(shard.pos + 1) == shard.Passed() + [SlotAt(shard.cycle, shard.view, shard.pos)]
    ensures shard.Passed() + [SlotAt(shard.cycle, shard.view, shard.pos)] <= Arc(shard)
    ensures SlotAt(shard.cycle, shard.view, shard.pos).ip < shard.view.maxIndex
  {
    EmittedSplits(shard.cycle, shard.shards, shard.view, shard.Begin(), shard.pos + 1, shard.End());
    AcceptedInRange(shard.cycle, shard.shards, shard.view, shard.pos);
  }

  /** The blocklist is painted and the walk counts exactly the allowed addresses. */
  ghost predicate Prepared(b: B.Blocklist, view: View)
    reads b, b.Repr
  {
    && b.Valid() && b.con.painted && b.con.paintValue == B.ALLOWED
    && At(b.con.Tree(), 32, 0) != B.ALLOWED
    && view.maxIndex == Total(b.con.Tree(), B.ALLOWED, 32)
  }

  lemma {:induction false} PreparedTotal(b: B.Blocklist, view: View)
    requires Prepared(b, view)
    ensures view.maxIndex == Total(b.con.Tree(), B.ALLOWED, 32)
  {
  }

  /** blocklist_lookup_index on a painted constraint; address 0 stands for a finished shard. */
  method Resolve(b: B.Blocklist, ghost view: View, slot: Slot, ok: bool) returns (ip: nat)
    requires Prepared(b, view) && (ok ==> slot.ip < view.maxIndex)
    ensures ok <==> ip != 0
    ensures ok ==> ip == Select(b.con.Tree(), B.ALLOWED, 32, slot.ip)
  {
    if !ok {
      return 0;
    }
    ip := b.con.LookupPainted(slot.ip);
    SelectedIsNonzero(b.con.Tree(), slot.ip);
  }

  /** The loop of main: prints the shard's targets until the address is 0 or maxHosts are printed. */
  method PrintTargets(b: B.Blocklist, shard: S.Shard, maxHosts: nat, ghost t: Tree)
    returns (out: seq<Probe>, ghost slots: seq<Slot>)
    requires Prepared(b, shard.view) && shard.Ready() && shard.Passed() == [] && maxHosts < TWO_32
    requires shard !in b.Repr && t == b.con.Tree() && DepthAtMost(t, 32)
    modifies shard
    ensures shard.Valid() && Prepared(b, shard.view) && b.con.Tree() == t
    ensures shard.cycle == old(shard.cycle) && shard.view == old(shard.view)
    ensures shard.shards == old(shard.shards) && shard.index == old(shard.index)
    ensures AllBelow(slots, Total(t, B.ALLOWED, 32)) && out == Probes(t, slots)
    ensures slots <= Arc(shard)
    ensures maxHosts == 0 || |slots| < maxHosts ==> slots == Arc(shard)
    ensures maxHosts > 0 ==> |slots| <= maxHosts
  {
    hide B.Blocklist.Valid, Prepared, Probes, AllBelow;
    hide ValidCycle, ValidView, Element, Emitted, AcceptsAt, SlotAt, Total, Select, At, DepthAtMost;
    out, slots := [], [];
    ProbesNil(t);
    PreparedTotal(b, shard.view);
    var slot, ok := shard.GetCurSlot();
    var ip := Resolve(b, shard.view, slot, ok);
    var count := 0;
    while ip != 0
      invariant Prepared(b, shard.view) && shard.Ready() && shard.SameWalk() && b.con.Tree() == t
      invariant ok == (ip != 0) == (shard.current != 0)
      invariant ok ==> slot == SlotAt(shard.cycle, shard.view, shard.pos) && InRange(shard.view, slot)
      invariant ok ==> ip == Select(t, B.ALLOWED, 32, slot.ip)
      invariant slots == shard.Passed()
      invariant AllBelow(slots, Total(t, B.ALLOWED, 32)) && out == Probes(t, slots)
      invariant maxHosts > 0 ==> count == |slots| <= maxHosts
      decreases shard.End() - shard.pos, if ok then 1 else 0
    {
      PassSlot(shard);
      if maxHosts != 0 && count >= maxHosts {
        break;
      }
      ProbesSnoc(t, slots, slot);
      out := out + [Probe(ip, slot.port)];
      slots := slots + [slot];
      slot, ok := shard.GetNextSlot();
      ip := Resolve(b, shard.view, slot, ok);
      count := (count + 1) % TWO_32;
    }
  }

  // ---------- What all shards print ----------

  ghost predicate AllInRange(w: View, slots: seq<Slot>)
  {
    forall i :: 0 <= i < |slots| ==> InRange(w, slots[i])
  }

  lemma {:induction false} EmittedInRange(c: Cycle, s: nat, w: View, lo: nat, hi: nat)
    requires ValidCycle(c) && 0 < s <= c.order && lo <= hi && ValidView(w, c)
    ensures AllInRange(w, Emitted(c, s, w, lo, hi)) && AllBelow(Emitted(c, s, w, lo, hi), w.maxIndex)
  {
    hide AcceptsAt, SlotAt, ValidCycle, ValidView;
    if lo < hi {
      EmittedInRange(c, s, w, lo, hi - 1);
      if AcceptsAt(c, s, w, hi - 1) {
        AcceptedInRange(c, s, w, hi - 1);
      }
    }
  }

  lemma {:induction false} SelectInjective(t: Tree, i: nat, j: nat)
    requires DepthAtMost(t, 32) && i < Total(t, B.ALLOWED, 32) && j < Total(t, B.ALLOWED, 32)
    requires Select(t, B.ALLOWED, 32, i) == Select(t, B.ALLOWED, 32, j)
    ensures i == j
  {
    SelectHits(t, B.ALLOWED, 32, i);
    SelectHits(t, B.ALLOWED, 32, j);
  }

  /** Looking indices up loses no multiplicity: a probe occurs as often as the slot it comes from. */
  lemma {:induction false} ProbesCount(t: Tree, slots: seq<Slot>, a: nat, q: nat, slot: Slot)
    requires DepthAtMost(t, 32) && AllBelow(slots, Total(t, B.ALLOWED, 32))
    requires slot.ip < Total(t, B.ALLOWED, 32)
    requires Select(t, B.ALLOWED, 32, slot.ip) == a && slot.port == q
    ensures multiset(Probes(t, slots))[Probe(a, q)] == multiset(slots)[slot]
  {
    hide Select, Total, At, DepthAtMost, Rank;
    if slots != [] {
      var last, rest := slots[|slots| - 1], slots[..|slots| - 1];
      ProbesCount(t, rest, a, q, slot);
      assert slots == rest + [last];
      if Select(t, B.ALLOWED, 32, last.ip) == a {
        SelectInjective(t, last.ip, slot.ip);
      }
    }
  }

  lemma {:induction false} SelectedIsAllowed(t: Tree, k: nat)
    requires DepthAtMost(t, 32) && k < Total(t, B.ALLOWED, 32)
    ensures Select(t, B.ALLOWED, 32, k) < P2(32)
    ensures At(t, 32, Select(t, B.ALLOWED, 32, k)) == B.ALLOWED
  {
    SelectHits(t, B.ALLOWED, 32, k);
  }

  /** The tree of an initialised blocklist allows an address exactly when the lists permit it. */
  lemma {:induction false} AllowedIffPermitted(lists: B.Lists, a: nat)
    requires lists.Valid() && a < P2(32)
    ensures DepthAtMost(Build(lists.InitialValue(), lists.History()), 32)
    ensures At(Build(lists.InitialValue(), lists.History()), 32, a) == B.ALLOWED <==> lists.Permits(a)
  {
    WordSizes();
    lists.HistoryMeaning(a);
    LastPaintWins(lists.InitialValue(), lists.History(), a);
  }

  /** How often a probe belongs in the output of a scan: a permitted address on a port of the scan, once. */
  ghost function Due(lists: B.Lists, numPorts: nat, p: Probe): nat
  {
    if p.address < TWO_32 && p.portIndex < numPorts && lists.Permits(p.address) then 1 else 0
  }

  /** The output holds every permitted address once for each port index, and nothing else. */
  ghost predicate PrintsOnce(lists: B.Lists, numPorts: nat, out: seq<Probe>)
  {
    forall p: Probe :: multiset(out)[p] == Due(lists, numPorts, p)
  }

  /** Nothing is printed that is not due. */
  lemma {:induction false} ProbesAreDue(lists: B.Lists, t: Tree, w: View, slots: seq<Slot>, p: Probe)
    requires lists.Valid() && t == Build(lists.InitialValue(), lists.History()) && DepthAtMost(t, 32)
    requires AllInRange(w, slots) && AllBelow(slots, Total(t, B.ALLOWED, 32)) && p in Probes(t, slots)
    ensures Due(lists, w.portCount, p) == 1
  {
    hide Select, Total, At, DepthAtMost, Build, P2, InRange;
    WordSizes();
    var last, rest := slots[|slots| - 1], slots[..|slots| - 1];
    if p in Probes(t, rest) {
      ProbesAreDue(lists, t, w, rest, p);
    } else {
      InRangeIs(w, last);
      SelectedIsAllowed(t, last.ip);
      AllowedIffPermitted(lists, p.address);
    }
  }

  /** A probe that is due is printed as often as the slot it comes from is returned. */
  lemma {:induction false} DueCount(lists: B.Lists, t: Tree, w: View, slots: seq<Slot>, p: Probe) returns (slot: Slot)
    requires lists.Valid() && t == Build(lists.InitialValue(), lists.History()) && DepthAtMost(t, 32)
    requires AllBelow(slots, Total(t, B.ALLOWED, 32)) && w.maxIndex == Total(t, B.ALLOWED, 32)
    requires Due(lists, w.portCount, p) == 1
    ensures InRange(w, slot) && multiset(Probes(t, slots))[p] == multiset(slots)[slot]
  {
    hide Select, Total, At, DepthAtMost, Build, P2, Probes, AllBelow;
    WordSizes();
    AllowedIffPermitted(lists, p.address);
    slot := SlotFor(t, p.address, p.portIndex);
    ProbesCount(t, slots, p.address, p.portIndex, slot);
  }

  lemma {:induction false} SlotIsDue(lists: B.Lists, t: Tree, w: View, slots: seq<Slot>, slot: Slot)
    requires lists.Valid() && t == Build(lists.InitialValue(), lists.History()) && DepthAtMost(t, 32)
    requires AllBelow(slots, Total(t, B.ALLOWED, 32)) && w.maxIndex == Total(t, B.ALLOWED, 32) && InRange(w, slot)
    ensures var p := Probe(Select(t, B.ALLOWED, 32, slot.ip), slot.port);
            Due(lists, w.portCount, p) == 1 && multiset(Probes(t, slots))[p] == multiset(slots)[slot]
  {
    hide Select, Total, At, DepthAtMost, Build, P2, Probes, AllBelow;
    WordSizes();
    SelectedIsAllowed(t, slot.ip);
    AllowedIffPermitted(lists, Select(t, B.ALLOWED, 32, slot.ip));
    ProbesCount(t, slots, Select(t, B.ALLOWED, 32, slot.ip), slot.port, slot);
  }

  /** Printing is exact when the walk is. */
  lemma {:induction false} PrintsOnceIff(lists: B.Lists, t: Tree, w: View, slots: seq<Slot>)
    requires lists.Valid() && t == Build(lists.InitialValue(), lists.History()) && DepthAtMost(t, 32)
    requires AllBelow(slots, Total(t, B.ALLOWED, 32)) && w.maxIndex == Total(t, B.ALLOWED, 32)
    requires AllInRange(w, slots)
    ensures PrintsOnce(lists, w.portCount, Probes(t, slots)) <==>
            forall slot :: InRange(w, slot) ==> multiset(slots)[slot] == 1
  {
    hide Select, Total, At, DepthAtMost, Build, Probes, AllBelow, InRange, Due, B.Lists.Valid;
    if forall slot :: InRange(w, slot) ==> multiset(slots)[slot] == 1 {
      forall p: Probe ensures multiset(Probes(t, slots))[p] == Due(lists, w.portCount, p) {
        if p in Probes(t, slots) {
          ProbesAreDue(lists, t, w, slots, p);
        }
        DueIsBit(lists, w.portCount, p);
        if Due(lists, w.portCount, p) == 1 {
          var slot := DueCount(lists, t, w, slots, p);
        }
      }
    }
    if PrintsOnce(lists, w.portCount, Probes(t, slots)) {
      forall slot | InRange(w, slot) ensures multiset(slots)[slot] == 1 {
        InRangeIs(w, slot);
        SlotIsDue(lists, t, w, slots, slot);
      }
    }
  }

  lemma {:induction false} DueIsBit(lists: B.Lists, numPorts: nat, p: Probe)
    ensures Due(lists, numPorts, p) == 0 || Due(lists, numPorts, p) == 1
  {
  }

  /** Over all shards, every permitted address is printed exactly once for each port index, and nothing else is
      printed, if and only if each element that the 32-bit cast would repeat starts a shard. */
  lemma {:induction false} EveryTargetPrintedOnceIff(lists: B.Lists, t: Tree, c: Cycle, s: nat, w: View)
    requires lists.Valid() && t == Build(lists.InitialValue(), lists.History()) && DepthAtMost(t, 32)
    requires ValidCycle(c) && 0 < s <= c.order && ValidView(w, c) && w.maxIndex == Total(t, B.ALLOWED, 32)
    ensures AllBelow(AllEmitted(c, s, w, s), Total(t, B.ALLOWED, 32))
    ensures PrintsOnce(lists, w.portCount, Probes(t, AllEmitted(c, s, w, s))) <==> Repeats(c, w) <= Starts(c, s, s)
  {
    ShardsConcatenate(c, s, w, s);
    EmittedInRange(c, s, w, 0, ArcEnd(c.order, s, s - 1));
    hide *;
    PrintsOnceIff(lists, t, w, AllEmitted(c, s, w, s));
    ExactIffStarts(c, s, w);
  }

  /** In particular whenever the group is not wider than 32 bits of address. */
  lemma {:induction false} EveryTargetPrintedOnce(lists: B.Lists, t: Tree, c: Cycle, s: nat, w: View)
    requires lists.Valid() && t == Build(lists.InitialValue(), lists.History()) && DepthAtMost(t, 32)
    requires ValidCycle(c) && 0 < s <= c.order && ValidView(w, c) && w.maxIndex == Total(t, B.ALLOWED, 32)
    requires c.order <= TWO_32 * P2(w.bits)
    ensures AllBelow(AllEmitted(c, s, w, s), Total(t, B.ALLOWED, 32))
    ensures PrintsOnce(lists, w.portCount, Probes(t, AllEmitted(c, s, w, s)))
  {
    hide *;
    NarrowGroupsAreExact(c, s, w);
    ExactIffStarts(c, s, w);
    EveryTargetPrintedOnceIff(lists, t, c, s, w);
  }

  lemma {:induction false} InRangeIs(w: View, slot: Slot)
    ensures InRange(w, slot) <==> slot.ip < w.maxIndex && slot.port < w.portCount
  {
  }

  lemma {:induction false} SlotFor(t: Tree, a: nat, q: nat) returns (slot: Slot)
    requires DepthAtMost(t, 32) && a < P2(32) && At(t, 32, a) == B.ALLOWED
    ensures slot.port == q && slot.ip < Total(t, B.ALLOWED, 32) && Select(t, B.ALLOWED, 32, slot.ip) == a
  {
    hide Select, Rank, Total, At, DepthAtMost, P2;
    SelectCovers(t, B.ALLOWED, 32, a);
    slot := Slot(Rank(t, B.ALLOWED, 32, a), q);
  }

  // ---------- The whole program ----------

  /** An early exit, a walk whose 64-bit products would wrap, or the printed targets. */
  datatype Outcome = Aborted | Wraps | Printed(out: seq<Probe>)

  /** The slots of subshard i of s. */
  ghost function ArcSlots(c: Cycle, w: View, s: nat, i: nat): seq<Slot>
    requires ValidCycle(c) && i < s <= c.order
  {
    ArcBounds(c.order, s, i);
    Emitted(c, s, w, ArcBegin(c.order, s, i), ArcEnd(c.order, s, i))
  }

  /** t, c and w are the address tree, cycle and bounds that the lists, the ports and the seed lead to. */
  ghost predicate ScanOf(lists: B.Lists, numPorts: nat, word: nat, nextWord: nat, t: Tree, c: Cycle, w: View)
  {
    && t == Build(lists.InitialValue(), lists.History()) && DepthAtMost(t, 32)
    && ValidCycle(c) && ValidView(w, c)
    && I.Chosen(Total(t, B.ALLOWED, 32), numPorts, word, nextWord, c, w)
  }

  /** Since 0.0.0.0 is never allowed, the count fits 32 bits and its cast loses nothing. */
  lemma {:induction false} CountFits(lists: B.Lists, t: Tree)
    requires lists.Valid() && t == Build(lists.InitialValue(), lists.History()) && DepthAtMost(t, 32)
    ensures At(t, 32, 0) != B.ALLOWED
    ensures |Addresses(t, 32, B.ALLOWED)| == Total(t, B.ALLOWED, 32) < TWO_32
  {
    hide P2, Total, Build, At, DepthAtMost;
    WordSizes();
    AllowedIffPermitted(lists, 0);
    TotalIsCount(t, B.ALLOWED, 32);
    RangeSize(0, P2(32));
    var some, all := Addresses(t, 32, B.ALLOWED), Range(0, P2(32));
    assert some <= all - {0};
    SubsetSize(some, all - {0});
  }

  /** The program stops before it sizes a group. */
  ghost predicate Stops(lists: B.Lists, ignoreInvalid: bool)
  {
    lists.AnyFatal(ignoreInvalid) || NothingPermitted(lists)
  }

  /** How a run ends once its cycle is known: too many shards, products that may wrap, or a printed list. */
  ghost predicate EndsAs(outcome: Outcome, totalShards: nat, c: Cycle)
  {
    && ValidCycle(c)
    && (outcome.Aborted? <==> totalShards >= c.order)
    && (outcome.Wraps? <==> totalShards < c.order && !S.WidthOk(c.generator, c.group.prime))
  }

  ghost predicate PrintsSlots(t: Tree, slots: seq<Slot>, out: seq<Probe>)
  {
    DepthAtMost(t, 32) && AllBelow(slots, Total(t, B.ALLOWED, 32)) && out == Probes(t, slots)
  }

  lemma {:induction false} EndsAsIs(outcome: Outcome, totalShards: nat, c: Cycle)
    requires ValidCycle(c)
    ensures c.group.prime > 0
    ensures EndsAs(outcome, totalShards, c) <==>
            && (outcome.Aborted? <==> totalShards >= c.order)
            && (outcome.Wraps? <==> totalShards < c.order && c.generator * (c.group.prime - 1) >= TWO_64)
  {
  }

  lemma {:induction false} PrintsSlotsIs(t: Tree, slots: seq<Slot>, out: seq<Probe>)
    requires DepthAtMost(t, 32) && AllBelow(slots, Total(t, B.ALLOWED, 32))
    ensures PrintsSlots(t, slots, out) <==> out == Probes(t, slots)
  {
  }

  lemma {:induction false} PrintedIs(t: Tree, slots: seq<Slot>, out: seq<Probe>)
    requires PrintsSlots(t, slots, out)
    ensures DepthAtMost(t, 32) && AllBelow(slots, Total(t, B.ALLOWED, 32)) && out == Probes(t, slots)
  {
  }

  lemma {:induction false} ProbesLength(t: Tree, slots: seq<Slot>)
    requires DepthAtMost(t, 32) && AllBelow(slots, Total(t, B.ALLOWED, 32))
    ensures |Probes(t, slots)| == |slots|
  {
    hide Total, Select, DepthAtMost;
    if slots != [] {
      ProbesLength(t, slots[..|slots| - 1]);
    }
  }

  /** main: initialise the lists, size the group, walk shard shardNum of totalShards and print. It ends early for a
      fatal entry, for want of a permitted address, or for more shards than the group of this scan has elements.
      Where the product of its generator and an element may exceed 64 bits the model stops; up to 256 ports that
      cannot happen. */
  method Run(lists: B.Lists, ignoreInvalid: bool, shardNum: nat, totalShards: nat, numPorts: nat,
             maxHosts: nat, word: nat, nextWord: nat)
    returns (outcome: Outcome, ghost t: Tree, ghost c: Cycle, ghost w: View, ghost slots: seq<Slot>)
    requires lists.Valid() && shardNum < totalShards
    requires 1 <= numPorts <= 0x1_0000 && maxHosts < TWO_32
    ensures if Stops(lists, ignoreInvalid) then outcome.Aborted?
            else ScanOf(lists, numPorts, word, nextWord, t, c, w) && EndsAs(outcome, totalShards, c)
    ensures outcome.Wraps? ==> numPorts > 256
    ensures outcome.Printed? ==> PrintsSlots(t, slots, outcome.out)
    ensures outcome.Printed? ==> ValidCycle(c) && shardNum < totalShards < c.order
    ensures outcome.Printed? ==> slots <= ArcSlots(c, w, totalShards, shardNum)
    ensures outcome.Printed? && (maxHosts == 0 || |slots| < maxHosts) ==>
              slots == ArcSlots(c, w, totalShards, shardNum)
    ensures outcome.Printed? && maxHosts > 0 ==> |slots| == |outcome.out| <= maxHosts
  {
    hide *;
    t, c, w, slots := Leaf(0), Cycle(Group(0, 0, []), 0, 0, 0), View(0, 0, 0), [];
    var b, ready := B.Init(lists, ignoreInvalid);
    if ready.Aborted? {
      StopsIff(lists, ignoreInvalid);
      return Aborted, t, c, w, slots;
    }
    t := b.con.Tree();
    BuildIsShallow(lists, t);
    AddressesPermitted(lists, t);
    StopsIff(lists, ignoreInvalid);
    if ready.Empty? {
      return Aborted, t, c, w, slots;
    }
    CountFits(lists, t);
    var cycle, view, row := I.InitScan(ready.count, numPorts, word, nextWord);
    c, w := cycle, view;
    ScanIsDescribed(lists, numPorts, word, nextWord, t, c, w);
    if totalShards >= cycle.order {
      EndsAsIs(Aborted, totalShards, c);
      return Aborted, t, c, w, slots;
    }
    S.WidthOfTableRows(row, cycle.generator);
    WidthIs(cycle);
    if cycle.generator * (cycle.group.prime - 1) >= TWO_64 {
      EndsAsIs(Wraps, totalShards, c);
      return Wraps, t, c, w, slots;
    }
    var shard := new S.Shard(shardNum, totalShards, 0, cycle, view);
    ScanIsPrepared(b, lists, t, c, w);
    var out;
    out, slots := PrintTargets(b, shard, maxHosts, t);
    outcome := Printed(out);
    EndsAsIs(outcome, totalShards, c);
    PrintsSlotsIs(t, slots, out);
    ProbesLength(t, slots);
    ArcOfShard(shard);
  }

  lemma {:induction false} StopsIff(lists: B.Lists, ignoreInvalid: bool)
    ensures Stops(lists, ignoreInvalid) <==> lists.AnyFatal(ignoreInvalid) || NothingPermitted(lists)
  {
  }

  lemma {:induction false} WidthIs(c: Cycle)
    requires ValidCycle(c)
    ensures c.group.prime > 0
    ensures S.WidthOk(c.generator, c.group.prime) <==> c.generator * (c.group.prime - 1) < TWO_64
  {
  }

  ghost predicate NothingPermitted(lists: B.Lists)
  {
    forall a: nat :: a < TWO_32 ==> !lists.Permits(a)
  }

  lemma {:induction false} AddressesPermitted(lists: B.Lists, t: Tree)
    requires lists.Valid() && t == Build(lists.InitialValue(), lists.History()) && DepthAtMost(t, 32)
    ensures |Addresses(t, 32, B.ALLOWED)| == 0 <==> NothingPermitted(lists)
  {
    hide At, Build, B.Lists.Permits;
    WordSizes();
    forall a: nat | a < TWO_32 ensures lists.Permits(a) <==> a in Addresses(t, 32, B.ALLOWED) {
      AllowedIffPermitted(lists, a);
    }
    if Addresses(t, 32, B.ALLOWED) != {} {
      var a :| a in Addresses(t, 32, B.ALLOWED);
      assert lists.Permits(a);
    }
  }

  lemma {:induction false} BuildIsShallow(lists: B.Lists, t: Tree)
    requires lists.Valid() && t == Build(lists.InitialValue(), lists.History())
    ensures DepthAtMost(t, 32)
  {
    WordSizes();
    AllowedIffPermitted(lists, 0);
  }

  lemma {:induction false} ScanIsPrepared(b: B.Blocklist, lists: B.Lists, t: Tree, c: Cycle, w: View)
    requires b.Valid() && b.con.painted && b.con.paintValue == B.ALLOWED && b.con.Tree() == t
    requires DepthAtMost(t, 32) && At(t, 32, 0) != B.ALLOWED && w.maxIndex == Total(t, B.ALLOWED, 32)
    ensures Prepared(b, w)
  {
  }

  lemma {:induction false} ScanIsDescribed(lists: B.Lists, numPorts: nat, word: nat, nextWord: nat, t: Tree,
                                           c: Cycle, w: View)
    requires t == Build(lists.InitialValue(), lists.History()) && DepthAtMost(t, 32)
    requires ValidCycle(c) && ValidView(w, c)
    requires I.Chosen(Total(t, B.ALLOWED, 32), numPorts, word, nextWord, c, w)
    ensures ScanOf(lists, numPorts, word, nextWord, t, c, w)
  {
  }

  lemma {:induction false} ArcOfShard(shard: S.Shard)
    requires shard.Valid()
    ensures ValidCycle(shard.cycle) && shard.index < shard.shards <= shard.cycle.order
    ensures Arc(shard) == ArcSlots(shard.cycle, shard.view, shard.shards, shard.index)
  {
  }

  // ---------- The walk with 64-bit products ----------

  /** The slots that the 64-bit walk of shard i of s returns in k steps. */
  ghost function Slots64(c: Cycle, w: View, s: nat, i: nat, k: nat): seq<Slot>
    requires c.group.prime > 0 && s > 0
  {
    Returned(c, w, Element(c, ArcBegin(c.order, s, i)), k)
  }

  /** Whatever the generator: the 64-bit walk of shard i of s ends with step k, and out is what it prints. */
  ghost predicate Prints64(t: Tree, c: Cycle, w: View, s: nat, i: nat, k: nat, out: seq<Probe>)
    requires c.group.prime > 0 && s > 0
  {
    && EndsAt(c, Element(c, ArcBegin(c.order, s, i)), Element(c, ArcEnd(c.order, s, i)), k)
    && PrintsSlots(t, Slots64(c, w, s, i, k), out)
  }

  /** Under the width condition that is what Run prints. */
  lemma {:induction false} Prints64IffArc(t: Tree, c: Cycle, w: View, s: nat, i: nat, k: nat, out: seq<Probe>)
    requires ValidCycle(c) && c.group.prime > 0 && i < s <= c.order && S.WidthOk(c.generator, c.group.prime)
    ensures Prints64(t, c, w, s, i, k, out) <==>
            k == ArcEnd(c.order, s, i) - ArcBegin(c.order, s, i) && PrintsSlots(t, ArcSlots(c, w, s, i), out)
  {
    hide ValidCycle, S.WidthOk, Element, ArcBegin, ArcEnd, EndsAt, Returned, Emitted, PrintsSlots;
    WalkIsArc(c, s, w, i, k);
  }

  lemma {:induction false} ReturnedInRange(c: Cycle, w: View, first: nat, k: nat)
    requires c.group.prime > 0 && w.maxIndex < TWO_32
    ensures AllInRange(w, Returned(c, w, first, k)) && AllBelow(Returned(c, w, first, k), w.maxIndex)
  {
    hide Reached;
    if k > 0 {
      ReturnedInRange(c, w, first, k - 1);
      AcceptedSlot(w, Reached(c, first, k - 1), k == 1);
    }
  }

  lemma {:induction false} AcceptedSlot(w: View, x: nat, first: bool)
    requires w.maxIndex < TWO_32
    ensures Accepted(w, x, first) ==> InRange(w, SlotOf(w, x))
  {
    hide RawIndex, ExtractPort;
  }

  /** A walk that does not return some slot in range does not print what is due. */
  lemma {:induction false} MissedSlot(lists: B.Lists, t: Tree, c: Cycle, w: View, s: nat, i: nat, k: nat,
                                      out: seq<Probe>, slot: Slot)
    requires lists.Valid() && t == Build(lists.InitialValue(), lists.History()) && c.group.prime > 0 && s > 0
    requires w.maxIndex == Total(t, B.ALLOWED, 32) < TWO_32 && Prints64(t, c, w, s, i, k, out)
    requires InRange(w, slot) && slot !in Slots64(c, w, s, i, k)
    ensures !PrintsOnce(lists, w.portCount, out)
  {
    var slots := Slots64(c, w, s, i, k);
    ReturnedInRange(c, w, Element(c, ArcBegin(c.order, s, i)), k);
    hide *;
    Prints64Is(t, c, w, s, i, k, out);
    PrintedIs(t, slots, out);
    PrintsOnceIff(lists, t, w, slots);
    assert multiset(slots)[slot] == 0;
  }

  lemma {:induction false} Prints64Is(t: Tree, c: Cycle, w: View, s: nat, i: nat, k: nat, out: seq<Probe>)
    requires c.group.prime > 0 && s > 0 && Prints64(t, c, w, s, i, k, out)
    ensures EndsAt(c, Element(c, ArcBegin(c.order, s, i)), Element(c, ArcEnd(c.order, s, i)), k)
    ensures PrintsSlots(t, Slots64(c, w, s, i, k), out)
    ensures Slots64(c, w, s, i, k) == Returned(c, w, Element(c, ArcBegin(c.order, s, i)), k)
  {
  }

  // ---------- All the shards of one scan ----------

  /** What the run of one shard reports. */
  datatype ShardRun = ShardRun(t: Tree, c: Cycle, w: View, out: seq<Probe>)

  /** run i printed the whole arc of shard i of the scan. */
  ghost predicate RanShard(lists: B.Lists, numPorts: nat, word: nat, nextWord: nat, s: nat, i: nat, run: ShardRun)
  {
    && ScanOf(lists, numPorts, word, nextWord, run.t, run.c, run.w) && i < s < run.c.order
    && AllBelow(ArcSlots(run.c, run.w, s, i), Total(run.t, B.ALLOWED, 32))
    && run.out == Probes(run.t, ArcSlots(run.c, run.w, s, i))
  }

  ghost predicate AllRan(lists: B.Lists, numPorts: nat, word: nat, nextWord: nat, s: nat, runs: seq<ShardRun>)
  {
    forall i :: 0 <= i < |runs| ==> RanShard(lists, numPorts, word, nextWord, s, i, runs[i])
  }

  function Together(runs: seq<ShardRun>): seq<Probe>
  {
    if runs == [] then [] else Together(runs[..|runs| - 1]) + runs[|runs| - 1].out
  }

  lemma {:induction false} ProbesAppend(t: Tree, x: seq<Slot>, y: seq<Slot>)
    requires DepthAtMost(t, 32) && AllBelow(x, Total(t, B.ALLOWED, 32)) && AllBelow(y, Total(t, B.ALLOWED, 32))
    ensures AllBelow(x + y, Total(t, B.ALLOWED, 32)) && Probes(t, x + y) == Probes(t, x) + Probes(t, y)
    decreases |y|
  {
    hide Total, Select, DepthAtMost;
    if y == [] {
      assert x + y == x;
    } else {
      var last, rest := y[|y| - 1], y[..|y| - 1];
      ProbesAppend(t, x, rest);
      assert (x + y)[..|x + y| - 1] == x + rest && (x + y)[|x + y| - 1] == last;
    }
  }

  /** Runs of the same scan share the tree, the cycle and the bounds. */
  lemma {:induction false} SameScan(lists: B.Lists, numPorts: nat, word: nat, nextWord: nat, t: Tree, c: Cycle, w: View,
                                    u: Tree, d: Cycle, v: View)
    requires ScanOf(lists, numPorts, word, nextWord, t, c, w) && ScanOf(lists, numPorts, word, nextWord, u, d, v)
    ensures t == u && c == d && w == v
  {
    hide ValidCycle, ValidView, I.Chosen, Build, DepthAtMost, Total;
    I.ChosenUnique(Total(t, B.ALLOWED, 32), numPorts, word, nextWord, c, w, d, v);
  }

  lemma {:induction false} TogetherIsAll(lists: B.Lists, numPorts: nat, word: nat, nextWord: nat, t: Tree, c: Cycle,
                                         w: View, s: nat, runs: seq<ShardRun>)
    requires ScanOf(lists, numPorts, word, nextWord, t, c, w) && 0 < s < c.order && |runs| <= s
    requires AllRan(lists, numPorts, word, nextWord, s, runs)
    ensures AllBelow(AllEmitted(c, s, w, |runs|), Total(t, B.ALLOWED, 32))
    ensures Together(runs) == Probes(t, AllEmitted(c, s, w, |runs|))
    decreases |runs|
  {
    hide ValidCycle, ValidView, I.Chosen, Build, DepthAtMost, Total, Emitted, Probes, ArcBegin, ArcEnd;
    if runs == [] {
      ProbesNil(t);
    } else {
      var n := |runs| - 1;
      var last := runs[n];
      assert RanShard(lists, numPorts, word, nextWord, s, n, last);
      SameScan(lists, numPorts, word, nextWord, t, c, w, last.t, last.c, last.w);
      assert forall i :: 0 <= i < n ==> runs[..n][i] == runs[i];
      TogetherIsAll(lists, numPorts, word, nextWord, t, c, w, s, runs[..n]);
      ProbesAppend(t, AllEmitted(c, s, w, n), ArcSlots(c, w, s, n));
    }
  }

  lemma {:induction false} ScanFacts(lists: B.Lists, numPorts: nat, word: nat, nextWord: nat, t: Tree, c: Cycle,
                                     w: View)
    requires ScanOf(lists, numPorts, word, nextWord, t, c, w)
    ensures t == Build(lists.InitialValue(), lists.History()) && DepthAtMost(t, 32)
    ensures ValidCycle(c) && ValidView(w, c) && w.maxIndex == Total(t, B.ALLOWED, 32) && w.portCount == numPorts
    ensures w.bits <= 16 && w.maxIndex < TWO_32 && I.BitsFor(numPorts, w.bits)
    ensures I.Chosen(Total(t, B.ALLOWED, 32), numPorts, word, nextWord, c, w)
  {
    hide Build, DepthAtMost, Total, ValidCycle, P2;
  }

  lemma {:induction false} RunsAreFew(lists: B.Lists, numPorts: nat, word: nat, nextWord: nat, t: Tree, c: Cycle,
                                      w: View, runs: seq<ShardRun>)
    requires ScanOf(lists, numPorts, word, nextWord, t, c, w) && runs != []
    requires AllRan(lists, numPorts, word, nextWord, |runs|, runs)
    ensures |runs| < c.order
  {
    hide ScanOf, ArcSlots, AllBelow, Probes, Total;
    var run := runs[0];
    assert RanShard(lists, numPorts, word, nextWord, |runs|, 0, run);
    SameScan(lists, numPorts, word, nextWord, t, c, w, run.t, run.c, run.w);
  }

  /** For any lists, ports, random words and number of shards: what all the shards print together holds every
      permitted address once for each port index and nothing else, if and only if each element that the 32-bit cast
      would repeat starts a shard. */
  lemma {:induction false} WholeScanIff(lists: B.Lists, numPorts: nat, word: nat, nextWord: nat, t: Tree, c: Cycle,
                                        w: View, runs: seq<ShardRun>)
    requires lists.Valid() && ScanOf(lists, numPorts, word, nextWord, t, c, w) && runs != [] && |runs| < c.order
    requires AllRan(lists, numPorts, word, nextWord, |runs|, runs)
    ensures PrintsOnce(lists, numPorts, Together(runs)) <==> Repeats(c, w) <= Starts(c, |runs|, |runs|)
  {
    hide *;
    ScanFacts(lists, numPorts, word, nextWord, t, c, w);
    TogetherIsAll(lists, numPorts, word, nextWord, t, c, w, |runs|, runs);
    EveryTargetPrintedOnceIff(lists, t, c, |runs|, w);
  }

  /** In particular for any number of shards when the group is not wider than 32 bits of address, which the sizes of
      the scan decide: at most 2^28 addresses on any ports, and up to 2^31 on suitable numbers of ports. */
  lemma {:induction false} WholeScan(lists: B.Lists, numPorts: nat, word: nat, nextWord: nat, t: Tree, c: Cycle,
                                     w: View, runs: seq<ShardRun>)
    requires lists.Valid() && ScanOf(lists, numPorts, word, nextWord, t, c, w) && runs != []
    requires AllRan(lists, numPorts, word, nextWord, |runs|, runs)
    requires c.order <= TWO_32 * P2(w.bits)
    ensures PrintsOnce(lists, numPorts, Together(runs))
  {
    hide *;
    RunsAreFew(lists, numPorts, word, nextWord, t, c, w, runs);
    ScanFacts(lists, numPorts, word, nextWord, t, c, w);
    TogetherIsAll(lists, numPorts, word, nextWord, t, c, w, |runs|, runs);
    EveryTargetPrintedOnce(lists, t, c, |runs|, w);
  }

  /** With fewer shards than repeating elements, on any ports: exactly once if and only if the addresses need no more
      than NARROW bits, so that no element repeats. */
  lemma {:induction false} FewShardsPrintOnceIff(lists: B.Lists, numPorts: nat, word: nat, nextWord: nat, t: Tree,
                                                 c: Cycle, w: View, runs: seq<ShardRun>)
    requires lists.Valid() && ScanOf(lists, numPorts, word, nextWord, t, c, w) && runs != [] && w.bits <= 16
    requires AllRan(lists, numPorts, word, nextWord, |runs|, runs) && numPorts >= 1
    requires |runs| < |Repeats(c, w)| || Total(t, B.ALLOWED, 32) <= P2(I.NARROW[w.bits])
    ensures PrintsOnce(lists, numPorts, Together(runs)) <==> Total(t, B.ALLOWED, 32) <= P2(I.NARROW[w.bits])
  {
    hide *;
    ScanFacts(lists, numPorts, word, nextWord, t, c, w);
    RunsAreFew(lists, numPorts, word, nextWord, t, c, w, runs);
    I.ChosenNarrow(Total(t, B.ALLOWED, 32), numPorts, word, nextWord, c, w);
    if c.order <= TWO_32 * P2(w.bits) {
      WholeScan(lists, numPorts, word, nextWord, t, c, w, runs);
    } else {
      WholeScanIff(lists, numPorts, word, nextWord, t, c, w, runs);
      FewShardsExactIff(c, |runs|, w);
      ExactIffStarts(c, |runs|, w);
    }
  }

  lemma {:induction false} OneRan(lists: B.Lists, numPorts: nat, word: nat, nextWord: nat, run: ShardRun)
    requires RanShard(lists, numPorts, word, nextWord, 1, 0, run)
    ensures AllRan(lists, numPorts, word, nextWord, 1, [run])
  {
    hide RanShard;
  }

  /** In particular with one shard, on any ports. */
  lemma {:induction false} OneShardPrintsOnceIff(lists: B.Lists, numPorts: nat, word: nat, nextWord: nat, t: Tree,
                                                 c: Cycle, w: View, run: ShardRun)
    requires lists.Valid() && ScanOf(lists, numPorts, word, nextWord, t, c, w) && numPorts >= 1
    requires RanShard(lists, numPorts, word, nextWord, 1, 0, run) && w.bits <= 16
    ensures PrintsOnce(lists, numPorts, Together([run])) <==> Total(t, B.ALLOWED, 32) <= P2(I.NARROW[w.bits])
  {
    hide *;
    OneRan(lists, numPorts, word, nextWord, run);
    ScanFacts(lists, numPorts, word, nextWord, t, c, w);
    I.ChosenNarrow(Total(t, B.ALLOWED, 32), numPorts, word, nextWord, c, w);
    if c.order > TWO_32 * P2(w.bits) {
      TwoPorts(numPorts, w.bits);
      WideRepeatsTwice(c, w);
    }
    FewShardsPrintOnceIff(lists, numPorts, word, nextWord, t, c, w, [run]);
  }

  lemma {:induction false} OnePortNoBits(bits: nat)
    requires I.BitsFor(1, bits)
    ensures bits == 0 && P2(bits) == 1
  {
  }

  lemma {:induction false} TwoPorts(numPorts: nat, bits: nat)
    requires I.BitsFor(numPorts, bits)
    ensures bits > 0 ==> numPorts >= 2
  {
  }

  /** On a single port, with fewer than 14 shards: exactly once if and only if at most 2^28 addresses are permitted.
      Beyond that the group has the 14 elements above 2^32. */
  lemma {:induction false} SinglePortExactIff(lists: B.Lists, word: nat, nextWord: nat, t: Tree, c: Cycle, w: View,
                                              runs: seq<ShardRun>)
    requires lists.Valid() && ScanOf(lists, 1, word, nextWord, t, c, w) && runs != [] && |runs| < 14
    requires AllRan(lists, 1, word, nextWord, |runs|, runs)
    ensures PrintsOnce(lists, 1, Together(runs)) <==> Total(t, B.ALLOWED, 32) <= 0x1000_0000
  {
    hide *;
    ScanFacts(lists, 1, word, nextWord, t, c, w);
    RunsAreFew(lists, 1, word, nextWord, t, c, w, runs);
    OnePortNoBits(w.bits);
    I.Widths();
    I.ChosenNarrow(Total(t, B.ALLOWED, 32), 1, word, nextWord, c, w);
    I.ChosenOrder(Total(t, B.ALLOWED, 32), 1, word, nextWord, c, w);
    if Total(t, B.ALLOWED, 32) > 0x1000_0000 {
      ManyRepeats(c, w, 14);
    }
    FewShardsPrintOnceIff(lists, 1, word, nextWord, t, c, w, runs);
  }

  /** All shards of a scan, one run after another without a host limit. */
  method RunAll(lists: B.Lists, ignoreInvalid: bool, totalShards: nat, numPorts: nat, word: nat, nextWord: nat)
    returns (outcome: Outcome, ghost t: Tree, ghost c: Cycle, ghost w: View)
    requires lists.Valid() && totalShards > 0 && 1 <= numPorts <= 0x1_0000
    ensures if Stops(lists, ignoreInvalid) then outcome.Aborted?
            else ScanOf(lists, numPorts, word, nextWord, t, c, w) && EndsAs(outcome, totalShards, c)
    ensures outcome.Wraps? ==> numPorts > 256
    ensures outcome.Printed? ==> ValidCycle(c) && totalShards < c.order && w.bits <= 16
    ensures outcome.Printed? ==>
              (PrintsOnce(lists, numPorts, outcome.out) <==> Repeats(c, w) <= Starts(c, totalShards, totalShards))
    ensures outcome.Printed? && w.maxIndex <= P2(I.NARROW[w.bits]) ==> PrintsOnce(lists, numPorts, outcome.out)
  {
    I.Widths();
    hide *;
    t, c, w := Leaf(0), Cycle(Group(0, 0, []), 0, 0, 0), View(0, 0, 0);
    var out := [];
    ghost var runs := [];
    NoneRan(lists, numPorts, word, nextWord, totalShards);
    var i := 0;
    while i < totalShards
      invariant i == |runs| <= totalShards && out == Together(runs)
      invariant AllRan(lists, numPorts, word, nextWord, totalShards, runs)
      invariant i > 0 ==> !Stops(lists, ignoreInvalid) && ScanOf(lists, numPorts, word, nextWord, t, c, w)
      invariant i > 0 ==> EndsAs(Printed(out), totalShards, c) && ValidCycle(c) && totalShards < c.order
    {
      var one;
      ghost var slots;
      one, t, c, w, slots := Run(lists, ignoreInvalid, i, totalShards, numPorts, 0, word, nextWord);
      if !one.Printed? {
        return one, t, c, w;
      }
      SamePrinted(one.out, out + one.out, totalShards, c);
      RanNext(lists, numPorts, word, nextWord, totalShards, runs, ShardRun(t, c, w, one.out));
      out := out + one.out;
      runs := runs + [ShardRun(t, c, w, one.out)];
      i := i + 1;
    }
    outcome := Printed(out);
    WholeScanIff(lists, numPorts, word, nextWord, t, c, w, runs);
    ScanFacts(lists, numPorts, word, nextWord, t, c, w);
    I.ChosenNarrow(Total(t, B.ALLOWED, 32), numPorts, word, nextWord, c, w);
    if c.order <= TWO_32 * P2(w.bits) {
      WholeScan(lists, numPorts, word, nextWord, t, c, w, runs);
    }
  }

  lemma {:induction false} SamePrinted(out: seq<Probe>, more: seq<Probe>, totalShards: nat, c: Cycle)
    requires EndsAs(Printed(out), totalShards, c)
    ensures EndsAs(Printed(more), totalShards, c)
  {
  }

  lemma {:induction false} NoneRan(lists: B.Lists, numPorts: nat, word: nat, nextWord: nat, s: nat)
    ensures AllRan(lists, numPorts, word, nextWord, s, []) && Together([]) == []
  {
  }

  lemma {:induction false} RanNext(lists: B.Lists, numPorts: nat, word: nat, nextWord: nat, s: nat,
                                   runs: seq<ShardRun>, run: ShardRun)
    requires AllRan(lists, numPorts, word, nextWord, s, runs) && |runs| < s
    requires ScanOf(lists, numPorts, word, nextWord, run.t, run.c, run.w) && ValidCycle(run.c) && s < run.c.order
    requires PrintsSlots(run.t, ArcSlots(run.c, run.w, s, |runs|), run.out)
    ensures AllRan(lists, numPorts, word, nextWord, s, runs + [run])
    ensures Together(runs + [run]) == Together(runs) + run.out
  {
    hide ScanOf, ValidCycle, DepthAtMost, ArcSlots, Probes, AllBelow;
    assert (runs + [run])[..|runs|] == runs;
  }
}
