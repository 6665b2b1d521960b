/** Two scans at which the widths of the code give out, from inputs the program takes. */
module Witnesses {
  import opened Modular
  import opened NumberTheory
  import opened Lucas
  import opened Bits
  import opened Options
  import opened Cyclic
  import opened GroupCertificates
  import opened ConstraintTree
  import opened ConstraintRank
  import opened ConstraintHistory
  import opened FiniteSets
  import opened ShardWalk
  import opened Coverage
  import B = Blocklist
  import S = Shard
  import I = Iterator
  import Z = Ziterate
  import opened Walk64

  // ---------- A primitive root of the last group above the 64-bit bound ----------

  const LAST: nat := 281474976710677

  lemma {:induction false} RootBy2()
    ensures Power(65537, LAST, 140737488355338, 281474976710676) && Power(65537, LAST, 281474976710676, 1)
  {
    hide Power, Rem, Pow;
    PowerZero(65537, 281474976710677);
    PowerByte(65537, 281474976710677, 0, 1, 1, 65537, 0, 4295098369, 0, 25768689581, 0, 278438570240954, 0,
              19818372660901, 0, 115672630599855, 0, 49153792823288, 0, 267524743722746);
    PowerByte(65537, 281474976710677, 128, 267524743722746, 0, 28176107819484, 0, 109573245556346, 0, 93924845537614,
              0, 101463744653302, 0, 183419928340815, 0, 277081954844367, 0, 208606553673863, 0, 11017508287439);
    PowerByte(65537, 281474976710677, 32768, 11017508287439, 0, 64722929146883, 0, 142556071106390, 0, 47332734392888,
              0, 135109365199324, 0, 107016848358919, 0, 255670884942803, 0, 130151279638366, 0, 9429915931310);
    PowerByte(65537, 281474976710677, 8388608, 9429915931310, 0, 117215174306001, 0, 170162566032806, 0,
              70815840984997, 0, 57186242176551, 0, 182673248793371, 0, 225305935820761, 0, 242871518174006, 0,
              158435664922051);
    PowerByte(65537, 281474976710677, 2147483648, 158435664922051, 0, 160844046426432, 0, 278495708199649, 0,
              215222751012401, 0, 121937982824702, 0, 16048173860903, 0, 157020031692537, 0, 211264585764883, 0,
              188275399597711);
    PowerByte(65537, 281474976710677, 549755813888, 188275399597711, 0, 37392760478136, 0, 239748378276479, 0,
              91168661438513, 0, 198113294160969, 1, 109140163970067, 0, 178150186231448, 1, 1009030090199, 0,
              281474976710676);
    PowerBit(65537, 281474976710677, 140737488355338, 281474976710676, 0, 1);
  }

  lemma {:induction false} RootBy3()
    ensures Power(65537, LAST, 93824992236892, 105339179836386)
  {
    hide Power, Rem, Pow;
    PowerZero(65537, 281474976710677);
    PowerByte(65537, 281474976710677, 0, 1, 0, 1, 1, 65537, 0, 4295098369, 1, 281427725516612, 0, 62700505462313, 1,
              252406567136227, 0, 132185686961923, 1, 110883665595368);
    PowerByte(65537, 281474976710677, 85, 110883665595368, 0, 247413130500637, 1, 147948088634530, 0, 226017621804956,
              1, 26953553079712, 0, 119181292535676, 1, 234672168867237, 0, 109426026383748, 1, 269627660631544);
    PowerByte(65537, 281474976710677, 21845, 269627660631544, 0, 202565164263177, 1, 246059023130835, 0,
              140638429978576, 1, 162827574139709, 0, 184910829032160, 1, 175938416385065, 0, 267063424594539, 1,
              53216727504150);
    PowerByte(65537, 281474976710677, 5592405, 53216727504150, 0, 222913024758880, 1, 230292260237073, 0,
              193231013610297, 1, 140560093668521, 0, 29004193146983, 1, 144701036637394, 0, 33060657411833, 1,
              94672737503923);
    PowerByte(65537, 281474976710677, 1431655765, 94672737503923, 0, 109558737020419, 1, 271753657629953, 0,
              109132604926130, 1, 89328745902271, 0, 182478262834714, 1, 239548812035452, 0, 222752823605930, 1,
              108458127389723);
    PowerByte(65537, 281474976710677, 366503875925, 108458127389723, 0, 85457074188521, 1, 75442510789960, 0,
              258548726062585, 1, 116817303127646, 1, 169282813529648, 1, 52401333406169, 0, 105339179836387, 0,
              105339179836386);
  }

  lemma {:induction false} RootBy7()
    ensures Power(65537, LAST, 40210710958668, 81337361933477)
  {
    hide Power, Rem, Pow;
    PowerZero(65537, 281474976710677);
    PowerByte(65537, 281474976710677, 0, 1, 0, 1, 0, 1, 1, 65537, 0, 4295098369, 0, 25768689581, 1, 5837728212388, 0,
              200977992005977, 0, 111078634478744);
    PowerByte(65537, 281474976710677, 36, 111078634478744, 1, 247446018960911, 0, 87096807779387, 0, 32638455480384,
              1, 173620082396798, 0, 210794923151674, 0, 28008004711862, 1, 96273821229537, 0, 107076925726404);
    PowerByte(65537, 281474976710677, 9362, 107076925726404, 0, 48831664517922, 1, 42015101737741, 0, 278973102124353,
              0, 106023465483013, 1, 206139580214489, 0, 237816076321093, 0, 52616076908680, 1, 221586254659447);
    PowerByte(65537, 281474976710677, 2396745, 221586254659447, 0, 40319757169110, 0, 107556550752352, 1,
              124866482848466, 0, 78778966448185, 0, 100192114456753, 1, 13408860299533, 0, 221687240093170, 0,
              85535056914623);
    PowerByte(65537, 281474976710677, 613566756, 85535056914623, 1, 75452028563033, 0, 162486859933253, 0,
              154299854899532, 1, 129671177241114, 0, 47114408488896, 0, 140258456853513, 1, 262027951804692, 0,
              242326042482267);
    PowerByte(65537, 281474976710677, 157073089682, 242326042482267, 0, 8792126238782, 1, 255016212185409, 0,
              67002144175133, 0, 93058415306222, 1, 15551184716238, 1, 37780145016395, 0, 140368139219476, 0,
              81337361933477);
  }

  lemma {:induction false} RootBy1361()
    ensures Power(65537, LAST, 206814824916, 103414225201268)
  {
    hide Power, Rem, Pow;
    PowerZero(65537, 281474976710677);
    PowerByte(65537, 281474976710677, 0, 1, 0, 1, 0, 1, 1, 65537, 1, 12885098476, 0, 280998215090219, 0,
              107618326087329, 0, 219363735707561, 0, 206592479189462);
    PowerByte(65537, 281474976710677, 48, 206592479189462, 0, 62793108644854, 0, 14689132146312, 1, 39930746567518, 0,
              71104501675641, 0, 220233486554680, 1, 96832066097970, 1, 15477323452096, 1, 251948977777033);
    PowerByte(65537, 281474976710677, 12327, 251948977777033, 0, 180322234427407, 0, 28093237069577, 0,
              276191828057148, 1, 87536694510805, 1, 216542651949737, 1, 105683592449177, 1, 61326862123629, 1,
              179831720137389);
    PowerByte(65537, 281474976710677, 3155743, 179831720137389, 1, 190889667648228, 1, 146167593626316, 0,
              159743198268760, 0, 228849691978316, 1, 264397230834698, 0, 92663501824554, 0, 212293998621641, 1,
              147109385567088);
    PowerByte(65537, 281474976710677, 807870409, 147109385567088, 1, 8864467446448, 1, 275784878593165, 0,
              226827894651571, 1, 76015847714683, 0, 192820461592496, 1, 122809146440850, 0, 116092892011539, 0,
              103414225201268);
  }

  lemma {:induction false} RootBy2462081249()
    ensures Power(65537, LAST, 114324, 273238834591756)
  {
    hide Power, Rem, Pow;
    PowerZero(65537, 281474976710677);
    PowerByte(65537, 281474976710677, 0, 1, 0, 1, 0, 1, 0, 1, 0, 1, 0, 1, 0, 1, 0, 1, 1, 65537);
    PowerByte(65537, 281474976710677, 1, 65537, 1, 12885098476, 0, 280998215090219, 1, 63745345847084, 1,
              164064643229119, 1, 150995452075497, 1, 28372431820478, 1, 7403166156509, 0, 5561521909628);
    PowerByte(65537, 281474976710677, 446, 5561521909628, 1, 126929348930920, 0, 257198709578028, 0, 243426427135505,
              1, 36871115073545, 0, 25373294165386, 1, 111543336714821, 0, 111370713695408, 0, 273238834591756);
  }

  /** 65537 generates the last group of the table. */
  lemma {:induction false} RootAboveBound()
    ensures IsPrime(LAST) && IsPrimitiveRoot(65537, LAST)
  {
    hide IsPrime, IsPrimitiveRoot, Divides, Rem, Pow, Power, Witness;
    var fs: seq<nat> := [2, 3, 7, 1361, 2462081249];
    Prime281474976710677();
    Certified(6, LAST, fs);
    RootBy2();
    Witnessed(65537, LAST, 2, 140737488355338, 281474976710676);
    RootBy3();
    Witnessed(65537, LAST, 3, 93824992236892, 105339179836386);
    RootBy7();
    Witnessed(65537, LAST, 7, 40210710958668, 81337361933477);
    RootBy1361();
    Witnessed(65537, LAST, 1361, 206814824916, 103414225201268);
    RootBy2462081249();
    Witnessed(65537, LAST, 2462081249, 114324, 273238834591756);
    Certified(65537, LAST, fs);
  }

  /** The cycle that the word 65536 leads to in the last group: its first candidate is 65537, and the 64-bit step from
      the element p - 1 does not give the next element of the group. */
  lemma {:induction false} GeneratorTooLarge(c: Cycle, nextWord: nat)
    requires Seeded(c, 65536, nextWord) && c.group == GROUPS[10]
    ensures c.generator == 65537 && c.group.prime == LAST && !S.WidthOk(c.generator, LAST)
    ensures S.Step(LAST - 1, c.generator, LAST) != Rem((LAST - 1) * c.generator, LAST)
  {
    hide IsPrime, IsPrimitiveRoot, Rem, Pow, S.Step, FirstRoot;
    RootAboveBound();
    RootIsFirst();
    SeededUnique(c, Cycle(GROUPS[10], 65537, LAST - 1, c.offset), 65536, nextWord);
    S.StepExactIff(LAST - 1, 65537, LAST);
  }

  lemma {:induction false} RootIsFirst()
    requires IsPrimitiveRoot(65537, LAST)
    ensures FirstRoot(65537, 65536, LAST)
  {
    hide IsPrimitiveRoot;
    assert Candidate(65536, LAST, 1) == 65537;
  }

  // ---------- Scans without lists ----------

  const NO_LISTS: B.Lists := B.Lists(None, [], None, [])

  lemma {:induction false} NoListsPermit(a: nat)
    ensures NO_LISTS.Valid() && (NO_LISTS.Permits(a) <==> a != 0)
    ensures !NO_LISTS.AnyFatal(false) && !Z.Stops(NO_LISTS, false)
  {
    assert NO_LISTS.Allow() == [] && NO_LISTS.Block() == [];
    assert NO_LISTS.Permits(1);
  }

  /** Without lists every address but 0.0.0.0 is permitted. */
  lemma {:induction false} NoListsCount(t: Tree)
    requires t == Build(NO_LISTS.InitialValue(), NO_LISTS.History()) && DepthAtMost(t, 32)
    ensures Total(t, B.ALLOWED, 32) == TWO_32 - 1
  {
    WordSizes();
    NoListsPermit(0);
    hide *;
    Z.CountFits(NO_LISTS, t);
    var permitted := Addresses(t, 32, B.ALLOWED);
    forall a: nat ensures a in permitted <==> a in Range(1, P2(32)) {
      NoListsPermit(a);
      InAddresses(t, a);
      if a < P2(32) { Z.AllowedIffPermitted(NO_LISTS, a); }
    }
    assert permitted == Range(1, P2(32));
    RangeSize(1, P2(32));
  }

  lemma {:induction false} InAddresses(t: Tree, a: nat)
    requires DepthAtMost(t, 32)
    ensures a in Addresses(t, 32, B.ALLOWED) <==> a < P2(32) && At(t, 32, a) == B.ALLOWED
    ensures a in Range(1, P2(32)) <==> 1 <= a < P2(32)
  {
    hide P2, At, DepthAtMost;
  }

  lemma {:induction false} BitsOf(n: nat, r: nat, bits: nat)
    requires I.BitsFor(n, bits) && (r == 0 || P2(r - 1) < n) && n <= P2(r)
    ensures bits == r
  {
    hide P2;
    assert I.BitsFor(n, r);
    I.BitsForUnique(n, bits, r);
  }

  /** A scan without lists on all 65536 ports takes the last group. */
  lemma {:induction false} AllPortsGroup(word: nat, nextWord: nat, c: Cycle, w: View)
    requires I.Chosen(TWO_32 - 1, 0x1_0000, word, nextWord, c, w)
    ensures c.group == GROUPS[10] && Seeded(c, word, nextWord) && w == View(TWO_32 - 1, 0x1_0000, 16)
  {
    hide I.BitsFor, I.SmallestAbove, Seeded, P2, GROUPS;
    var ipBits: nat :| I.BitsFor(TWO_32 - 1, ipBits) && I.SmallestAbove(c.group, ipBits + w.bits);
    SizesOf(ipBits, w.bits);
    I.SmallestIs(c.group, 48, 0);
    var i := I.RowIndex(c.group);
    LastRowAlone(i);
  }

  lemma {:induction false} SizesOf(ipBits: nat, bits: nat)
    requires I.BitsFor(TWO_32 - 1, ipBits) && I.BitsFor(0x1_0000, bits)
    ensures ipBits == 32 && bits == 16 && P2(48) == 0x1_0000_0000_0000 && |GROUPS| == 11
  {
    I.P2Values();
    I.Widths();
    P2Next(31);
    P2Next(15);
    hide *;
    BitsOf(TWO_32 - 1, 32, ipBits);
    BitsOf(0x1_0000, 16, bits);
    TableSize();
  }

  lemma {:induction false} TableSize()
    ensures |GROUPS| == 11
  {
  }

  lemma {:induction false} LastRowAlone(i: nat)
    requires i < |GROUPS| && GROUPS[i].prime > 0x1_0000_0000_0000
    ensures i == 10
  {
  }

  /** Seeded with the word 65536, that scan has a generator too large for the 64-bit walk. */
  method AllPortsWraps(nextWord: nat) returns (outcome: Z.Outcome)
    ensures outcome.Wraps?
  {
    hide *;
    I.Widths();
    NoListsPermit(0);
    ghost var t, c, w, slots;
    outcome, t, c, w, slots := Z.Run(NO_LISTS, false, 0, 1, 0x1_0000, 0, 65536, nextWord);
    Z.ScanFacts(NO_LISTS, 0x1_0000, 65536, nextWord, t, c, w);
    NoListsCount(t);
    AllPortsGroup(65536, nextWord, c, w);
    GeneratorTooLarge(c, nextWord);
    Z.EndsAsIs(outcome, 1, c);
    Z.WidthIs(c);
    CycleOrder(c);
  }

  // ---------- What the 64-bit walk does there ----------

  const ONE: nat := 281470681808896
  const OTHER: nat := 98516456593826

  /** Two elements have the same successor, where the group would keep them apart. */
  lemma {:induction false} SameSuccessor()
    ensures ONE != OTHER && S.Step(ONE, 65537, LAST) == 65536 == S.Step(OTHER, 65537, LAST)
  {
  }

  /** With all ports an element whose address index is neither 0 nor the last is the only one for its slot. */
  lemma {:induction false} OnlyElement(w: View, x: nat, z: nat)
    requires w.bits == 16 && 0x1_0000 < x <= 0xFFFF_FFFF * 0x1_0000 && z < LAST
    requires SlotOf(w, z) == SlotOf(w, x)
    ensures z == x
  {
    I.P2Values();
    hide P2, ExtractPort, And;
    PortIsLowBits(Before(x), 16);
    PortIsLowBits(Before(z), 16);
    var u, v := x - 1, Before(z);
    assert u == 0x1_0000 * (u / 0x1_0000) + u % 0x1_0000 && 0 < u / 0x1_0000 < 0xFFFF_FFFF;
    assert v == 0x1_0000 * (v / 0x1_0000) + v % 0x1_0000;
  }

  lemma {:induction false} InScan(w: View, x: nat)
    requires w == View(TWO_32 - 1, 0x1_0000, 16) && 0x1_0000 < x <= 0xFFFF_FFFF * 0x1_0000
    ensures InRange(w, SlotOf(w, x))
  {
    I.P2Values();
    hide P2, ExtractPort, And;
    PortIsLowBits(x - 1, 16);
  }

  /** The one-shard walk of a scan with that generator, if it ends, misses one of the two slots. */
  lemma {:induction false} OneIsMissed(c: Cycle, w: View, k: nat) returns (slot: Slot)
    requires ValidCycle(c) && c.generator == 65537 && c.group.prime == LAST
    requires w == View(TWO_32 - 1, 0x1_0000, 16)
    requires EndsAt(c, Element(c, ArcBegin(c.order, 1, 0)), Element(c, ArcEnd(c.order, 1, 0)), k)
    ensures InRange(w, slot) && slot !in Z.Slots64(c, w, 1, 0, k)
  {
    ElementIsUnit(c, ArcBegin(c.order, 1, 0));
    SameSuccessor();
    hide *;
    var first, last := Element(c, ArcBegin(c.order, 1, 0)), Element(c, ArcEnd(c.order, 1, 0));
    forall z: nat | z < LAST && SlotOf(w, z) == SlotOf(w, ONE) ensures z == ONE {
      OnlyElement(w, ONE, z);
    }
    forall z: nat | z < LAST && SlotOf(w, z) == SlotOf(w, OTHER) ensures z == OTHER {
      OnlyElement(w, OTHER, z);
    }
    OneOfTwoMissed(c, w, first, last, k, ONE, OTHER);
    InScan(w, ONE);
    InScan(w, OTHER);
    slot := if SlotOf(w, ONE) !in Returned(c, w, first, k) then SlotOf(w, ONE) else SlotOf(w, OTHER);
  }

  /** So no walk of that scan by one shard that ends prints what is due: exactly-once needs the width condition. */
  lemma {:induction false} AllPortsMisses(nextWord: nat, t: Tree, c: Cycle, w: View, k: nat, out: seq<Z.Probe>)
    requires Z.ScanOf(NO_LISTS, 0x1_0000, 65536, nextWord, t, c, w) && c.group.prime > 0
    requires Z.Prints64(t, c, w, 1, 0, k, out)
    ensures !Z.PrintsOnce(NO_LISTS, 0x1_0000, out)
  {
    hide *;
    I.Widths();
    NoListsPermit(0);
    Z.ScanFacts(NO_LISTS, 0x1_0000, 65536, nextWord, t, c, w);
    NoListsCount(t);
    AllPortsGroup(65536, nextWord, c, w);
    GeneratorTooLarge(c, nextWord);
    Z.Prints64Is(t, c, w, 1, 0, k, out);
    var slot := OneIsMissed(c, w, k);
    Z.MissedSlot(NO_LISTS, t, c, w, 1, 0, k, out, slot);
  }

  // ---------- The repeated target ----------

  /** With offset 0 the walk starts at the element 1. */
  lemma {:induction false} StartsAtOne(c: Cycle)
    requires ValidCycle(c) && c.offset == 0
    ensures Starts(c, 1, 1) == {1}
  {
    CycleOrder(c);
    RemIsMod(1, c.group.prime);
    assert Pow(c.generator, 0) == 1;
    assert ArcBegin(c.order, 1, 0) == 0;
    hide Pow, Rem, IsPrimitiveRoot, IsPrime;
    assert Starts(c, 1, 1) == {Element(c, ArcBegin(c.order, 1, 0))};
  }

  /** Without lists, on one port and from offset 0, the element 2^32 + 1 returns the first slot a second time. */
  lemma {:induction false} FirstSlotTwice(c: Cycle, w: View)
    requires ValidCycle(c) && ValidView(w, c) && c.offset == 0 && c.order == 0x1_0000_000e
    requires w == View(TWO_32 - 1, 1, 0)
    ensures multiset(AllEmitted(c, 1, w, 1))[Slot(0, 0)] == 2
  {
    CycleOrder(c);
    StartsAtOne(c);
    SlotCount(c, 1, w, Slot(0, 0));
    hide ValidCycle, ValidView, AllEmitted, Starts;
    var again := RepeatsOf(c, 1, w, Slot(0, 0));
    forall x | x in again ensures x == TWO_32 + 1 {
      DecodeNoPorts(w, x);
    }
    DecodeNoPorts(w, TWO_32 + 1);
    assert again == {TWO_32 + 1};
  }

  lemma {:induction false} DecodeNoPorts(w: View, x: nat)
    requires x > 0 && w.bits == 0
    ensures P2(0) == 1 && Decode(w, x) == Slot((x - 1) % TWO_32, 0)
  {
    PortIsLowBits(x - 1, 0);
  }

  /** The program run without lists on one port, with a second random word of 0, prints a permitted address twice. */
  method OnePortRepeats(word: nat) returns (outcome: Z.Outcome, ghost address: nat)
    ensures outcome.Printed? && NO_LISTS.Permits(address)
    ensures multiset(outcome.out)[Z.Probe(address, 0)] == 2
  {
    hide *;
    I.Widths();
    NoListsPermit(0);
    ghost var t, c, w, slots;
    outcome, t, c, w, slots := Z.Run(NO_LISTS, false, 0, 1, 1, 0, word, 0);
    Z.ScanFacts(NO_LISTS, 1, word, 0, t, c, w);
    NoListsCount(t);
    Z.OnePortNoBits(w.bits);
    I.ChosenOrder(TWO_32 - 1, 1, word, 0, c, w);
    ZeroOffset(TWO_32 - 1, 1, word, c, w);
    Z.EndsAsIs(outcome, 1, c);
    FirstSlotTwice(c, w);
    OneArc(c, w);
    Z.InRangeIs(w, Slot(0, 0));
    Z.PrintedIs(t, slots, outcome.out);
    Z.SlotIsDue(NO_LISTS, t, w, slots, Slot(0, 0));
    address := Select(t, B.ALLOWED, 32, 0);
    DuePermits(1, Z.Probe(address, 0));
  }

  lemma {:induction false} ZeroOffset(numAddrs: nat, numPorts: nat, word: nat, c: Cycle, w: View)
    requires I.Chosen(numAddrs, numPorts, word, 0, c, w)
    ensures c.offset == 0
  {
    hide I.BitsFor, I.SmallestAbove, FirstRoot;
  }

  lemma {:induction false} OneArc(c: Cycle, w: View)
    requires ValidCycle(c) && 1 <= c.order
    ensures AllEmitted(c, 1, w, 1) == Z.ArcSlots(c, w, 1, 0)
  {
    hide ValidCycle, Emitted;
    assert AllEmitted(c, 1, w, 0) == [];
  }

  lemma {:induction false} DuePermits(numPorts: nat, p: Z.Probe)
    requires Z.Due(NO_LISTS, numPorts, p) == 1
    ensures NO_LISTS.Permits(p.address) && p.address != 0
  {
  }
}
