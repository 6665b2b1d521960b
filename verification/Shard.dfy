/** src/shard.c: one subshard's walk along its arc of the cycle. */
module Shard {
  import opened Modular
  import opened NumberTheory
  import opened Bits
  import opened Cyclic
  import opened ShardWalk
  import opened Coverage

  /** `current *= factor; current %= modulus` on 64-bit words. */
  function Step(current: nat, factor: nat, modulus: nat): nat
    requires modulus > 0
  {
    (current * factor) % TWO_64 % modulus
  }

  /** The product of any element with the generator fits 64 bits. */
  predicate WidthOk(factor: nat, modulus: nat)
  {
    modulus > 0 && factor * (modulus - 1) < TWO_64
  }

  lemma {:induction false} StepInGroup(current: nat, factor: nat, modulus: nat)
    requires WidthOk(factor, modulus) && current < modulus
    ensures Step(current, factor, modulus) == Rem(current * factor, modulus)
  {
    assert current * factor <= (modulus - 1) * factor;
    RemIsMod(current * factor, modulus);
  }

  lemma {:induction false} TwoPowersCoprime(p: nat, e: nat)
    requires IsPrime(p) && p > 2
    ensures !Divides(p, P2(e))
  {
    if e > 0 {
      TwoPowersCoprime(p, e - 1);
      if Divides(p, P2(e)) {
        Euclid(p, 2, P2(e - 1));
      }
    }
  }

  lemma {:induction false} OverflowChangesResidue(p: nat, k: nat, r: nat)
    requires IsPrime(p) && p > 2 && 0 < k < p
    ensures Rem(r + k * TWO_64, p) != Rem(r, p)
  {
    WordSizes();
    TwoPowersCoprime(p, 64);
    CongruentIffDivides(p, r, k * TWO_64);
    if Divides(p, k * TWO_64) {
      Euclid(p, k, TWO_64);
    }
  }

  lemma {:induction false} OverflowCount(n: nat, c: nat, f: nat, p: nat) returns (k: nat, r: nat)
    requires n == c * f && c < p && f < TWO_64 && n >= TWO_64
    ensures n == r + k * TWO_64 && r == n % TWO_64 && 0 < k < p
  {
    k, r := n / TWO_64, n % TWO_64;
    assert n < p * TWO_64 by {
      assert c * f <= c * TWO_64;
      assert c * TWO_64 < p * TWO_64;
    }
  }

  /** The 64-bit step is the group step at current exactly when the product does not overflow. */
  lemma {:induction false} StepExactIff(current: nat, factor: nat, p: nat)
    requires IsPrime(p) && p > 2 && current < p && factor < TWO_64
    ensures Step(current, factor, p) == Rem(current * factor, p) <==> current * factor < TWO_64
  {
    var n := current * factor;
    RemIsMod(n, p);
    if n >= TWO_64 {
      var k, r := OverflowCount(n, current, factor, p);
      OverflowChangesResidue(p, k, r);
      RemIsMod(r, p);
    }
  }

  /** The width condition is exact: the walk's step is right at every element iff it holds. */
  lemma {:induction false} WidthExact(factor: nat, p: nat)
    requires IsPrime(p) && p > 2 && factor < TWO_64
    ensures WidthOk(factor, p) <==>
            forall x: nat :: x < p ==> Step(x, factor, p) == Rem(x * factor, p)
  {
    if WidthOk(factor, p) {
      forall x: nat | x < p ensures Step(x, factor, p) == Rem(x * factor, p) {
        StepInGroup(x, factor, p);
      }
    } else {
      StepExactIff(p - 1, factor, p);
      assert (p - 1) * factor == factor * (p - 1);
    }
  }

  /** In the last two rows of the table the 2^22 cap is not enough: the generator must be smaller. */
  lemma {:induction false} WidthOfTableRows(row: nat, generator: nat)
    requires row < |GROUPS| && generator < TWO_22
    ensures WidthOk(generator, GROUPS[row].prime) <==>
            row <= 8 || (row == 9 && generator <= 1048575) || (row == 10 && generator <= 65535)
  {
  }

  lemma {:induction false} OnlyBeginIsStart(order: nat, s: nat, i: nat, j: nat)
    requires 0 < s <= order && i < s && ArcBegin(order, s, i) <= j < ArcEnd(order, s, i)
    ensures IsStart(order, s, j) <==> j == ArcBegin(order, s, i)
  {
    ArcBounds(order, s, i);
    ArcsPartition(order, s, j, i);
  }

  /** The subshard number of a thread: sub_idx in shard_init. */
  function SubIndex(shardIdx: nat, threadIdx: nat, numThreads: nat): nat
  {
    shardIdx * numThreads + threadIdx
  }

  /** Shards times threads number the subshards 0..N*T-1 without gaps or repeats. */
  lemma {:induction false} SubIndexIsBijective(numShards: nat, numThreads: nat, i: nat)
    requires numThreads > 0 && i < numShards * numThreads
    ensures i / numThreads < numShards && SubIndex(i / numThreads, i % numThreads, numThreads) == i
    ensures forall n: nat, t: nat :: n < numShards && t < numThreads && SubIndex(n, t, numThreads) == i ==>
              n == i / numThreads && t == i % numThreads
  {
    var q := i / numThreads;
    assert q >= numShards ==> numThreads * q >= numThreads * numShards;
    forall n: nat, t: nat | n < numShards && t < numThreads && SubIndex(n, t, numThreads) == i
      ensures n == i / numThreads && t == i % numThreads
    {
      DivModCompose(n, t, numThreads);
    }
  }

  // ---------- Quotas ----------

  /** What subshard i of s should scan when total targets are wanted. */
  function Share(total: nat, s: nat, i: nat): nat
    requires s > 0
  {
    total / s + if i < total % s then 1 else 0
  }

  /** The shares are as even as they can be, the larger ones first. */
  lemma {:induction false} SharesEven(total: nat, s: nat, i: nat, j: nat)
    requires i <= j < s
    ensures Share(total, s, j) <= Share(total, s, i) <= Share(total, s, j) + 1
  {
  }

  /** max_targets_this_shard, which has 32 bits. */
  function Quota(total: nat, s: nat, i: nat): nat
    requires s > 0
  {
    var share := total / s % TWO_32;
    if i < total % s then (share + 1) % TWO_32 else share
  }

  /** What the first n of s subshards may scan. */
  function QuotaSum(total: nat, s: nat, n: nat): nat
    requires s > 0
  {
    if n == 0 then 0 else QuotaSum(total, s, n - 1) + Quota(total, s, n - 1)
  }

  lemma {:induction false} QuotaOfShare(total: nat, s: nat, i: nat)
    requires s > 0
    ensures Quota(total, s, i) <= Share(total, s, i)
    ensures Quota(total, s, i) == Share(total, s, i) <==> Share(total, s, i) < TWO_32
  {
    var x := total / s;
    assert x % TWO_32 <= x && (x + 1) % TWO_32 == (x % TWO_32 + 1) % TWO_32;
  }

  lemma {:induction false} QuotaSumBound(total: nat, s: nat, n: nat, whole: nat, extra: nat)
    requires s > 0 && whole == total / s && extra == total % s
    ensures var due := n * whole + if n < extra then n else extra;
            QuotaSum(total, s, n) <= due &&
            (QuotaSum(total, s, n) == due <==> forall i: nat :: i < n ==> Share(total, s, i) < TWO_32)
  {
    if n > 0 {
      QuotaSumBound(total, s, n - 1, whole, extra);
      QuotaOfShare(total, s, n - 1);
      hide Quota;
      assert n * whole == (n - 1) * whole + whole;
    }
  }

  /** The quotas of all subshards make up the total if and only if the largest share fits 32 bits. */
  lemma {:induction false} QuotasAddUpIff(total: nat, s: nat)
    requires s > 0
    ensures QuotaSum(total, s, s) == total <==> Share(total, s, 0) < TWO_32
  {
    QuotaSumBound(total, s, s, total / s, total % s);
    assert total == s * (total / s) + total % s;
    hide QuotaSum;
    assert forall i: nat :: Share(total, s, i) <= Share(total, s, 0);
  }

  /** A limit of 2^32 targets on one subshard leaves a quota of 0, which stands for no limit. */
  lemma {:induction false} QuotaWraps()
    ensures Quota(TWO_32, 1, 0) == 0 && QuotaSum(TWO_32, 1, 1) != TWO_32
  {
    QuotasAddUpIff(TWO_32, 1);
  }

  /** Where no limit is given the total is 2^64 - 1, for which no number of subshards that 16 bits of shards and 8 bits
      of threads allow gets quotas that make it up. One subshard gets 2^32 - 1. */
  lemma {:induction false} DefaultLimitLost(s: nat)
    requires 0 < s <= 0xFFFF * 0xFF
    ensures QuotaSum(TWO_64 - 1, s, s) != TWO_64 - 1 && Quota(TWO_64 - 1, 1, 0) == TWO_32 - 1
  {
    QuotasAddUpIff(TWO_64 - 1, s);
    QuotientAtLeast(TWO_64 - 1, s, TWO_32);
    hide QuotaSum;
  }

  class Shard {
    var last: nat
    var factor: nat
    var modulus: nat
    var current: nat
    var iterations: nat
    var maxTargets: nat
    var view: View
    ghost var cycle: Cycle
    ghost var shards: nat
    ghost var index: nat
    ghost var pos: nat

    ghost function Begin(): nat
      requires shards > 0
      reads this
    {
      ArcBegin(cycle.order, shards, index)
    }

    ghost function End(): nat
      requires shards > 0
      reads this
    {
      ArcEnd(cycle.order, shards, index)
    }

    /** The walk is set up for its arc, and stands at position pos unless it is done. */
    ghost predicate Valid()
      reads this
    {
      && ValidCycle(cycle) && 0 < shards <= cycle.order && index < shards && ValidView(view, cycle)
      && factor == cycle.generator && modulus == cycle.group.prime && WidthOk(factor, modulus)
      && last == Element(cycle, End()) && Begin() < End() <= cycle.order
      && (current != 0 ==> Begin() <= pos < End() && current == Element(cycle, pos))
    }

    /** Everything but the position stays. */
    twostate predicate SameWalk()
      reads this
    {
      && last == old(last) && factor == old(factor) && modulus == old(modulus) && view == old(view)
      && maxTargets == old(maxTargets)
      && cycle == old(cycle) && shards == old(shards) && index == old(index)
    }

    /** The slots returned from the start of the arc up to, not including, position n. */
    ghost function Walked(n: nat): seq<Slot>
      requires Valid() && Begin() <= n
      reads this
    {
      Emitted(cycle, shards, view, Begin(), n)
    }

    /** The slots passed so far; the one at the current position is not among them. */
    ghost function Passed(): seq<Slot>
      requires Valid()
      reads this
    {
      Walked(if current == 0 then End() else pos)
    }

    /** The walk stands at a slot to return, or is done. */
    ghost predicate Ready()
      reads this
    {
      Valid() && (current != 0 ==> AcceptsAt(cycle, shards, view, pos))
    }

    /** shard_init, for subshard i of s. A total of 0 targets stands for no limit. */
    constructor (i: nat, s: nat, total: nat, cycle: Cycle, view: View)
      requires ValidCycle(cycle) && ValidView(view, cycle)
      requires WidthOk(cycle.generator, cycle.group.prime)
      requires i < s < cycle.order && (total == 0 || s <= total)
      ensures Ready() && this.cycle == cycle && this.view == view && shards == s && index == i
      ensures Passed() == []
      ensures maxTargets == if total == 0 then 0 else Quota(total, s, i)
    {
      var q, p := cycle.order, cycle.group.prime;
      var begin := BeginExponent(q, s, i, cycle.offset);
      var end := EndExponent(q, s, i, cycle.offset);
      PowModCorrect(cycle.generator, begin, p);
      PowModCorrect(cycle.generator, end, p);
      ArcElements(cycle, s, i);
      ArcBounds(q, s, i);
      ElementIsUnit(cycle, ArcBegin(q, s, i));
      current := PowMod(cycle.generator, begin, p);
      last := PowMod(cycle.generator, end, p);
      factor, modulus, iterations := cycle.generator, p, 0;
      maxTargets := if total == 0 then 0 else Quota(total, s, i);
      this.view, this.cycle, shards, index := view, cycle, s, i;
      pos := ArcBegin(q, s, i);
      new;
      RollToValid();
    }

    lemma {:induction false} BeginAccepted()
      requires Valid() && current != 0 && pos == Begin()
      ensures current > 0
      ensures AcceptsAt(cycle, shards, view, pos) <==>
              InRange(view, Slot(RawIndex(current - 1, view.bits), ExtractPort(current - 1, view.bits)))
      ensures Walked(pos) == [] && (!AcceptsAt(cycle, shards, view, pos) ==> Walked(pos + 1) == [])
    {
      OnlyBeginIsStart(cycle.order, shards, index, pos);
      ElementIsUnit(cycle, pos);
    }

    /** shard_roll_to_valid */
    method RollToValid()
      requires Valid() && current != 0 && pos == Begin()
      modifies this
      ensures Ready() && SameWalk() && Passed() == []
    {
      BeginAccepted();
      var port := ExtractPort(current - 1, view.bits);
      if RawIndex(current - 1, view.bits) < view.maxIndex && port < view.portCount {
        return;
      }
      var _, _ := GetNextSlot();
    }

    /** shard_get_cur_target, up to the lookup of the address and port the slot names. */
    method GetCurSlot() returns (slot: Slot, ok: bool)
      requires Ready()
      ensures ok == (current != 0)
      ensures ok ==> slot == SlotAt(cycle, view, pos) && InRange(view, slot)
    {
      if current == 0 {
        return Slot(0, 0), false;
      }
      AcceptedInRange(cycle, shards, view, pos);
      slot, ok := Slot(ExtractIp(current - 1, view.bits), ExtractPort(current - 1, view.bits)), true;
    }

    /** shard_get_next_elem */
    method GetNextElem()
      requires Valid() && current != 0
      modifies this`current
      ensures current == Element(cycle, pos + 1) && current != 0
    {
      ElementIsUnit(cycle, pos);
      ElementIsUnit(cycle, pos + 1);
      StepInGroup(current, factor, modulus);
      ElementStep(cycle, pos);
      current := (current * factor) % TWO_64;
      current := current % modulus;
    }

    /** shard_get_next_target, up to the lookup of the address and port the slot names. */
    method GetNextSlot() returns (slot: Slot, ok: bool)
      requires Valid()
      modifies this
      ensures Ready() && SameWalk() && ok == (current != 0)
      ensures ok ==> slot == SlotAt(cycle, view, pos) && InRange(view, slot) && old(pos) < pos
      ensures old(pos) <= pos
      ensures ok ==> old(current) != 0
      ensures old(current) != 0 ==> Passed() == Walked(old(pos) + 1)
    {
      hide Decode, AcceptsAt, SlotAt, Emitted, ArcBegin, ArcEnd, ValidCycle, Element, WidthOk, ValidView;
      slot, ok := Slot(0, 0), false;
      if current == 0 {
        return;
      }
      while true
        invariant Valid() && SameWalk() && current != 0
        invariant old(pos) <= pos && Walked(pos + 1) == Walked(old(pos) + 1)
        decreases End() - pos
      {
        var done := Advance();
        if done {
          return;
        }
        WalkedStep();
        slot := Decode(view, current);
        if slot.ip < view.maxIndex && slot.port < view.portCount {
          iterations := iterations + 1;
          return slot, true;
        }
      }
    }

    /** What the walk passes when it leaves the current position. */
    lemma {:induction false} WalkedStep()
      requires Valid() && current != 0
      ensures SlotAt(cycle, view, pos) == Decode(view, current)
      ensures Walked(pos + 1) ==
              Walked(pos) + if AcceptsAt(cycle, shards, view, pos) then [SlotAt(cycle, view, pos)] else []
    {
      hide AcceptsAt, ValidCycle, Decode, ArcBegin, ArcEnd, WidthOk, ValidView;
    }

    /** One turn of the loop: the next element, or the end of the arc. */
    method Advance() returns (done: bool)
      requires Valid() && current != 0
      modifies this
      ensures SameWalk() && Valid() && done == (current == 0)
      ensures done ==> pos == old(pos) && Walked(End()) == Walked(old(pos) + 1)
      ensures !done ==>
                && pos == old(pos) + 1 && Begin() < pos
                && (AcceptsAt(cycle, shards, view, pos) <==> InRange(view, Decode(view, current)))
    {
      GetNextElem();
      done := current == last;
      if done {
        if pos + 1 < End() {
          ArcBounds(cycle.order, shards, index);
          DifferentElements(cycle, pos + 1, End());
        }
        current := 0;
        iterations := iterations + 1;
      } else {
        pos := pos + 1;
        OnlyBeginIsStart(cycle.order, shards, index, pos);
      }
    }
  }
}
