/** Rank and select over a constraint tree: numbering the addresses that carry one value.
    Prefixes of RADIX_LENGTH bits that lie inside a single leaf are numbered first, through an array;
    the rest are numbered in address order, through per-node counts. */
module ConstraintRank {
  import opened Bits
  import opened ConstraintTree
  import opened FiniteSets

  // ---------- Counting ----------

  /** _count_ips_recurse: addresses valued v below t, which stands for size addresses. */
  function Count(t: Tree, v: nat, size: nat, exclude: bool): nat
  {
    match t
    case Leaf(u) => if u == v && !(exclude && size >= BLOCK) then size else 0
    case Fork(l, r) => Count(l, v, size / 2, exclude) + Count(r, v, size / 2, exclude)
  }

  ghost function Addresses(t: Tree, d: nat, v: nat): set<nat>
    requires DepthAtMost(t, d)
  {
    set a: nat | a < P2(d) && At(t, d, a) == v
  }

  ghost function Shifted(s: set<nat>, h: nat): set<nat>
  {
    set a | a in s :: a + h
  }

  lemma {:induction false} ShiftedSize(s: set<nat>, h: nat)
    ensures |Shifted(s, h)| == |s|
  {
    if s == {} {
      assert Shifted(s, h) == {};
    } else {
      var x :| x in s;
      ShiftedSize(s - {x}, h);
      assert s == s - {x} + {x};
      assert Shifted(s, h) == Shifted(s - {x}, h) + {x + h};
    }
  }

  lemma {:induction false} AddressesOfFork(t: Tree, d: nat, v: nat)
    requires t.Fork? && DepthAtMost(t, d)
    ensures var low, high := Addresses(t.left, d - 1, v), Shifted(Addresses(t.right, d - 1, v), P2(d - 1));
            Addresses(t, d, v) == low + high && low !! high
  {
    P2Next(d - 1);
    hide P2;
    var h, right := P2(d - 1), Addresses(t.right, d - 1, v);
    var all, low, high := Addresses(t, d, v), Addresses(t.left, d - 1, v), Shifted(right, h);
    forall a: nat ensures a in all <==> a in low || a in high {
      if a >= h {
        assert a in high <==> a - h in right;
      }
    }
    assert all == low + high;
  }

  /** The recursive count is the number of addresses with the value. */
  lemma {:induction false} CountIsCardinality(t: Tree, d: nat, v: nat)
    requires DepthAtMost(t, d)
    ensures Count(t, v, P2(d), false) == |Addresses(t, d, v)|
    decreases d
  {
    if t.Leaf? {
      RangeSize(0, P2(d));
      assert Addresses(t, d, v) == if t.value == v then Range(0, P2(d)) else {};
    } else {
      CountIsCardinality(t.left, d - 1, v);
      CountIsCardinality(t.right, d - 1, v);
      ShiftedSize(Addresses(t.right, d - 1, v), P2(d - 1));
      AddressesOfFork(t, d, v);
    }
  }

  function Values(t: Tree): set<nat>
  {
    match t
    case Leaf(u) => {u}
    case Fork(l, r) => Values(l) + Values(r)
  }

  function CountAll(t: Tree, vs: seq<nat>, size: nat): nat
  {
    if vs == [] then 0 else Count(t, vs[0], size, false) + CountAll(t, vs[1..], size)
  }

  lemma {:induction false} CountAllFork(t: Tree, vs: seq<nat>, size: nat)
    requires t.Fork?
    ensures CountAll(t, vs, size) == CountAll(t.left, vs, size / 2) + CountAll(t.right, vs, size / 2)
  {
    if vs != [] {
      CountAllFork(t, vs[1..], size);
    }
  }

  lemma {:induction false} CountAllLeaf(u: nat, vs: seq<nat>, size: nat)
    requires forall i, j :: 0 <= i < j < |vs| ==> vs[i] != vs[j]
    ensures CountAll(Leaf(u), vs, size) == if u in vs then size else 0
  {
    if vs != [] {
      CountAllLeaf(u, vs[1..], size);
    }
  }

  /** Counts over all values add up to the whole address space. */
  lemma {:induction false} CountsSum(t: Tree, vs: seq<nat>, d: nat)
    requires DepthAtMost(t, d)
    requires forall i, j :: 0 <= i < j < |vs| ==> vs[i] != vs[j]
    requires forall v :: v in Values(t) ==> v in vs
    ensures CountAll(t, vs, P2(d)) == P2(d)
    decreases d
  {
    if t.Leaf? {
      assert t.value in Values(t);
      CountAllLeaf(t.value, vs, P2(d));
    } else {
      CountAllFork(t, vs, P2(d));
      CountsSum(t.left, vs, d - 1);
      CountsSum(t.right, vs, d - 1);
    }
  }

  // ---------- The tree path ----------

  /** a carries v and lies in a leaf smaller than a block, so the tree counts include it. */
  predicate InTree(t: Tree, v: nat, d: nat, a: nat)
    requires DepthAtMost(t, d) && a < P2(d)
  {
    match t
    case Leaf(u) => u == v && P2(d) < BLOCK
    case Fork(l, r) => InTree(if a < P2(d - 1) then l else r, v, d - 1, Low(a, d))
  }

  /** _lookup_index: the nth address of the tree path. */
  function SelectTree(t: Tree, v: nat, d: nat, n: nat): nat
    requires DepthAtMost(t, d) && n < Count(t, v, P2(d), true)
  {
    match t
    case Leaf(u) => n
    case Fork(l, r) =>
      var c := Count(l, v, P2(d - 1), true);
      if n < c then SelectTree(l, v, d - 1, n) else P2(d - 1) + SelectTree(r, v, d - 1, n - c)
  }

  /** The position of a on the tree path. */
  function RankTree(t: Tree, v: nat, d: nat, a: nat): nat
    requires DepthAtMost(t, d) && a < P2(d)
  {
    match t
    case Leaf(u) => a
    case Fork(l, r) =>
      if a < P2(d - 1) then RankTree(l, v, d - 1, a)
      else Count(l, v, P2(d - 1), true) + RankTree(r, v, d - 1, a - P2(d - 1))
  }

  lemma {:induction false} RankOfSelect(t: Tree, v: nat, d: nat, n: nat)
    requires DepthAtMost(t, d) && n < Count(t, v, P2(d), true)
    ensures var a := SelectTree(t, v, d, n);
            a < P2(d) && InTree(t, v, d, a) && RankTree(t, v, d, a) == n
    decreases d
  {
    if t.Fork? {
      var c := Count(t.left, v, P2(d - 1), true);
      if n < c {
        RankOfSelect(t.left, v, d - 1, n);
      } else {
        RankOfSelect(t.right, v, d - 1, n - c);
      }
    }
  }

  lemma {:induction false} SelectOfRank(t: Tree, v: nat, d: nat, a: nat)
    requires DepthAtMost(t, d) && a < P2(d) && InTree(t, v, d, a)
    ensures RankTree(t, v, d, a) < Count(t, v, P2(d), true)
    ensures SelectTree(t, v, d, RankTree(t, v, d, a)) == a
    decreases d
  {
    if t.Fork? {
      SelectOfRank(if a < P2(d - 1) then t.left else t.right, v, d - 1, Low(a, d));
    }
  }

  lemma {:induction false} SelectTreeIncreases(t: Tree, v: nat, d: nat, m: nat, n: nat)
    requires DepthAtMost(t, d) && m < n < Count(t, v, P2(d), true)
    ensures SelectTree(t, v, d, m) < SelectTree(t, v, d, n)
    decreases d
  {
    if t.Fork? {
      var c := Count(t.left, v, P2(d - 1), true);
      if n < c {
        SelectTreeIncreases(t.left, v, d - 1, m, n);
      } else if m < c {
        RankOfSelect(t.left, v, d - 1, m);
      } else {
        SelectTreeIncreases(t.right, v, d - 1, m - c, n - c);
      }
    }
  }

  // ---------- The radix path ----------

  /** _lookup_node: the node that decides the values below the len-bit prefix i. */
  function SubtreeAt(t: Tree, len: nat, i: nat): Tree
    requires i < P2(len)
  {
    if len == 0 || t.Leaf? then t
    else SubtreeAt(if i < P2(len - 1) then t.left else t.right, len - 1, Low(i, len))
  }

  predicate InRadix(t: Tree, v: nat, len: nat, i: nat)
    requires i < P2(len)
  {
    SubtreeAt(t, len, i) == Leaf(v)
  }

  /** The radix array after its filling loop has seen the first n prefixes. */
  function Radix(t: Tree, v: nat, len: nat, n: nat): (s: seq<nat>)
    requires n <= P2(len)
    ensures |s| <= n
  {
    if n == 0 then []
    else if InRadix(t, v, len, n - 1) then Radix(t, v, len, n - 1) + [(n - 1) * BLOCK]
    else Radix(t, v, len, n - 1)
  }

  lemma {:induction false} RadixEntry(t: Tree, v: nat, len: nat, n: nat, k: nat)
    requires n <= P2(len) && k < |Radix(t, v, len, n)|
    ensures exists i: nat :: i < n && InRadix(t, v, len, i) &&
              Radix(t, v, len, n)[k] == i * BLOCK && |Radix(t, v, len, i)| == k
  {
    if k < |Radix(t, v, len, n - 1)| {
      RadixEntry(t, v, len, n - 1, k);
    } else {
      assert InRadix(t, v, len, n - 1);
    }
  }

  lemma {:induction false} RadixPosition(t: Tree, v: nat, len: nat, n: nat, i: nat)
    requires i < n <= P2(len) && InRadix(t, v, len, i)
    ensures |Radix(t, v, len, i)| < |Radix(t, v, len, n)| && Radix(t, v, len, n)[|Radix(t, v, len, i)|] == i * BLOCK
  {
    if i < n - 1 {
      RadixPosition(t, v, len, n - 1, i);
    }
  }

  // ---------- Both paths ----------

  lemma {:induction false} SmallBlocksAreInTree(t: Tree, v: nat, d: nat, a: nat)
    requires DepthAtMost(t, d) && a < P2(d) && P2(d) < BLOCK
    ensures InTree(t, v, d, a) <==> At(t, d, a) == v
    decreases d
  {
    if t.Fork? {
      SmallBlocksAreInTree(if a < P2(d - 1) then t.left else t.right, v, d - 1, Low(a, d));
    }
  }

  lemma {:induction false} BlockSplit(d: nat, a: nat)
    requires d > 14 && a < P2(d)
    ensures P2(d - 1) == P2(d - 15) * BLOCK
    ensures a / BLOCK < P2(d - 14)
    ensures a < P2(d - 1) <==> a / BLOCK < P2(d - 15)
    ensures Low(a, d) / BLOCK == Low(a / BLOCK, d - 14)
  {
    P2Sum(d - 15, 14);
    Powers();
    assert P2(d - 14) == 2 * P2(d - 15);
  }

  /** An address carries v iff exactly one path numbers it. */
  lemma {:induction false} ExactlyOnePath(t: Tree, v: nat, d: nat, a: nat)
    requires d >= 14 && DepthAtMost(t, d) && a < P2(d)
    ensures a / BLOCK < P2(d - 14)
    ensures At(t, d, a) == v <==> InRadix(t, v, d - 14, a / BLOCK) || InTree(t, v, d, a)
    ensures !(InRadix(t, v, d - 14, a / BLOCK) && InTree(t, v, d, a))
    decreases d
  {
    Powers();
    if d == 14 {
      if t.Fork? {
        assert P2(13) * 2 == BLOCK;
        SmallBlocksAreInTree(if a < P2(d - 1) then t.left else t.right, v, d - 1, Low(a, d));
      }
    } else {
      BlockSplit(d, a);
      if t.Leaf? {
        assert P2(d) >= BLOCK by { P2Sum(d - 15, 14); }
      } else {
        ExactlyOnePath(if a < P2(d - 1) then t.left else t.right, v, d - 1, Low(a, d));
      }
    }
  }

  /** Number of addresses valued v, as the painted counts give it (d is 32 for the IPv4 space). */
  function Total(t: Tree, v: nat, d: nat): nat
    requires d >= 14
  {
    |Radix(t, v, d - 14, P2(d - 14))| * BLOCK + Count(t, v, P2(d), true)
  }

  /** constraint_lookup_index: the address numbered k among those valued v. */
  function Select(t: Tree, v: nat, d: nat, k: nat): nat
    requires d >= 14 && DepthAtMost(t, d) && k < Total(t, v, d)
  {
    var radix := Radix(t, v, d - 14, P2(d - 14));
    if k / BLOCK < |radix| then radix[k / BLOCK] + k % BLOCK
    else SelectTree(t, v, d, k - |radix| * BLOCK)
  }

  /** The number of address a among those valued v. */
  function Rank(t: Tree, v: nat, d: nat, a: nat): nat
    requires d >= 14 && DepthAtMost(t, d) && a < P2(d) && a / BLOCK < P2(d - 14)
  {
    if InRadix(t, v, d - 14, a / BLOCK) then |Radix(t, v, d - 14, a / BLOCK)| * BLOCK + a % BLOCK
    else |Radix(t, v, d - 14, P2(d - 14))| * BLOCK + RankTree(t, v, d, a)
  }

  lemma {:induction false} SelectHitsRadix(t: Tree, v: nat, d: nat, k: nat)
    requires d >= 14 && DepthAtMost(t, d) && k / BLOCK < |Radix(t, v, d - 14, P2(d - 14))|
    ensures k < Total(t, v, d)
    ensures var a := Select(t, v, d, k);
            a < P2(d) && At(t, d, a) == v && a / BLOCK < P2(d - 14) && Rank(t, v, d, a) == k
  {
    hide P2, Radix, Count, At, DepthAtMost, InRadix;
    var len := d - 14;
    var n := P2(len);
    RadixEntry(t, v, len, n, k / BLOCK);
    var i: nat :| i < n && InRadix(t, v, len, i) && Radix(t, v, len, n)[k / BLOCK] == i * BLOCK
                  && |Radix(t, v, len, i)| == k / BLOCK;
    BlocksFit(d);
    ExactlyOnePath(t, v, d, i * BLOCK + k % BLOCK);
  }

  lemma {:induction false} BlocksFit(d: nat)
    requires d >= 14
    ensures P2(d) == P2(d - 14) * BLOCK
  {
    Powers();
    if d > 14 {
      P2Sum(d - 15, 14);
      assert P2(d - 14) == 2 * P2(d - 15);
    }
  }

  /** Select yields an address with the value, and its rank is the index it came from. */
  lemma {:induction false} SelectHits(t: Tree, v: nat, d: nat, k: nat)
    requires d >= 14 && DepthAtMost(t, d) && k < Total(t, v, d)
    ensures var a := Select(t, v, d, k);
            a < P2(d) && At(t, d, a) == v && a / BLOCK < P2(d - 14) && Rank(t, v, d, a) == k
  {
    hide P2, Radix, Count, At, DepthAtMost, InRadix, SelectTree, RankTree;
    var r := |Radix(t, v, d - 14, P2(d - 14))|;
    if k / BLOCK < r {
      SelectHitsRadix(t, v, d, k);
    } else {
      RankOfSelect(t, v, d, k - r * BLOCK);
      ExactlyOnePath(t, v, d, Select(t, v, d, k));
    }
  }

  /** Every address with the value is selected by its rank. */
  lemma {:induction false} SelectCovers(t: Tree, v: nat, d: nat, a: nat)
    requires d >= 14 && DepthAtMost(t, d) && a < P2(d) && At(t, d, a) == v
    ensures a / BLOCK < P2(d - 14)
    ensures Rank(t, v, d, a) < Total(t, v, d) && Select(t, v, d, Rank(t, v, d, a)) == a
  {
    ExactlyOnePath(t, v, d, a);
    if InRadix(t, v, d - 14, a / BLOCK) {
      RadixPosition(t, v, d - 14, P2(d - 14), a / BLOCK);
    } else {
      SelectOfRank(t, v, d, a);
    }
  }

  ghost function Selected(t: Tree, v: nat, d: nat, n: nat): set<nat>
    requires d >= 14 && DepthAtMost(t, d) && n <= Total(t, v, d)
  {
    set k: nat | k < n :: Select(t, v, d, k)
  }

  lemma {:induction false} SelectedSize(t: Tree, v: nat, d: nat, n: nat)
    requires d >= 14 && DepthAtMost(t, d) && n <= Total(t, v, d)
    ensures |Selected(t, v, d, n)| == n
  {
    hide Select, Rank, Total, At, DepthAtMost, P2;
    if n == 0 {
      assert Selected(t, v, d, n) == {};
    } else {
      SelectedSize(t, v, d, n - 1);
      SelectHits(t, v, d, n - 1);
      forall k: nat | k < n - 1 ensures Select(t, v, d, k) != Select(t, v, d, n - 1) {
        SelectHits(t, v, d, k);
      }
      assert Selected(t, v, d, n) == Selected(t, v, d, n - 1) + {Select(t, v, d, n - 1)};
    }
  }

  /** The painted total, the direct count and the number of addresses with the value agree. */
  lemma {:induction false} TotalIsCount(t: Tree, v: nat, d: nat)
    requires d >= 14 && DepthAtMost(t, d)
    ensures Total(t, v, d) == Count(t, v, P2(d), false) == |Addresses(t, d, v)|
  {
    var n := Total(t, v, d);
    forall a | a in Addresses(t, d, v) ensures a in Selected(t, v, d, n) {
      SelectCovers(t, v, d, a);
    }
    forall a | a in Selected(t, v, d, n) ensures a in Addresses(t, d, v) {
      var k: nat :| k < n && a == Select(t, v, d, k);
      SelectHits(t, v, d, k);
    }
    assert Selected(t, v, d, n) == Addresses(t, d, v);
    SelectedSize(t, v, d, n);
    CountIsCardinality(t, d, v);
  }

  /** Within each path, select is strictly increasing. */
  lemma {:induction false} SelectIncreases(t: Tree, v: nat, d: nat, j: nat, k: nat)
    requires d >= 14 && DepthAtMost(t, d) && j < k < Total(t, v, d)
    requires var r := |Radix(t, v, d - 14, P2(d - 14))|; j / BLOCK < r <==> k / BLOCK < r
    ensures Select(t, v, d, j) < Select(t, v, d, k)
  {
    var r := |Radix(t, v, d - 14, P2(d - 14))|;
    if k / BLOCK < r {
      RadixIncreases(t, v, d - 14, P2(d - 14), j / BLOCK, k / BLOCK);
    } else {
      SelectTreeIncreases(t, v, d, j - r * BLOCK, k - r * BLOCK);
    }
  }

  lemma {:induction false} RadixIncreases(t: Tree, v: nat, len: nat, n: nat, j: nat, k: nat)
    requires n <= P2(len) && j <= k < |Radix(t, v, len, n)|
    ensures Radix(t, v, len, n)[j] + (if j < k then BLOCK else 0) <= Radix(t, v, len, n)[k]
  {
    if k < |Radix(t, v, len, n - 1)| {
      RadixIncreases(t, v, len, n - 1, j, k);
    } else if j < k {
      RadixEntry(t, v, len, n - 1, j);
    }
  }
}
