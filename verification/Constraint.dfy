/** lib/constraint.c: the mutable tree of address prefixes, with the precomputed counts and radix array. */
module Constraint {
  import opened Bits
  import opened Modular
  import opened ConstraintTree
  import opened ConstraintRank

  class Node {
    var l: Node?
    var r: Node?
    var value: nat
    var count: nat
    ghost var Repr: set<Node>
    ghost var tree: Tree

    /** The subtree below this node is well formed and denotes `tree`. */
    ghost predicate Valid()
      reads this`l, this`r, this`value, this`tree, this`Repr
      reads Repr`l, Repr`r, Repr`value, Repr`tree, Repr`Repr
      decreases Repr
    {
      && this in Repr
      && (l == null <==> r == null)
      && (l == null ==> tree == Leaf(value))
      && (l != null ==>
            && l in Repr && r in Repr && l.Repr <= Repr && r.Repr <= Repr
            && this !in l.Repr && this !in r.Repr && l.Repr !! r.Repr
            && l.Valid() && r.Valid() && tree == Fork(l.tree, r.tree))
    }

    /** Every node below carries the number of addresses valued v outside the radix array. */
    ghost predicate Painted(v: nat, size: nat, exclude: bool)
      requires Valid()
      reads this, Repr
      decreases Repr
    {
      && count == Count(tree, v, size, exclude)
      && (l != null ==> l.Painted(v, size / 2, exclude) && r.Painted(v, size / 2, exclude))
    }

    /** _create_leaf */
    constructor CreateLeaf(v: nat)
      ensures Valid() && tree == Leaf(v) && Repr == {this} && l == null
    {
      l, r, value, count := null, null, v, 0;
      Repr, tree := {this}, Leaf(v);
    }

    /** Two valid children hang below this node, with nothing shared. */
    ghost predicate HasChildren()
      reads this, l, r, if l != null then l.Repr else {}, if r != null then r.Repr else {}
    {
      && l != null && r != null
      && this !in l.Repr && this !in r.Repr && l.Repr !! r.Repr
      && l.Valid() && r.Valid()
    }

    /** Turns a leaf into an internal node with two equal leaves. */
    method Split()
      requires Valid() && l == null
      modifies this
      ensures HasChildren() && fresh(l.Repr + r.Repr) && l.tree == r.tree == old(tree)
    {
      l := new Node.CreateLeaf(value);
      r := new Node.CreateLeaf(value);
    }

    /** _convert_to_leaf and the value that goes with it. */
    method BecomeLeaf(v: nat)
      modifies this
      ensures Valid() && tree == Leaf(v) && Repr == {this}
    {
      l, r, value := null, null, v;
      Repr, tree := {this}, Leaf(v);
    }

    /** Restores the invariant after a child changed, discarding two equal leaves. */
    method Merge()
      requires HasChildren()
      modifies this
      ensures Valid() && Repr <= {this} + old(l.Repr) + old(r.Repr)
      ensures tree == Join(old(l.tree), old(r.tree))
    {
      Repr, tree := {this} + l.Repr + r.Repr, Fork(l.tree, r.tree);
      if r.l == null && l.l == null && r.value == l.value {
        BecomeLeaf(l.value);
      }
    }

    /** Continues the recursion in one child; the other one keeps its tree. */
    method SetChild(prefix: nat, len: nat, v: nat)
      requires HasChildren() && 0 < len <= 256 && prefix < TWO_32
      modifies l.Repr, r.Repr
      ensures l == old(l) && r == old(r) && HasChildren()
      ensures fresh(l.Repr + r.Repr - old(l.Repr + r.Repr))
      ensures prefix >= 0x8000_0000 ==>
                l.tree == old(l.tree) && r.tree == SetTree(old(r.tree), Shl1(prefix), len - 1, v)
      ensures prefix < 0x8000_0000 ==>
                r.tree == old(r.tree) && l.tree == SetTree(old(l.tree), Shl1(prefix), len - 1, v)
      decreases len, 0
    {
      TopBit31(prefix);
      if And(prefix, 0x8000_0000) != 0 {
        r.SetRecurse(Shl1(prefix), len - 1, v);
      } else {
        l.SetRecurse(Shl1(prefix), len - 1, v);
      }
    }

    /** _set_recurse */
    method SetRecurse(prefix: nat, len: nat, v: nat)
      requires Valid() && len <= 256 && prefix < TWO_32
      modifies Repr
      ensures Valid() && fresh(Repr - old(Repr))
      ensures tree == SetTree(old(tree), prefix, len, v)
      decreases len, 1
    {
      if len == 0 {
        BecomeLeaf(v);
        return;
      }
      if l == null {
        if value == v {
          return;
        }
        Split();
      }
      SetChild(prefix, len, v);
      Merge();
    }

    /** _count_ips_recurse */
    method CountRecurse(v: nat, size: nat, paint: bool, exclude: bool) returns (n: nat)
      requires Valid()
      modifies Repr`count
      ensures n == Count(tree, v, size, exclude)
      ensures paint ==> Painted(v, size, exclude)
      ensures !paint ==> forall m :: m in Repr ==> m.count == old(m.count)
      decreases tree
    {
      if l == null {
        if value == v {
          n := size;
          if exclude && size >= BLOCK {
            n := 0;
          }
        } else {
          n := 0;
        }
      } else {
        var a := l.CountRecurse(v, size / 2, paint, exclude);
        var b := r.CountRecurse(v, size / 2, paint, exclude);
        n := a + b;
      }
      if paint {
        count := n;
      }
    }

    /** _lookup_ip */
    method LookupIp(address: nat) returns (v: nat)
      requires Valid() && DepthAtMost(tree, 32) && address < P2(32)
      ensures v == At(tree, 32, address)
    {
      var node, mask := this, 0x8000_0000;
      ghost var d: nat := 32;
      Powers();
      while node.l != null
        invariant node in Repr && node.Valid() && node.Repr <= Repr
        invariant DepthAtMost(node.tree, d) && mask == HighBit(d)
        invariant At(tree, 32, address) == AtBits(node.tree, d, address)
        decreases d
      {
        DescendStep(node.tree, d, address);
        if And(address, mask) != 0 {
          node := node.r;
        } else {
          node := node.l;
        }
        mask := mask / 2;
        d := d - 1;
      }
      v := node.value;
    }

    /** _lookup_node */
    method LookupNode(prefix: nat, len: nat) returns (node: Node)
      requires Valid() && len <= 32
      ensures node in Repr && node.Valid() && node.tree == NodeFor(tree, 32, len, prefix)
    {
      hide P2, And, NodeFor;
      node := this;
      var mask := 0x8000_0000;
      ghost var d: nat := 32;
      Powers();
      for i := 0 to len
        invariant node in Repr && node.Valid() && node.Repr <= Repr
        invariant d == 32 - i && mask == HighBit(d)
        invariant NodeFor(tree, 32, len, prefix) == NodeFor(node.tree, d, len - i, prefix)
      {
        NodeForStep(node.tree, d, len - i, prefix);
        HighBitStep(d);
        if node.l == null {
          return node;
        }
        if And(prefix, mask) != 0 {
          node := node.r;
        } else {
          node := node.l;
        }
        mask := mask / 2;
        d := d - 1;
      }
      NodeForStep(node.tree, d, 0, prefix);
    }

    /** _lookup_index */
    method LookupIndex(index: nat, ghost v: nat) returns (address: nat)
      requires Valid() && DepthAtMost(tree, 32) && Painted(v, P2(32), true)
      requires index < Count(tree, v, P2(32), true)
      ensures address == SelectTree(tree, v, 32, index)
    {
      hide P2, Count, SelectTree, DepthAtMost, Painted, Or, Rem;
      var node, mask := this, 0x8000_0000;
      var ip: nat, n: nat := 0, index;
      ghost var d: nat := 32;
      Powers();
      RemIsMod(0, P2(32));
      while node.l != null
        invariant node in Repr && node.Valid() && node.Repr <= Repr
        invariant DepthAtMost(node.tree, d) && mask == HighBit(d) && Rem(ip, P2(d)) == 0
        invariant node.Painted(v, P2(d), true) && n < Count(node.tree, v, P2(d), true)
        invariant SelectTree(tree, v, 32, index) == ip + SelectTree(node.tree, v, d, n)
        decreases d
      {
        node.PaintedChildren(v, d);
        HighBitStep(d);
        SelectStep(node.tree, v, d, n);
        OrHalf(ip, d);
        if n < node.l.count {
          node := node.l;
        } else {
          n := n - node.l.count;
          node := node.r;
          ip := Or(ip, mask);
        }
        mask := mask / 2;
        d := d - 1;
      }
      LeafSelect(node.tree, v, d, n);
      OrLow(ip, n, d);
      address := Or(ip, n);
    }

    lemma {:induction false} PaintedChildren(v: nat, d: nat)
      requires Valid() && l != null && DepthAtMost(tree, d) && Painted(v, P2(d), true)
      ensures d > 0 && DepthAtMost(l.tree, d - 1) && DepthAtMost(r.tree, d - 1)
      ensures l.Painted(v, P2(d - 1), true) && r.Painted(v, P2(d - 1), true)
      ensures l.count == Count(l.tree, v, P2(d - 1), true)
    {
      hide Count;
      assert P2(d) / 2 == P2(d - 1);
    }
  }

  lemma {:induction false} HighBitStep(d: nat)
    requires d > 0
    ensures HighBit(d) == P2(d - 1) && HighBit(d) / 2 == HighBit(d - 1)
  {
  }

  lemma {:induction false} LeafSelect(t: Tree, v: nat, d: nat, n: nat)
    requires t.Leaf? && DepthAtMost(t, d) && n < Count(t, v, P2(d), true)
    ensures SelectTree(t, v, d, n) == n && n < P2(d)
  {
    hide P2;
  }

  lemma {:induction false} SelectStep(t: Tree, v: nat, d: nat, n: nat)
    requires t.Fork? && DepthAtMost(t, d) && n < Count(t, v, P2(d), true)
    ensures var c := Count(t.left, v, P2(d - 1), true);
            if n < c then SelectTree(t, v, d, n) == SelectTree(t.left, v, d - 1, n)
            else n - c < Count(t.right, v, P2(d - 1), true) &&
                 SelectTree(t, v, d, n) == P2(d - 1) + SelectTree(t.right, v, d - 1, n - c)
  {
  }

  lemma {:induction false} Multiple(x: nat, w: nat) returns (q: nat)
    requires w > 0 && Rem(x, w) == 0
    ensures x == q * w
  {
    RemIsMod(x, w);
    q := x / w;
  }

  /** Adding low bits to a multiple of 2^d. */
  lemma {:induction false} OrLow(ip: nat, n: nat, d: nat)
    requires Rem(ip, P2(d)) == 0 && n < P2(d)
    ensures Or(ip, n) == ip + n
  {
    var q := Multiple(ip, P2(d));
    OrDisjoint(q, n, d);
  }

  /** Setting bit d-1 of a multiple of 2^d. */
  lemma {:induction false} OrHalf(ip: nat, d: nat)
    requires d > 0 && Rem(ip, P2(d)) == 0
    ensures Or(ip, HighBit(d)) == ip + P2(d - 1)
    ensures Rem(ip, P2(d - 1)) == 0 && Rem(ip + P2(d - 1), P2(d - 1)) == 0
  {
    OrLow(ip, P2(d - 1), d);
    RemIsMod(ip, P2(d));
    RemIsMod(ip, P2(d - 1));
    TopBitArithmetic(ip, P2(d - 1));
  }

  /** The node reached by following len bits of x downwards from bit d-1. */
  ghost function NodeFor(t: Tree, d: nat, len: nat, x: nat): Tree
    requires len <= d
  {
    if len == 0 || t.Leaf? then t
    else NodeFor(if And(x, HighBit(d)) != 0 then t.right else t.left, d - 1, len - 1, x)
  }

  lemma {:induction false} NodeForStep(t: Tree, d: nat, len: nat, x: nat)
    requires len <= d
    ensures len == 0 || t.Leaf? ==> NodeFor(t, d, len, x) == t
    ensures len > 0 && t.Fork? ==>
              NodeFor(t, d, len, x) == NodeFor(if And(x, HighBit(d)) != 0 then t.right else t.left, d - 1, len - 1, x)
  {
    hide And;
  }

  lemma {:induction false} PrefixStep(x: nat, len: nat)
    requires len > 0
    ensures var a, b := Rem(x, P2(len + 14)), Rem(x, P2(len + 13));
            && a / BLOCK < P2(len)
            && (And(x, HighBit(len + 14)) != 0 <==> a / BLOCK >= P2(len - 1))
            && b / BLOCK == Low(a / BLOCK, len)
  {
    RemRem(x, P2(len + 14));
    BlockSplit(len + 14, Rem(x, P2(len + 14)));
    TopBit(x, len + 13);
  }

  /** Following the prefix bits reaches the subtree that the prefix number names. */
  lemma {:induction false} NodeForPrefix(t: Tree, len: nat, x: nat)
    ensures Rem(x, P2(len + 14)) / BLOCK < P2(len)
    ensures NodeFor(t, len + 14, len, x) == SubtreeAt(t, len, Rem(x, P2(len + 14)) / BLOCK)
  {
    if len == 0 {
      Powers();
      RemRem(x, P2(14));
    } else {
      PrefixStep(x, len);
      if t.Fork? {
        NodeForPrefix(if And(x, HighBit(len + 14)) != 0 then t.right else t.left, len - 1, x);
      }
    }
  }

  /** The value of the address whose low d bits are those of x. */
  ghost function AtBits(t: Tree, d: nat, x: nat): nat
    requires DepthAtMost(t, d)
  {
    RemRem(x, P2(d));
    At(t, d, Rem(x, P2(d)))
  }

  lemma {:induction false} DescendStep(t: Tree, d: nat, x: nat)
    requires t.Fork? && DepthAtMost(t, d)
    ensures AtBits(t, d, x) == AtBits(if And(x, HighBit(d)) != 0 then t.right else t.left, d - 1, x)
    ensures HighBit(d) / 2 == HighBit(d - 1)
  {
    TopBit(x, d - 1);
    RemRem(x, P2(d));
  }

  /** The mask for the top bit of a d-bit number; shifting it right once more leaves 0. */
  function HighBit(d: nat): nat
  {
    if d == 0 then 0 else P2(d - 1)
  }

  lemma {:induction false} TopBit31(x: nat)
    requires x < TWO_32
    ensures And(x, 0x8000_0000) != 0 <==> x >= 0x8000_0000
  {
    Powers();
    TopBit(x, 31);
  }

  /** The prefix `i << 14` names the ith subtree at depth 18. */
  lemma {:induction false} RadixPrefix(t: Tree, i: nat)
    requires i < P2(18)
    ensures NodeFor(t, 32, 18, i * BLOCK) == SubtreeAt(t, 18, i)
  {
    Powers();
    RemIsMod(i * BLOCK, P2(32));
    NodeForPrefix(t, 18, i * BLOCK);
  }

  lemma {:induction false} RadixOr(t: Tree, v: nat, k: nat, offset: nat)
    requires k < |Radix(t, v, 18, P2(18))| && offset < BLOCK
    ensures var e := Radix(t, v, 18, P2(18))[k]; Or(e, offset) == e + offset
  {
    RadixEntry(t, v, 18, P2(18), k);
    Powers();
    OrDisjoint(Radix(t, v, 18, P2(18))[k] / BLOCK, offset, 14);
  }

  lemma {:induction false} RadixNext(t: Tree, v: nat, i: nat)
    requires i < P2(18)
    ensures Radix(t, v, 18, i + 1) == Radix(t, v, 18, i) + if InRadix(t, v, 18, i) then [i * BLOCK] else []
  {
    hide InRadix, P2;
  }

  lemma {:induction false} InRadixIs(t: Tree, v: nat, i: nat)
    requires i < P2(18)
    ensures InRadix(t, v, 18, i) <==> SubtreeAt(t, 18, i) == Leaf(v)
  {
    hide SubtreeAt;
  }

  lemma {:induction false} RadixNone(t: Tree, v: nat)
    ensures Radix(t, v, 18, 0) == []
  {
    hide P2;
  }

  class Constraint {
    const root: Node
    const radix: array<nat>
    var radixLen: nat
    var painted: bool
    var paintValue: nat

    /** The tree is canonical and at most 32 deep; when painted, counts and radix describe it. */
    ghost predicate Valid()
      reads this, radix, root, root.Repr
    {
      && root.Valid() && Canonical(root.tree) && DepthAtMost(root.tree, 32)
      && radix.Length == P2(18)
      && (painted ==> CacheAgrees())
    }

    ghost predicate CacheAgrees()
      requires root.Valid()
      reads this, radix, root, root.Repr
    {
      && root.Painted(paintValue, P2(32), true)
      && radixLen <= radix.Length && radix.Length == P2(18)
      && radix[..radixLen] == Radix(root.tree, paintValue, 18, P2(18))
    }

    ghost function Tree(): Tree
      reads this, root
    {
      root.tree
    }

    ghost function Footprint(): set<object>
      reads this, root
    {
      {this, radix} + root.Repr
    }

    /** constraint_init */
    constructor (value: nat)
      ensures Valid() && !painted && Tree() == Leaf(value)
      ensures fresh(Footprint())
    {
      root := new Node.CreateLeaf(value);
      radix := new nat[262144](_ => 0);
      radixLen, painted, paintValue := 0, false, 0;
      Powers();
    }

    /** constraint_set */
    method Set(prefix: nat, len: nat, value: nat)
      requires Valid() && prefix < TWO_32 && len <= 32
      modifies Footprint()
      ensures Valid() && !painted && Tree() == SetTree(old(Tree()), prefix, len, value)
      ensures fresh(Footprint() - old(Footprint()))
    {
      hide P2, SetTree, Canonical, DepthAtMost, Radix;
      SetCanonical(root.tree, prefix, len, value);
      SetDepth(root.tree, prefix, len, value, 32);
      root.SetRecurse(prefix, len, value);
      painted := false;
    }

    /** constraint_lookup_ip */
    method LookupIp(address: nat) returns (v: nat)
      requires Valid() && address < P2(32)
      ensures v == At(Tree(), 32, address)
    {
      v := root.LookupIp(address);
    }

    /** Adds prefix number i to the radix array if it lies inside a leaf with the value. */
    method TryRadix(value: nat, i: nat)
      requires root.Valid() && i < P2(18) == radix.Length
      requires radixLen <= i && radix[..radixLen] == Radix(root.tree, value, 18, i)
      modifies this`radixLen, radix
      ensures radixLen <= i + 1 && radix[..radixLen] == Radix(root.tree, value, 18, i + 1)
    {
      hide P2, Radix, InRadix, NodeFor;
      RadixNext(root.tree, value, i);
      var node := root.LookupNode(i * BLOCK, RADIX_LENGTH);
      RadixPrefix(root.tree, i);
      InRadixIs(root.tree, value, i);
      if node.l == null && node.value == value {
        radix[radixLen] := i * BLOCK;
        radixLen := radixLen + 1;
      }
    }

    /** The loop of constraint_paint_value that fills the radix array. */
    method FillRadix(value: nat)
      requires root.Valid() && radix.Length == P2(18)
      modifies this`radixLen, radix
      ensures radixLen <= radix.Length && radix[..radixLen] == Radix(root.tree, value, 18, P2(18))
    {
      hide P2, Radix;
      RadixNone(root.tree, value);
      radixLen := 0;
      var i: nat := 0;
      while i < radix.Length
        invariant i <= radix.Length
        invariant radixLen <= i && radix[..radixLen] == Radix(root.tree, value, 18, i)
      {
        TryRadix(value, i);
        i := i + 1;
      }
    }

    /** constraint_paint_value */
    method PaintValue(value: nat)
      requires Valid()
      modifies this`radixLen, this`painted, this`paintValue, radix, root.Repr`count
      ensures Valid() && painted && paintValue == value
    {
      hide P2, Radix, Count, DepthAtMost, Canonical;
      Powers();
      var _ := root.CountRecurse(value, TWO_32, true, true);
      FillRadix(value);
      painted := true;
      paintValue := value;
    }

    /** constraint_count_ips */
    method CountIps(value: nat) returns (n: nat)
      requires Valid()
      modifies root.Repr`count
      ensures Valid() && n == |Addresses(Tree(), 32, value)|
    {
      hide P2, Radix, Count, DepthAtMost, Canonical, Addresses;
      TotalIsCount(root.tree, value, 32);
      Powers();
      if painted && paintValue == value {
        n := root.count + radixLen * BLOCK;
      } else {
        n := root.CountRecurse(value, TWO_32, false, false);
      }
    }

    /** The lookup proper, once the tree is painted. */
    method LookupPainted(index: nat) returns (address: nat)
      requires Valid() && painted && index < Total(Tree(), paintValue, 32)
      ensures address == Select(Tree(), paintValue, 32, index)
    {
      hide P2, Radix, Count, DepthAtMost, Canonical, SelectTree, Or;
      var radixIdx := index / BLOCK;
      if radixIdx < radixLen {
        RadixOr(root.tree, paintValue, radixIdx, index % BLOCK);
        address := Or(radix[radixIdx], index % BLOCK);
      } else {
        address := root.LookupIndex(index - radixLen * BLOCK, paintValue);
      }
    }

    /** constraint_lookup_index */
    method LookupIndex(index: nat, value: nat) returns (address: nat)
      requires Valid() && index < Total(Tree(), value, 32)
      modifies this`radixLen, this`painted, this`paintValue, radix, root.Repr`count
      ensures Valid() && painted && paintValue == value
      ensures address == Select(Tree(), value, 32, index)
    {
      hide P2, Radix, Count, DepthAtMost, Canonical, Select, Total;
      if !painted || paintValue != value {
        PaintValue(value);
      }
      address := LookupPainted(index);
    }
  }
}
