/** The value-level meaning of lib/constraint.c: a binary tree over address prefixes, the function on
    addresses it denotes, and what setting a prefix does to both. */
module ConstraintTree {
  import opened Bits
  import opened Modular

  const RADIX_LENGTH: nat := 18
  const BLOCK: nat := 16384

  lemma {:induction false} Powers()
    ensures P2(14) == BLOCK && P2(18) == 262144 && P2(31) == 0x8000_0000 && P2(32) == TWO_32
  {
    assert P2(4) == 16 && P2(8) == 256 && P2(12) == 4096 && P2(14) == 16384;
    assert P2(18) == 262144 && P2(22) == 4194304 && P2(26) == 67108864 && P2(30) == 1073741824;
  }

  datatype Tree = Leaf(value: nat) | Fork(left: Tree, right: Tree)

  ghost predicate DepthAtMost(t: Tree, d: nat)
  {
    t.Leaf? || (d > 0 && DepthAtMost(t.left, d - 1) && DepthAtMost(t.right, d - 1))
  }

  /** The value of address a, where t stands for a block of 2^d addresses. */
  function At(t: Tree, d: nat, a: nat): nat
    requires DepthAtMost(t, d) && a < P2(d)
  {
    match t
    case Leaf(v) => v
    case Fork(l, r) => if a < P2(d - 1) then At(l, d - 1, a) else At(r, d - 1, a - P2(d - 1))
  }

  // ---------- Painting a prefix ----------

  /** `prefix << 1` in 32 bits. */
  function Shl1(x: nat): nat
  {
    (x * 2) % TWO_32
  }

  function Join(l: Tree, r: Tree): Tree
  {
    if l.Leaf? && r.Leaf? && r.value == l.value then Leaf(l.value) else Fork(l, r)
  }

  /** _set_recurse: the tree after painting the first len bits of prefix with v. */
  function SetTree(t: Tree, prefix: nat, len: nat, v: nat): Tree
    decreases len
  {
    if len == 0 then Leaf(v)
    else if t.Leaf? && t.value == v then t
    else
      var l, r := if t.Leaf? then t else t.left, if t.Leaf? then t else t.right;
      if prefix >= 0x8000_0000 then Join(l, SetTree(r, Shl1(prefix), len - 1, v))
      else Join(SetTree(l, Shl1(prefix), len - 1, v), r)
  }

  /** Address a of a d-bit block agrees with p in the first len bits, bit by bit from the top. */
  predicate Covers(p: nat, len: nat, a: nat, d: nat)
    requires len <= d
  {
    len == 0 || ((p < P2(d - 1) <==> a < P2(d - 1)) && Covers(Low(p, d), len - 1, Low(a, d), d - 1))
  }

  /** A d-bit number without its top bit. */
  function Low(a: nat, d: nat): nat
    requires d > 0
  {
    if a < P2(d - 1) then a else a - P2(d - 1)
  }

  /** No fork has two equal leaves. */
  ghost predicate Canonical(t: Tree)
  {
    t.Fork? ==> Canonical(t.left) && Canonical(t.right) && Join(t.left, t.right) == t
  }

  lemma {:induction false} DivShift(x: nat, k: nat, w: nat)
    requires w > 0
    ensures (x + k * w) / w == x / w + k
  {
    assert x + k * w == w * (x / w + k) + x % w;
    DivModUnique(x + k * w, w, x / w + k, x % w);
  }

  lemma {:induction false} HalvesCompare(p: nat, a: nat, h: nat, k: nat, w: nat)
    requires w > 0 && h == k * w
    requires p < 2 * h && a < 2 * h
    ensures var p', a' := if p < h then p else p - h, if a < h then a else a - h;
            Quot(p, w) == Quot(a, w) <==> (p < h <==> a < h) && Quot(p', w) == Quot(a', w)
  {
    var p', a' := if p < h then p else p - h, if a < h then a else a - h;
    QuotIsDiv(p, w); QuotIsDiv(a, w); QuotIsDiv(p', w); QuotIsDiv(a', w);
    QuotientBelow(p', w, k);
    QuotientBelow(a', w, k);
    DivShift(p', k, w);
    DivShift(a', k, w);
  }

  lemma {:induction false} CoversIsQuot(p: nat, len: nat, a: nat, d: nat)
    requires len <= d && p < P2(d) && a < P2(d)
    ensures Covers(p, len, a, d) <==> Quot(p, P2(d - len)) == Quot(a, P2(d - len))
  {
    if len > 0 {
      P2Sum(len - 1, d - len);
      CoversIsQuot(Low(p, d), len - 1, Low(a, d), d - 1);
      HalvesCompare(p, a, P2(d - 1), P2(len - 1), P2(d - len));
    }
  }

  /** Covering is agreement of the leading bits, as a division. */
  lemma {:induction false} CoversIsPrefix(p: nat, len: nat, a: nat, d: nat)
    requires len <= d && p < P2(d) && a < P2(d)
    ensures Covers(p, len, a, d) <==> p / P2(d - len) == a / P2(d - len)
  {
    CoversIsQuot(p, len, a, d);
    QuotIsDiv(p, P2(d - len));
    QuotIsDiv(a, P2(d - len));
  }

  /** The 32-bit register that holds a d-bit prefix p left-aligned. */
  ghost predicate Aligned(prefix: nat, p: nat, d: nat)
  {
    d <= 32 && p < P2(d) && prefix == p * P2(32 - d)
  }

  lemma {:induction false} AlignedArithmetic(p: nat, u: nat, h: nat)
    requires h * u == 0x8000_0000 && p < 2 * h
    ensures p * u >= 0x8000_0000 <==> p >= h
    ensures Shl1(p * u) == (if p < h then p else p - h) * (2 * u)
  {
    var q := if p < h then p else p - h;
    var x := q * u;
    assert x < h * u;
    assert q * (2 * u) == 2 * x;
    assert p * u == if p < h then x else h * u + x;
  }

  lemma {:induction false} AlignedStep(prefix: nat, p: nat, d: nat)
    requires Aligned(prefix, p, d) && d > 0
    ensures prefix >= 0x8000_0000 <==> p >= P2(d - 1)
    ensures Aligned(Shl1(prefix), Low(p, d), d - 1)
  {
    P2Sum(d - 1, 32 - d);
    Powers();
    AlignedArithmetic(p, P2(32 - d), P2(d - 1));
  }

  lemma {:induction false} JoinMeaning(l: Tree, r: Tree, d: nat, a: nat)
    requires d > 0 && DepthAtMost(l, d - 1) && DepthAtMost(r, d - 1) && a < P2(d)
    ensures DepthAtMost(Join(l, r), d) && At(Join(l, r), d, a) == At(Fork(l, r), d, a)
  {
  }

  /** Painting changes exactly the covered addresses, and keeps the depth bound. */
  lemma {:induction false} SetMeaning(t: Tree, prefix: nat, p: nat, len: nat, v: nat, d: nat, a: nat)
    requires DepthAtMost(t, d) && len <= d && Aligned(prefix, p, d) && a < P2(d)
    ensures DepthAtMost(SetTree(t, prefix, len, v), d)
    ensures At(SetTree(t, prefix, len, v), d, a) == if Covers(p, len, a, d) then v else At(t, d, a)
    decreases len
  {
    if len > 0 && !(t.Leaf? && t.value == v) {
      var l, r := if t.Leaf? then t else t.left, if t.Leaf? then t else t.right;
      AlignedStep(prefix, p, d);
      if p >= P2(d - 1) {
        SetMeaning(r, Shl1(prefix), Low(p, d), len - 1, v, d - 1, Low(a, d));
        JoinMeaning(l, SetTree(r, Shl1(prefix), len - 1, v), d, a);
      } else {
        SetMeaning(l, Shl1(prefix), Low(p, d), len - 1, v, d - 1, Low(a, d));
        JoinMeaning(SetTree(l, Shl1(prefix), len - 1, v), r, d, a);
      }
    }
  }

  lemma {:induction false} SetDepth(t: Tree, prefix: nat, len: nat, v: nat, d: nat)
    requires DepthAtMost(t, d) && len <= d
    ensures DepthAtMost(SetTree(t, prefix, len, v), d)
    decreases len
  {
    if len > 0 && !(t.Leaf? && t.value == v) {
      var l, r := if t.Leaf? then t else t.left, if t.Leaf? then t else t.right;
      SetDepth(if prefix >= 0x8000_0000 then r else l, Shl1(prefix), len - 1, v, d - 1);
    }
  }

  lemma {:induction false} SetCanonical(t: Tree, prefix: nat, len: nat, v: nat)
    requires Canonical(t)
    ensures Canonical(SetTree(t, prefix, len, v))
    decreases len
  {
    if len > 0 && !(t.Leaf? && t.value == v) {
      var l, r := if t.Leaf? then t else t.left, if t.Leaf? then t else t.right;
      if prefix >= 0x8000_0000 {
        SetCanonical(r, Shl1(prefix), len - 1, v);
      } else {
        SetCanonical(l, Shl1(prefix), len - 1, v);
      }
    }
  }

  /** Canonical trees that denote the same address function are the same tree. */
  lemma {:induction false} CanonicalUnique(s: Tree, t: Tree, d: nat)
    requires DepthAtMost(s, d) && DepthAtMost(t, d) && Canonical(s) && Canonical(t)
    requires forall a: nat :: a < P2(d) ==> At(s, d, a) == At(t, d, a)
    ensures s == t
    decreases d
  {
    if s.Leaf? && t.Leaf? {
      assert At(s, d, 0) == At(t, d, 0);
    } else {
      var e := d - 1;
      var sl, sr := if s.Leaf? then s else s.left, if s.Leaf? then s else s.right;
      var tl, tr := if t.Leaf? then t else t.left, if t.Leaf? then t else t.right;
      forall a: nat | a < P2(e) ensures At(sl, e, a) == At(tl, e, a) {
        assert At(s, d, a) == At(t, d, a);
      }
      CanonicalUnique(sl, tl, e);
      forall a: nat | a < P2(e) ensures At(sr, e, a) == At(tr, e, a) {
        assert At(s, d, a + P2(e)) == At(t, d, a + P2(e));
      }
      CanonicalUnique(sr, tr, e);
    }
  }
}
