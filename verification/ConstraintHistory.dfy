/** What a sequence of prefix paints means, whatever tree represents it. */
module ConstraintHistory {
  import opened Bits
  import opened ConstraintTree

  /** One constraint_set: the first len bits of prefix get the value. */
  datatype Paint = Paint(prefix: nat, len: nat, value: nat)

  predicate Valid(p: Paint)
  {
    p.prefix < TWO_32 && p.len <= 32
  }

  predicate AllValid(ps: seq<Paint>)
  {
    forall i :: 0 <= i < |ps| ==> Valid(ps[i])
  }

  /** The prefix contains the address: their first len bits agree. */
  predicate Contains(prefix: nat, len: nat, address: nat)
    requires len <= 32
  {
    prefix / P2(32 - len) == address / P2(32 - len)
  }

  /** The tree after a history of paints. */
  function Build(init: nat, ps: seq<Paint>): Tree
  {
    if ps == [] then Leaf(init)
    else
      var p := ps[|ps| - 1];
      SetTree(Build(init, ps[..|ps| - 1]), p.prefix, p.len, p.value)
  }

  /** The topmost colour: the value of the last paint that contains the address. */
  function Topmost(init: nat, ps: seq<Paint>, address: nat): nat
    requires AllValid(ps)
  {
    if ps == [] then init
    else
      var p := ps[|ps| - 1];
      if Contains(p.prefix, p.len, address) then p.value else Topmost(init, ps[..|ps| - 1], address)
  }

  lemma {:induction false} SetWholeSpace(t: Tree, p: Paint, address: nat)
    requires DepthAtMost(t, 32) && Valid(p) && address < P2(32)
    ensures DepthAtMost(SetTree(t, p.prefix, p.len, p.value), 32)
    ensures At(SetTree(t, p.prefix, p.len, p.value), 32, address) ==
            if Contains(p.prefix, p.len, address) then p.value else At(t, 32, address)
  {
    Powers();
    assert Aligned(p.prefix, p.prefix, 32);
    SetMeaning(t, p.prefix, p.prefix, p.len, p.value, 32, address);
    CoversIsPrefix(p.prefix, p.len, address, 32);
  }

  lemma {:induction false} BuildShape(init: nat, ps: seq<Paint>)
    requires AllValid(ps)
    ensures DepthAtMost(Build(init, ps), 32) && Canonical(Build(init, ps))
  {
    if ps != [] {
      var p, rest := ps[|ps| - 1], ps[..|ps| - 1];
      BuildShape(init, rest);
      SetDepth(Build(init, rest), p.prefix, p.len, p.value, 32);
      SetCanonical(Build(init, rest), p.prefix, p.len, p.value);
    }
  }

  /** Last paint wins, at every address. */
  lemma {:induction false} LastPaintWins(init: nat, ps: seq<Paint>, address: nat)
    requires AllValid(ps)
    requires address < P2(32)
    ensures DepthAtMost(Build(init, ps), 32)
    ensures At(Build(init, ps), 32, address) == Topmost(init, ps, address)
  {
    BuildShape(init, ps);
    if ps != [] {
      var p, rest := ps[|ps| - 1], ps[..|ps| - 1];
      LastPaintWins(init, rest, address);
      SetWholeSpace(Build(init, rest), p, address);
    }
  }

  /** Histories with the same address function leave structurally identical trees. */
  lemma {:induction false} SameMeaningSameTree(init: nat, ps: seq<Paint>, init': nat, ps': seq<Paint>)
    requires AllValid(ps) && AllValid(ps')
    requires forall a: nat :: a < P2(32) ==> Topmost(init, ps, a) == Topmost(init', ps', a)
    ensures Build(init, ps) == Build(init', ps')
  {
    var s, t := Build(init, ps), Build(init', ps');
    BuildShape(init, ps);
    BuildShape(init', ps');
    forall a: nat | a < P2(32) ensures At(s, 32, a) == At(t, 32, a) {
      LastPaintWins(init, ps, a);
      LastPaintWins(init', ps', a);
    }
    CanonicalUnique(s, t, 32);
  }
}
