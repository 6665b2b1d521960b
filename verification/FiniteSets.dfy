/** Sizes of finite sets. */
module FiniteSets {

  predicate Between(lo: nat, x: nat, hi: nat)
  {
    lo <= x < hi
  }

  /** The numbers from lo up to hi. */
  ghost function Range(lo: nat, hi: nat): set<nat>
  {
    set x: nat | x < hi && Between(lo, x, hi)
  }

  lemma {:induction false} RangeSize(lo: nat, hi: nat)
    requires lo <= hi
    ensures |Range(lo, hi)| == hi - lo
    decreases hi
  {
    if lo == hi {
      assert Range(lo, hi) == {};
    } else {
      RangeSize(lo, hi - 1);
      assert Range(lo, hi) == Range(lo, hi - 1) + {hi - 1};
    }
  }

  lemma {:induction false} SubsetSize<T>(a: set<T>, b: set<T>)
    requires a <= b
    ensures |a| <= |b| && (|a| == |b| ==> a == b)
  {
    assert b == a + (b - a);
  }
}
