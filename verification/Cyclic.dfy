/** src/cyclic.c: the table of groups, the search for a random generator, and the cycle of a scan. */
module Cyclic {
  import opened Modular
  import opened NumberTheory
  import opened Bits

  datatype Group = Group(prime: nat, knownPrimroot: nat, primeFactors: seq<nat>)

  datatype Cycle = Cycle(group: Group, generator: nat, order: nat, offset: nat)

  const GROUPS: seq<Group> := [
    Group(257, 3, [2]),
    Group(65537, 3, [2]),
    Group(16777259, 2, [2, 23, 103, 3541]),
    Group(268435459, 2, [2, 3, 19, 87211]),
    Group(4294967311, 3, [2, 3, 5, 131, 364289]),
    Group(8589934609, 19, [2, 3, 59, 3033169]),
    Group(17179869209, 3, [2, 83, 1277, 20261]),
    Group(68719476767, 5, [2, 163, 883, 238727]),
    Group(1099511627791, 3, [2, 3, 5, 36650387593]),
    Group(17592186044423, 5, [2, 11, 53, 97, 155542661]),
    Group(281474976710677, 6, [2, 3, 7, 1361, 2462081249])
  ]

  /** What a row of the table claims: the modulus is prime, the listed factors are exactly the primes
      dividing p - 1, and the known root generates the group and is small. */
  ghost predicate ValidGroup(group: Group)
  {
    && IsPrime(group.prime) && group.prime > 2
    && IsPrimitiveRoot(group.knownPrimroot, group.prime)
    && group.knownPrimroot < TWO_22
    && (forall q: nat :: q in group.primeFactors <==> IsPrime(q) && Divides(q, group.prime - 1))
  }

  /** The candidate after c: a 32-bit increment, then both reductions. */
  function NextCandidate(c: nat, p: nat): nat
    requires p > 0
  {
    (c + 1) % TWO_32 % p % TWO_22
  }

  /** The candidates in the order the search tries them. */
  function Candidate(word: nat, p: nat, n: nat): nat
    requires p > 0
  {
    if n == 0 then word % TWO_32 % p else NextCandidate(Candidate(word, p, n - 1), p)
  }

  /** Candidates cycle through 0..min(p, 2^22)-1. */
  lemma {:induction false} NextCandidateCycles(c: nat, p: nat)
    requires p > 0
    ensures var m := if p < TWO_22 then p else TWO_22;
            NextCandidate(c, p) < m &&
            (c < m ==> NextCandidate(c, p) == if c + 1 == m then 0 else c + 1)
  {
    var x := (c + 1) % TWO_32;
    var y := x % p;
    RemainderBounds(x, p);
    RemainderBounds(y, TWO_22);
    if c < p && c < TWO_22 {
      assert x == c + 1;
      RemainderOfNext(c, p);
    }
  }

  lemma {:induction false} RemainderBounds(x: nat, m: nat)
    requires m > 0
    ensures 0 <= x % m <= x && x % m < m
  {
    if x < m { DivModUnique(x, m, 0, x); }
  }

  lemma {:induction false} RemainderOfNext(c: nat, m: nat)
    requires c < m
    ensures (c + 1) % m == if c + 1 == m then 0 else c + 1
  {
    if c + 1 == m { DivModUnique(c + 1, m, 1, 0); } else { DivModUnique(c + 1, m, 0, c + 1); }
  }

  /** Steps left until the search reaches the known root r. */
  function StepsToRoot(c: nat, r: nat, m: nat): int
  {
    if c >= m then 2 * m + 1 else if c < r then r - c else m - c + r
  }

  /** c already reaches 1 at the exponent (p - 1) / q. */
  ghost predicate ReachesOne(c: nat, q: nat, p: nat)
    requires p > 0
  {
    q > 0 && Rem(Pow(c, (p - 1) / q), p) == 1
  }

  lemma {:induction false} TestDecides(group: Group, c: nat)
    requires ValidGroup(group) && IsUnit(c, group.prime)
    ensures IsPrimitiveRoot(c, group.prime) <==>
            forall q :: q in group.primeFactors ==> !ReachesOne(c, q, group.prime)
  {
    var p := group.prime;
    assert !Divides(p, c);
    Fermat(p, c);
    ExponentTestExact(c, p);
  }

  /** The exponent test of one candidate. */
  method TestCandidate(group: Group, c: nat) returns (ok: bool)
    requires ValidGroup(group) && IsUnit(c, group.prime)
    ensures ok <==> IsPrimitiveRoot(c, group.prime)
  {
    ok := true;
    var i := 0;
    while i < |group.primeFactors| && ok
      invariant 0 <= i <= |group.primeFactors|
      invariant ok <==> forall j :: 0 <= j < i ==> !ReachesOne(c, group.primeFactors[j], group.prime)
    {
      var q := group.primeFactors[i];
      assert q in group.primeFactors;
      var k := (group.prime - 1) / q;
      PowModCorrect(c, k, group.prime);
      if PowMod(c, k, group.prime) == 1 {
        ok := false;
      }
      i := i + 1;
    }
    TestDecides(group, c);
  }

  /** find_primroot: the first candidate, in search order, that generates the group. */
  method FindPrimroot(group: Group, word: nat) returns (root: nat, ghost tries: nat)
    requires ValidGroup(group)
    ensures IsPrimitiveRoot(root, group.prime) && root < TWO_22
    ensures tries > 0 && root == Candidate(word, group.prime, tries)
    ensures forall n :: 0 < n < tries ==> !IsPrimitiveRoot(Candidate(word, group.prime, n), group.prime)
  {
    var p := group.prime;
    ghost var m := if p < TWO_22 then p else TWO_22;
    var candidate := word % TWO_32 % p;
    tries := 0;
    while true
      invariant candidate == Candidate(word, p, tries)
      invariant forall n :: 0 < n <= tries ==> !IsPrimitiveRoot(Candidate(word, p, n), p)
      decreases StepsToRoot(candidate, group.knownPrimroot, m)
    {
      NextCandidateCycles(candidate, p);
      candidate := NextCandidate(candidate, p);
      tries := tries + 1;
      if candidate == 0 {
        continue;
      }
      var ok := TestCandidate(group, candidate);
      if ok {
        return candidate, tries;
      }
    }
  }

  /** The root the search comes to first from a random word. */
  ghost predicate FirstRoot(root: nat, word: nat, p: nat)
    requires p > 0
  {
    exists tries :: 0 < tries && root == Candidate(word, p, tries) && IsPrimitiveRoot(root, p)
                    && forall n :: 0 < n < tries ==> !IsPrimitiveRoot(Candidate(word, p, n), p)
  }

  /** The cycle of a group that two random words lead to. */
  ghost predicate Seeded(c: Cycle, word: nat, nextWord: nat)
  {
    && c.group.prime > 0 && FirstRoot(c.generator, word, c.group.prime)
    && c.order == c.group.prime - 1 && c.offset == nextWord % TWO_32 % c.group.prime
  }

  /** The words settle the cycle, so that every shard of a scan walks the same one. */
  lemma {:induction false} SeededUnique(c: Cycle, d: Cycle, word: nat, nextWord: nat)
    requires Seeded(c, word, nextWord) && Seeded(d, word, nextWord) && c.group == d.group
    ensures c == d
  {
    hide Candidate, IsPrimitiveRoot;
    var p := c.group.prime;
    var m :| 0 < m && c.generator == Candidate(word, p, m) && IsPrimitiveRoot(c.generator, p)
             && forall n :: 0 < n < m ==> !IsPrimitiveRoot(Candidate(word, p, n), p);
    var k :| 0 < k && d.generator == Candidate(word, p, k) && IsPrimitiveRoot(d.generator, p)
             && forall n :: 0 < n < k ==> !IsPrimitiveRoot(Candidate(word, p, n), p);
    assert m == k;
  }

  /** make_cycle: one word picks the generator, the next the 32-bit offset. */
  method MakeCycle(group: Group, word: nat, nextWord: nat) returns (cycle: Cycle)
    requires ValidGroup(group)
    ensures IsPrimitiveRoot(cycle.generator, group.prime) && cycle.generator < TWO_22
    ensures cycle.group == group && Seeded(cycle, word, nextWord)
  {
    hide Candidate, IsPrimitiveRoot;
    var root, tries := FindPrimroot(group, word);
    assert FirstRoot(root, word, group.prime);
    cycle := Cycle(group, root, group.prime - 1, nextWord % TWO_32 % group.prime);
  }

  lemma {:induction false} TableAscends(i: nat, j: nat)
    requires i < j < |GROUPS|
    ensures GROUPS[i].prime < GROUPS[j].prime
  {
  }

  /** get_group: the smallest table prime above minSize. */
  method GetGroup(minSize: nat) returns (group: Group, ghost row: nat)
    requires minSize < GROUPS[10].prime
    ensures row < |GROUPS| && group == GROUPS[row] && group.prime > minSize
    ensures forall other :: other in GROUPS && other.prime > minSize ==> group.prime <= other.prime
  {
    var i := 0;
    while GROUPS[i].prime <= minSize
      invariant 0 <= i < |GROUPS|
      invariant forall k :: 0 <= k < i ==> GROUPS[k].prime <= minSize
      decreases |GROUPS| - i
    {
      i := i + 1;
    }
    forall j | i < j < |GROUPS| ensures GROUPS[i].prime < GROUPS[j].prime {
      TableAscends(i, j);
    }
    return GROUPS[i], i;
  }

  /** The 2^22 cap on generators keeps every product below 2^64 in the first nine rows, and only there. */
  lemma {:induction false} CapFitsFirstNineRows(row: nat)
    requires row < |GROUPS|
    ensures (TWO_22 - 1) * (GROUPS[row].prime - 1) < TWO_64 <==> row <= 8
  {
  }
}
