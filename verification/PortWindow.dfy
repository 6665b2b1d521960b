/** src/probe_modules/packet.h: which source ports a scan uses, and which a response may answer. */
module PortWindow {
  import opened Bits
  import opened Modular

  /** The configured source ports and the probes sent to one target. */
  datatype Config = Config(first: nat, last: nat, streams: nat)
  {
    /** num_ports as every probe module computes it. */
    function NumPorts(): nat
      requires first <= last
    {
      last - first + 1
    }

    predicate Valid() { first <= last < 0x1_0000 && 1 <= streams < 0x8000_0000 }
  }

  /** get_src_port: 32-bit addition, then the offset into the port range. */
  function GetSrcPort(c: Config, probe: nat, validation: nat): nat
    requires c.Valid()
  {
    (c.first + (validation + probe) % TWO_32 % c.NumPorts()) % 0x1_0000
  }

  /** check_dst_port */
  predicate CheckDstPort(c: Config, port: nat, validation: nat)
    requires c.Valid()
  {
    if port > c.last || port < c.first then false
    else
      var t := port - c.first;
      var min := validation % c.NumPorts();
      var max := (validation + c.streams - 1) % TWO_32 % c.NumPorts();
      if min <= max then t <= max && t >= min else (t <= max) != (t >= min)
  }

  /** Some probe of the target leaves from this port. */
  ghost predicate Sent(c: Config, port: nat, validation: nat)
    requires c.Valid()
  {
    exists i: nat :: i < c.streams && GetSrcPort(c, i, validation) == port
  }

  /** Accepting a response port means a probe left from it. */
  ghost predicate WindowExact(c: Config, validation: nat)
    requires c.Valid()
  {
    forall port: nat :: port < 0x1_0000 ==> (CheckDstPort(c, port, validation) <==> Sent(c, port, validation))
  }

  // ---------- Offsets ----------

  /** The offset probe i uses. */
  function Offset(n: nat, i: nat, v: nat): nat
    requires n > 0
  {
    (v + i) % TWO_32 % n
  }

  /** From min up to max, or round the end of the range. */
  predicate Inside(min: nat, max: nat, t: nat)
  {
    if min <= max then min <= t <= max else t <= max || t >= min
  }

  predicate InWindow(n: nat, s: nat, v: nat, t: nat)
    requires n > 0 && s > 0
  {
    Inside(v % n, (v + s - 1) % TWO_32 % n, t)
  }

  lemma {:induction false} SrcPortIsOffset(c: Config, i: nat, v: nat)
    requires c.Valid()
    ensures GetSrcPort(c, i, v) == c.first + Offset(c.NumPorts(), i, v)
    ensures c.first <= GetSrcPort(c, i, v) <= c.last
  {
    assert 0 <= Offset(c.NumPorts(), i, v) < c.NumPorts();
  }

  lemma {:induction false} CheckIsWindow(c: Config, port: nat, v: nat)
    requires c.Valid()
    ensures CheckDstPort(c, port, v) <==>
            c.first <= port <= c.last && InWindow(c.NumPorts(), c.streams, v, port - c.first)
  {
  }

  /** Some probe uses offset t. */
  ghost predicate InUse(n: nat, s: nat, v: nat, t: nat)
    requires n > 0
  {
    exists i: nat :: i < s && Offset(n, i, v) == t
  }

  /** The whole question in terms of offsets below the number of ports. */
  ghost predicate OffsetsExact(n: nat, s: nat, v: nat)
    requires n > 0 && s > 0
  {
    forall t: nat :: t < n ==> (InWindow(n, s, v, t) <==> InUse(n, s, v, t))
  }

  lemma {:induction false} ExactIffOffsets(c: Config, v: nat)
    requires c.Valid()
    ensures WindowExact(c, v) <==> OffsetsExact(c.NumPorts(), c.streams, v)
  {
    var n, s := c.NumPorts(), c.streams;
    forall port: nat | port < 0x1_0000
      ensures CheckDstPort(c, port, v) <==> c.first <= port <= c.last && InWindow(n, s, v, port - c.first)
      ensures Sent(c, port, v) <==>
              c.first <= port <= c.last && InUse(n, s, v, port - c.first)
    {
      CheckIsWindow(c, port, v);
      SentIsOffset(c, port, v);
    }
    if WindowExact(c, v) {
      forall t: nat | t < n
        ensures InWindow(n, s, v, t) <==> InUse(n, s, v, t)
      {
        assert CheckDstPort(c, c.first + t, v) <==> Sent(c, c.first + t, v);
      }
    }
  }

  lemma {:induction false} SentIsOffset(c: Config, port: nat, v: nat)
    requires c.Valid()
    ensures Sent(c, port, v) <==>
            c.first <= port <= c.last && InUse(c.NumPorts(), c.streams, v, port - c.first)
  {
    if Sent(c, port, v) {
      var i: nat :| i < c.streams && GetSrcPort(c, i, v) == port;
      SrcPortIsOffset(c, i, v);
      assert Offset(c.NumPorts(), i, v) == port - c.first;
    }
    if c.first <= port && InUse(c.NumPorts(), c.streams, v, port - c.first) {
      var i: nat :| i < c.streams && Offset(c.NumPorts(), i, v) == port - c.first;
      SrcPortIsOffset(c, i, v);
    }
  }

  // ---------- No 32-bit wrap ----------

  /** Adding less than n to v moves its residue along the circle of n offsets. */
  function Around(a: nat, i: nat, n: nat): nat
    requires a < n && i < n
  {
    if a + i < n then a + i else a + i - n
  }

  lemma {:induction false} RunMod(v: nat, i: nat, n: nat)
    requires i < n
    ensures v % n < n && (v + i) % n == Around(v % n, i, n)
  {
    var q, a := v / n, v % n;
    if a + i < n {
      DivModUnique(v + i, n, q, a + i);
    } else {
      assert v + i == n * (q + 1) + (a + i - n);
      DivModUnique(v + i, n, q + 1, a + i - n);
    }
  }

  lemma {:induction false} NoWrapOffset(n: nat, i: nat, v: nat)
    requires n > 0 && v + i < TWO_32
    ensures Offset(n, i, v) == (v + i) % n
  {
  }

  /** With at most one probe per port, the window is exactly the run of offsets in use. */
  lemma {:induction false} FewStreamsExact(n: nat, s: nat, v: nat)
    requires 0 < s <= n && v + s <= TWO_32
    ensures OffsetsExact(n, s, v)
  {
    var a := v % n;
    RunMod(v, s - 1, n);
    NoWrapOffset(n, s - 1, v);
    forall t: nat | t < n
      ensures InWindow(n, s, v, t) <==> InUse(n, s, v, t)
    {
      var j := if t >= a then t - a else t + n - a;
      forall i: nat | i < s ensures Offset(n, i, v) == t <==> i == j {
        RunMod(v, i, n);
        NoWrapOffset(n, i, v);
      }
      if j < s {
        assert Offset(n, j, v) == t;
      }
    }
  }

  lemma {:induction false} LastOffset(n: nat, s: nat, v: nat)
    requires n > 0 && s > 0 && v + s <= TWO_32
    ensures (v + s - 1) % TWO_32 % n == Around(v % n, (s - 1) % n, n)
    ensures s % n == 0 <==> (s - 1) % n == n - 1
  {
    var e, q := (s - 1) % n, (s - 1) / n;
    assert s - 1 == n * q + e;
    ModAddMultiple(v + e, n, q);
    assert v + s - 1 == v + e + n * q;
    RunMod(v, e, n);
    if e == n - 1 {
      assert s == n * (q + 1);
      MultipleMod(n, q + 1);
    } else {
      DivModUnique(s, n, q, e + 1);
    }
  }

  /** With more probes than ports every port is in use; the window covers them only when the probes
      go round a whole number of times. */
  lemma {:induction false} ManyStreamsExactIff(n: nat, s: nat, v: nat)
    requires 0 < n < s && v + s <= TWO_32
    ensures OffsetsExact(n, s, v) <==> s % n == 0
  {
    LastOffset(n, s, v);
    hide Offset;
    forall t: nat | t < n ensures InUse(n, s, v, t) {
      EveryOffsetInUse(n, s, v, t);
    }
    if s % n != 0 {
      var t := Around(v % n, (s - 1) % n + 1, n);
      assert !InWindow(n, s, v, t);
    }
  }

  lemma {:induction false} EveryOffsetInUse(n: nat, s: nat, v: nat, t: nat)
    requires t < n <= s && v + s <= TWO_32
    ensures InUse(n, s, v, t)
  {
    var a := v % n;
    var j := if t >= a then t - a else t + n - a;
    RunMod(v, j, n);
    NoWrapOffset(n, j, v);
  }

  /** Without 32-bit wrap, the check is exact iff the probes do not outnumber the ports, or go round
      them a whole number of times. */
  lemma {:induction false} ExactWithoutWrap(c: Config, v: nat)
    requires c.Valid() && v + c.streams <= TWO_32
    ensures WindowExact(c, v) <==> c.streams <= c.NumPorts() || c.streams % c.NumPorts() == 0
  {
    ExactIffOffsets(c, v);
    if c.streams <= c.NumPorts() {
      FewStreamsExact(c.NumPorts(), c.streams, v);
    } else {
      ManyStreamsExactIff(c.NumPorts(), c.streams, v);
    }
  }

  // ---------- With 32-bit wrap ----------

  /** The offsets before the wrap, k = 2^32 - v probes; the offsets after it restart at 0. */
  lemma {:induction false} WrapOffsets(n: nat, i: nat, v: nat)
    requires 0 < n <= 0x1_0000 && v < TWO_32 && i < TWO_32 - v + n && TWO_32 - v < n
    ensures var k, r := TWO_32 - v, TWO_32 % n;
            Offset(n, i, v) == if i >= k then i - k else if r + i >= k then r + i - k else n + r + i - k
    ensures v % n == Offset(n, 0, v)
  {
    var k, q, r := TWO_32 - v, TWO_32 / n, TWO_32 % n;
    assert TWO_32 == n * q + r;
    if i >= k {
      assert (v + i) % TWO_32 == i - k;
      DivModUnique(i - k, n, 0, i - k);
    } else if r + i >= k {
      DivModUnique(v + i, n, q, r + i - k);
    } else {
      assert v + i == n * (q - 1) + (n + r + i - k);
      DivModUnique(v + i, n, q - 1, n + r + i - k);
    }
  }

  /** Across the wrap, with fewer probes than ports on each side of it, the check is exact iff the remainder of 2^32 is
      covered on both sides and the probes do not run into each other beyond it. */
  lemma {:induction false} ExactAcrossWrap(n: nat, s: nat, v: nat)
    requires 0 < n <= 0x1_0000 && v < TWO_32 < v + s && TWO_32 - v < n && v + s - TWO_32 < n
    ensures var k, r := TWO_32 - v, TWO_32 % n;
            OffsetsExact(n, s, v) <==> r <= k && r <= s - k && s <= n + r
  {
    var k, r := TWO_32 - v, TWO_32 % n;
    WrapOffsets(n, 0, v);
    WrapOffsets(n, s - 1, v);
    forall i: nat | i < s
      ensures Offset(n, i, v) == if i >= k then i - k else if r + i >= k then r + i - k else n + r + i - k
    {
      WrapOffsets(n, i, v);
    }
    if r <= k && r <= s - k && s <= n + r {
      forall t: nat | t < n
        ensures InWindow(n, s, v, t) <==> InUse(n, s, v, t)
      {
        if t < s - k {
          assert Offset(n, k + t, v) == t;
        } else if t >= n + r - k {
          assert Offset(n, t + k - n - r, v) == t;
        }
      }
    } else {
      WrapWitness(n, s, v);
    }
  }

  /** An offset on which the check and the probes disagree. */
  lemma {:induction false} WrapWitness(n: nat, s: nat, v: nat)
    requires 0 < n <= 0x1_0000 && v < TWO_32 < v + s && TWO_32 - v < n && v + s - TWO_32 < n
    requires var k, r := TWO_32 - v, TWO_32 % n; !(r <= k && r <= s - k && s <= n + r)
    ensures !OffsetsExact(n, s, v)
  {
    var k, r := TWO_32 - v, TWO_32 % n;
    WrapOffsets(n, 0, v);
    WrapOffsets(n, s - 1, v);
    forall i: nat | i < s
      ensures Offset(n, i, v) == if i >= k then i - k else if r + i >= k then r + i - k else n + r + i - k
    {
      WrapOffsets(n, i, v);
    }
    if r <= k && r > s - k {
      // offset r - 1 is sent just before the wrap, but lies past the window's end
      assert Offset(n, k - 1, v) == r - 1;
      assert !InWindow(n, s, v, r - 1);
    } else if r <= k || r - k <= s - 1 - k {
      // offset 0 is sent just after the wrap, but the window starts above it
      assert Offset(n, k, v) == 0;
      assert !InWindow(n, s, v, 0);
    } else {
      // the window runs over n - 1, which no probe uses
      assert InWindow(n, s, v, n - 1);
      assert forall i: nat :: i < s ==> Offset(n, i, v) != n - 1;
    }
  }

  lemma {:induction false} ResiduesAgreeIff(x: int, y: int, n: int)
    requires n > 0
    ensures x % n == y % n <==> (x - y) % n == 0
  {
    if x % n == y % n {
      assert x - y == n * (x / n - y / n) + 0 by {
        assert x == n * (x / n) + x % n && y == n * (y / n) + y % n;
      }
      DivModUnique(x - y, n, x / n - y / n, 0);
    }
    if (x - y) % n == 0 {
      var q := (x - y) / n;
      ModAddMultiple(y, n, q);
      assert x == y + n * q;
    }
  }

  /** The window is the whole range exactly when its ends meet. */
  lemma {:induction false} WindowIsAllIff(n: nat, min: nat, max: nat)
    requires min < n && max < n
    ensures (forall t: nat :: t < n ==> Inside(min, max, t)) <==> min == (max + 1) % n
  {
    if max + 1 == n {
      DivModUnique(max + 1, n, 1, 0);
      assert Inside(min, max, 0) <==> min == 0;
    } else {
      DivModUnique(max + 1, n, 0, max + 1);
      assert Inside(min, max, max + 1) <==> min == max + 1;
      if min < max + 1 {
        assert !Inside(min, max, max + 1);
      }
    }
  }

  /** The ends meet when the probes go round a whole number of times, counting from the remainder of 2^32. */
  lemma {:induction false} EndsMeetIff(n: nat, s: nat, v: nat)
    requires 0 < n && v < TWO_32 < v + s && s < TWO_32
    ensures var min, max := v % n, (v + s - 1) % TWO_32 % n;
            min == (max + 1) % n <==> (s - TWO_32 % n) % n == 0
  {
    var k, r, q := TWO_32 - v, TWO_32 % n, TWO_32 / n;
    var y := s - k - 1;
    assert (v + s - 1) % TWO_32 == y;
    NextResidue(y, n);
    ResiduesAgreeIff(v, y + 1, n);
    assert TWO_32 == n * q + r;
    ModAddMultiple(r - s, n, q);
    assert v - (y + 1) == (r - s) + n * q;
    ResiduesAgreeIff(r, s, n);
    ResiduesAgreeIff(s, r, n);
  }

  lemma {:induction false} NextResidue(y: nat, n: nat)
    requires n > 0
    ensures (y % n + 1) % n == (y + 1) % n
  {
    ModAddMultiple(y % n + 1, n, y / n);
    assert y + 1 == (y % n + 1) + n * (y / n);
  }

  /** With at least as many probes as ports on one side of the wrap, every port is in use; the window covers them only
      when its ends meet. */
  lemma {:induction false} ManyAcrossWrapIff(n: nat, s: nat, v: nat)
    requires 0 < n <= 0x1_0000 && v < TWO_32 < v + s && s < TWO_32
    requires TWO_32 - v >= n || v + s - TWO_32 >= n
    ensures OffsetsExact(n, s, v) <==> (s - TWO_32 % n) % n == 0
  {
    forall t: nat | t < n ensures InUse(n, s, v, t) {
      InUseAcrossWrap(n, s, v, t);
    }
    EndsMeetIff(n, s, v);
    hide Offset, Inside, InUse;
    WindowAlone(n, s, v, v % n, (v + s - 1) % TWO_32 % n);
  }

  lemma {:induction false} WindowAlone(n: nat, s: nat, v: nat, min: nat, max: nat)
    requires n > 0 && s > 0 && min == v % n < n && max == (v + s - 1) % TWO_32 % n < n
    requires forall t: nat :: t < n ==> InUse(n, s, v, t)
    ensures OffsetsExact(n, s, v) <==> min == (max + 1) % n
  {
    hide Inside, InUse;
    WindowIsAllIff(n, min, max);
    forall t: nat | t < n ensures InWindow(n, s, v, t) == Inside(min, max, t) {
    }
  }

  lemma {:induction false} InUseAcrossWrap(n: nat, s: nat, v: nat, t: nat)
    requires t < n <= 0x1_0000 && v < TWO_32 < v + s && s < TWO_32
    requires TWO_32 - v >= n || v + s - TWO_32 >= n
    ensures InUse(n, s, v, t)
  {
    hide Offset;
    var k := TWO_32 - v;
    if k >= n {
      EveryOffsetInUse(n, k, v, t);
      var i: nat :| i < k && Offset(n, i, v) == t;
      assert i < s && Offset(n, i, v) == t;
    } else {
      AfterWrap(n, k + t, v);
      assert Offset(n, k + t, v) == t;
    }
  }

  lemma {:induction false} AfterWrap(n: nat, i: nat, v: nat)
    requires v < TWO_32 <= v + i < TWO_32 + n && n <= TWO_32
    ensures Offset(n, i, v) == v + i - TWO_32
  {
    DivModUnique(v + i - TWO_32, n, 0, v + i - TWO_32);
  }

  /** Across the 32-bit wrap, k probes before it: the exact condition for any number of probes. */
  lemma {:induction false} ExactWithWrap(c: Config, v: nat)
    requires c.Valid() && v < TWO_32 < v + c.streams
    ensures var n, s, k := c.NumPorts(), c.streams, TWO_32 - v;
            var r := TWO_32 % n;
            WindowExact(c, v) <==> if k < n && s - k < n then r <= k && r <= s - k && s <= n + r else (s - r) % n == 0
  {
    ExactIffOffsets(c, v);
    hide OffsetsExact, WindowExact;
    var n, s, k := c.NumPorts(), c.streams, TWO_32 - v;
    if k < n && s - k < n {
      ExactAcrossWrap(n, s, v);
    } else {
      ManyAcrossWrapIff(n, s, v);
    }
  }

  /** The default port range with two probes: the largest validation word breaks the equivalence. */
  lemma {:induction false} DefaultRangeInexact()
    ensures !WindowExact(Config(32768, 61000, 2), 0xFFFF_FFFF)
  {
    ExactWithWrap(Config(32768, 61000, 2), 0xFFFF_FFFF);
  }
}
