/** src/send-linux.c and src/send.c: handing packets to the kernel in batches, and accounting for them. */
module Send {
  import opened Bits
  import opened Modular

  /** The kernel's answer to the call-th sendmmsg of a run, with n messages: a negative error, or how many of
      them, from the front, it took. */
  type Kernel = (nat, nat) -> int

  predicate Within(rv: int, n: nat) { rv <= n }

  ghost predicate Honest(kernel: Kernel)
  {
    forall call: nat, n: nat :: Within(kernel(call, n), n)
  }

  /** How many of n messages the kernel takes in at most `attempts` calls, the first of them number `call`. */
  function Taken(kernel: Kernel, call: nat, attempts: nat, n: nat): (r: nat)
    requires Honest(kernel)
    ensures r <= n
    decreases attempts
  {
    if attempts == 0 || n == 0 then 0
    else
      var rv := kernel(call, n);
      if rv < 0 then Taken(kernel, call + 1, attempts - 1, n)
      else rv + Taken(kernel, call + 1, attempts - 1, n - rv)
  }

  /** How many calls that takes. Messages are left over only after the last attempt. */
  function Calls(kernel: Kernel, call: nat, attempts: nat, n: nat): (r: nat)
    requires Honest(kernel)
    ensures r <= attempts && (Taken(kernel, call, attempts, n) < n ==> r == attempts)
    decreases attempts
  {
    if attempts == 0 || n == 0 then 0
    else
      var rv := kernel(call, n);
      1 + Calls(kernel, call + 1, attempts - 1, if rv < 0 then n else n - rv)
  }

  lemma {:induction false} OneCall(kernel: Kernel, call: nat, attempts: nat, n: nat)
    requires Honest(kernel) && attempts > 0 && n > 0
    ensures kernel(call, n) <= n
    ensures var rv := kernel(call, n);
            var left := if rv < 0 then n else n - rv;
            && Taken(kernel, call, attempts, n) == n - left + Taken(kernel, call + 1, attempts - 1, left)
            && Calls(kernel, call, attempts, n) == 1 + Calls(kernel, call + 1, attempts - 1, left)
  {
    assert Within(kernel(call, n), n);
  }

  lemma {:induction false} NoCall(kernel: Kernel, call: nat, attempts: nat, n: nat)
    requires Honest(kernel) && (attempts == 0 || n == 0)
    ensures Taken(kernel, call, attempts, n) == Calls(kernel, call, attempts, n) == 0
  {
  }

  /** send_batch: retries only what has not been taken yet. */
  method SendBatch<P>(batch: seq<P>, attempts: nat, kernel: Kernel, first: nat)
    returns (rc: int, ghost taken: seq<P>, calls: nat)
    requires Honest(kernel)
    ensures rc == Taken(kernel, first, attempts, |batch|) && taken == batch[..rc]
    ensures calls == Calls(kernel, first, attempts, |batch|)
  {
    hide Taken, Calls, Honest;
    rc, taken, calls := 0, [], 0;
    if batch == [] {
      NoCall(kernel, first, attempts, 0);
      return;
    }
    var current, num := batch, |batch|;
    while calls < attempts
      invariant 0 <= rc <= |batch| && taken == batch[..rc] && calls <= attempts
      invariant current == batch[rc..] && num == |current| > 0
      invariant rc + Taken(kernel, first + calls, attempts - calls, num) == Taken(kernel, first, attempts, |batch|)
      invariant calls + Calls(kernel, first + calls, attempts - calls, num) == Calls(kernel, first, attempts, |batch|)
    {
      OneCall(kernel, first + calls, attempts - calls, num);
      var rv := kernel(first + calls, num);
      calls := calls + 1;
      if rv < 0 {
        continue;
      }
      taken := taken + current[..rv];
      rc := rc + rv;
      if rv == num {
        break;
      }
      current := batch[rc..];
      num := |batch| - rc;
    }
    NoCall(kernel, first + calls, attempts - calls, if rc == |batch| then 0 else num);
  }

  // ---------- What a run of the send loop comes to ----------

  /** The packets that wait, those the kernel took and those it did not, each in the order they were made, and the
      calls made so far. */
  datatype Ledger<P> = Ledger(batch: seq<P>, wire: seq<P>, lost: seq<P>, calls: nat)

  /** The batch goes out. */
  function Flushed<P>(kernel: Kernel, attempts: nat, l: Ledger<P>): Ledger<P>
    requires Honest(kernel)
  {
    var n := Taken(kernel, l.calls, attempts, |l.batch|);
    Ledger([], l.wire + l.batch[..n], l.lost + l.batch[n..],
           l.calls + Calls(kernel, l.calls, attempts, |l.batch|))
  }

  /** One more packet: it joins the batch, which goes out when it is full. */
  function Added<P>(kernel: Kernel, attempts: nat, capacity: nat, l: Ledger<P>, packet: P): Ledger<P>
    requires Honest(kernel)
  {
    var more := l.(batch := l.batch + [packet]);
    if |more.batch| == capacity then Flushed(kernel, attempts, more) else more
  }

  /** The ledger after a sequence of packets. */
  function After<P>(kernel: Kernel, attempts: nat, capacity: nat, packets: seq<P>): Ledger<P>
    requires Honest(kernel)
  {
    if packets == [] then Ledger([], [], [], 0)
    else
      Added(kernel, attempts, capacity, After(kernel, attempts, capacity, packets[..|packets| - 1]),
            packets[|packets| - 1])
  }

  lemma {:induction false} AfterNext<P>(kernel: Kernel, attempts: nat, capacity: nat, packets: seq<P>, packet: P)
    requires Honest(kernel)
    ensures After(kernel, attempts, capacity, packets + [packet]) ==
            Added(kernel, attempts, capacity, After(kernel, attempts, capacity, packets), packet)
  {
    assert (packets + [packet])[..|packets|] == packets;
  }

  lemma {:induction false} Cut<P>(s: seq<P>, n: nat)
    requires n <= |s|
    ensures s[..n] + s[n..] == s && multiset(s) == multiset(s[..n]) + multiset(s[n..])
  {
    assert s[..n] + s[n..] == s;
  }

  /** Everything in the ledger. */
  function Entries<P>(l: Ledger<P>): multiset<P>
  {
    multiset(l.wire) + multiset(l.lost) + multiset(l.batch)
  }

  lemma {:induction false} FlushKeeps<P>(kernel: Kernel, attempts: nat, l: Ledger<P>)
    requires Honest(kernel)
    ensures Entries(Flushed(kernel, attempts, l)) == Entries(l)
  {
    hide Taken, Calls;
    Cut(l.batch, Taken(kernel, l.calls, attempts, |l.batch|));
  }

  /** Every packet made is with the kernel, lost or waiting; none twice, none that was not made. */
  lemma {:induction false} Conserved<P>(kernel: Kernel, attempts: nat, capacity: nat, packets: seq<P>)
    requires Honest(kernel)
    ensures Entries(After(kernel, attempts, capacity, packets)) == multiset(packets)
  {
    if packets != [] {
      var rest, last := packets[..|packets| - 1], packets[|packets| - 1];
      Conserved(kernel, attempts, capacity, rest);
      var before := After(kernel, attempts, capacity, rest);
      assert packets == rest + [last];
      AfterNext(kernel, attempts, capacity, rest, last);
      hide After, Flushed;
      FlushKeeps(kernel, attempts, before.(batch := before.batch + [last]));
      assert Entries(before.(batch := before.batch + [last])) == Entries(before) + multiset{last};
    }
  }

  lemma {:induction false} FlushSizes<P>(kernel: Kernel, attempts: nat, l: Ledger<P>)
    requires Honest(kernel)
    ensures var f := Flushed(kernel, attempts, l);
            && f.batch == [] && |f.wire| + |f.lost| == |l.wire| + |l.lost| + |l.batch|
            && l.calls <= f.calls <= l.calls + attempts
  {
    hide Taken, Calls;
  }

  /** What waits is the remainder by the capacity; everything else has been offered, in calls enough for a full
      number of attempts at each batch at most. */
  lemma {:induction false} Waiting<P>(kernel: Kernel, attempts: nat, capacity: nat, packets: seq<P>)
    requires Honest(kernel) && capacity > 0
    ensures var l := After(kernel, attempts, capacity, packets);
            && |l.batch| == |packets| % capacity && l.batch == packets[|packets| - |packets| % capacity..]
            && |l.wire| + |l.lost| == |packets| - |packets| % capacity
            && l.calls <= attempts * (|packets| / capacity)
  {
    if packets == [] {
      NoRemainder(attempts, capacity);
    } else {
      var rest, last := packets[..|packets| - 1], packets[|packets| - 1];
      Waiting(kernel, attempts, capacity, rest);
      var before := After(kernel, attempts, capacity, rest);
      assert packets == rest + [last];
      AfterNext(kernel, attempts, capacity, rest, last);
      hide After, Flushed;
      FlushSizes(kernel, attempts, before.(batch := before.batch + [last]));
      NextRemainder(attempts, |rest|, capacity);
    }
  }

  lemma {:induction false} NothingWaits<P>(kernel: Kernel, attempts: nat, capacity: nat, packets: seq<P>)
    requires Honest(kernel) && capacity > 0 && |packets| % capacity == 0
    ensures After(kernel, attempts, capacity, packets).batch == []
  {
    hide After;
    Waiting(kernel, attempts, capacity, packets);
  }

  lemma {:induction false} LedgerSizes<P>(kernel: Kernel, attempts: nat, capacity: nat, packets: seq<P>)
    requires Honest(kernel) && capacity > 0
    ensures var l := After(kernel, attempts, capacity, packets);
            |l.batch| < capacity && |l.wire| + |l.lost| + |l.batch| == |packets|
  {
    hide After;
    Waiting(kernel, attempts, capacity, packets);
  }

  lemma {:induction false} NoRemainder(a: nat, c: nat)
    requires c > 0
    ensures 0 % c == 0 && a * (0 / c) == 0
  {
  }

  lemma {:induction false} NextRemainder(a: nat, n: nat, c: nat)
    requires c > 0
    ensures n % c < c
    ensures if n % c + 1 == c then (n + 1) % c == 0 && a * ((n + 1) / c) == a * (n / c) + a
            else (n + 1) % c == n % c + 1 && (n + 1) / c == n / c
  {
    var q, r := n / c, n % c;
    if r + 1 == c {
      assert n + 1 == c * (q + 1) + 0;
      DivModUnique(n + 1, c, q + 1, 0);
      assert a * (q + 1) == a * q + a;
    } else {
      DivModUnique(n + 1, c, q, r + 1);
    }
  }

  // ---------- Order ----------

  /** a is b with some elements left out. */
  predicate Subsequence<P(==)>(a: seq<P>, b: seq<P>)
  {
    a == [] ||
    (b != [] && var m, n := |a| - 1, |b| - 1;
                (a[m] == b[n] && Subsequence(a[..m], b[..n])) || Subsequence(a, b[..n]))
  }

  lemma {:induction false} SubsequenceSnoc<P>(a: seq<P>, b: seq<P>, x: P)
    requires Subsequence(a, b)
    ensures Subsequence(a + [x], b + [x])
  {
    assert (a + [x])[..|a|] == a && (b + [x])[..|b|] == b;
  }

  lemma {:induction false} SubsequencePrefix<P>(a: seq<P>, b: seq<P>, k: nat)
    requires Subsequence(a, b) && k <= |a|
    ensures Subsequence(a[..k], b)
  {
    if k == |a| {
      assert a[..k] == a;
    } else {
      var m, n := |a| - 1, |b| - 1;
      if a[m] == b[n] && Subsequence(a[..m], b[..n]) {
        SubsequencePrefix(a[..m], b[..n], k);
        assert a[..m][..k] == a[..k];
      } else {
        SubsequencePrefix(a, b[..n], k);
      }
    }
  }

  lemma {:induction false} FlushInOrder<P>(kernel: Kernel, attempts: nat, l: Ledger<P>, packets: seq<P>)
    requires Honest(kernel) && Subsequence(l.wire + l.batch, packets)
    ensures var f := Flushed(kernel, attempts, l);
            Subsequence(f.wire + f.batch, packets)
  {
    hide Taken, Calls, Subsequence;
    var n := Taken(kernel, l.calls, attempts, |l.batch|);
    SubsequencePrefix(l.wire + l.batch, packets, |l.wire| + n);
    FrontOfSum(l.wire, l.batch, n);
  }

  lemma {:induction false} FrontOfSum<P>(a: seq<P>, b: seq<P>, n: nat)
    requires n <= |b|
    ensures (a + b)[..|a| + n] == a + b[..n] + []
  {
  }

  /** The kernel gets the packets in the order they were made, however often it fails. */
  lemma {:induction false} InOrder<P>(kernel: Kernel, attempts: nat, capacity: nat, packets: seq<P>)
    requires Honest(kernel)
    ensures var l := After(kernel, attempts, capacity, packets);
            Subsequence(l.wire + l.batch, packets)
  {
    hide Flushed, Subsequence;
    if packets == [] {
      NoneLeftOut<P>();
      assert After(kernel, attempts, capacity, packets) == Ledger([], [], [], 0);
    } else {
      var rest, last := packets[..|packets| - 1], packets[|packets| - 1];
      InOrder(kernel, attempts, capacity, rest);
      var l := After(kernel, attempts, capacity, rest);
      assert packets == rest + [last];
      AfterNext(kernel, attempts, capacity, rest, last);
      hide After;
      var more := l.(batch := l.batch + [last]);
      SubsequenceSnoc(l.wire + l.batch, rest, last);
      assert l.wire + l.batch + [last] == more.wire + more.batch;
      FlushInOrder(kernel, attempts, more, packets);
    }
  }

  lemma {:induction false} NoneLeftOut<P>()
    ensures var none: seq<P> := []; Subsequence(none + none, none)
  {
  }

  // ---------- Batch by batch ----------

  lemma {:induction false} Filling<P>(kernel: Kernel, attempts: nat, capacity: nat, packets: seq<P>, more: seq<P>)
    requires Honest(kernel)
    requires |After(kernel, attempts, capacity, packets).batch| + |more| < capacity
    ensures var l := After(kernel, attempts, capacity, packets);
            After(kernel, attempts, capacity, packets + more) == l.(batch := l.batch + more)
  {
    var l := After(kernel, attempts, capacity, packets);
    hide After, Added;
    if more == [] {
      assert packets + more == packets && l.batch + more == l.batch;
    } else {
      var rest, last := more[..|more| - 1], more[|more| - 1];
      Filling(kernel, attempts, capacity, packets, rest);
      AfterNext(kernel, attempts, capacity, packets + rest, last);
      HasRoom(kernel, attempts, capacity, l.(batch := l.batch + rest), last);
      LastApart(packets, more);
      LastApart(l.batch, more);
    }
  }

  lemma {:induction false} LastApart<P>(a: seq<P>, b: seq<P>)
    requires b != []
    ensures a + b == a + b[..|b| - 1] + [b[|b| - 1]]
  {
  }

  lemma {:induction false} HasRoom<P>(kernel: Kernel, attempts: nat, capacity: nat, l: Ledger<P>, packet: P)
    requires Honest(kernel) && |l.batch| + 1 < capacity
    ensures Added(kernel, attempts, capacity, l, packet) == l.(batch := l.batch + [packet])
  {
    hide Flushed;
  }

  /** A full batch on top of whole batches: the kernel is offered exactly that batch, and takes a front part of it. */
  lemma {:induction false} NextBatch<P>(kernel: Kernel, attempts: nat, capacity: nat, packets: seq<P>, more: seq<P>)
    requires Honest(kernel) && capacity > 0 && |packets| % capacity == 0 && |more| == capacity
    ensures var l, m := After(kernel, attempts, capacity, packets), After(kernel, attempts, capacity, packets + more);
            var n := Taken(kernel, l.calls, attempts, capacity);
            && l.batch == m.batch == [] && m.wire == l.wire + more[..n] && m.lost == l.lost + more[n..]
            && m.calls == l.calls + Calls(kernel, l.calls, attempts, capacity)
  {
    hide After, Taken, Calls, Flushed;
    NothingWaits(kernel, attempts, capacity, packets);
    var rest, last := more[..|more| - 1], more[|more| - 1];
    Filling(kernel, attempts, capacity, packets, rest);
    AfterNext(kernel, attempts, capacity, packets + rest, last);
    assert packets + more == packets + rest + [last];
    var l := After(kernel, attempts, capacity, packets);
    assert l.batch + rest + [last] == more;
    OfBatch(kernel, attempts, l, more);
  }

  lemma {:induction false} OfBatch<P>(kernel: Kernel, attempts: nat, l: Ledger<P>, more: seq<P>)
    requires Honest(kernel)
    ensures var n := Taken(kernel, l.calls, attempts, |more|);
            Flushed(kernel, attempts, l.(batch := more)) ==
            Ledger([], l.wire + more[..n], l.lost + more[n..], l.calls + Calls(kernel, l.calls, attempts, |more|))
  {
    hide Taken, Calls;
  }

  /** A kernel that takes what it is offered. */
  ghost predicate Reliable(kernel: Kernel)
  {
    forall call: nat, n: nat :: kernel(call, n) == n
  }

  lemma {:induction false} ReliableTakes(kernel: Kernel, call: nat, attempts: nat, n: nat)
    requires Honest(kernel) && Reliable(kernel) && attempts > 0
    ensures Taken(kernel, call, attempts, n) == n
  {
    hide Taken, Calls;
    if n == 0 {
      NoCall(kernel, call, attempts, 0);
    } else {
      OneCall(kernel, call, attempts, n);
      NoCall(kernel, call + 1, attempts - 1, 0);
    }
  }

  /** Nothing is lost with a reliable kernel, if it is tried at all. */
  lemma {:induction false} ReliableKeepsAll<P>(kernel: Kernel, attempts: nat, capacity: nat, packets: seq<P>)
    requires Honest(kernel) && Reliable(kernel) && attempts > 0
    ensures var l := After(kernel, attempts, capacity, packets);
            l.lost == [] && l.wire + l.batch == packets
  {
    if packets == [] {
      assert After(kernel, attempts, capacity, packets) == Ledger([], [], [], 0);
    } else {
      var rest, last := packets[..|packets| - 1], packets[|packets| - 1];
      ReliableKeepsAll(kernel, attempts, capacity, rest);
      var l := After(kernel, attempts, capacity, rest);
      var full := l.batch + [last];
      assert packets == rest + [last];
      AfterNext(kernel, attempts, capacity, rest, last);
      ReliableTakes(kernel, l.calls, attempts, |full|);
      hide After, Taken, Calls, Reliable;
      assert full[..|full|] == full && full[|full|..] == [];
    }
  }

  // ---------- The sending thread ----------

  /** What send_run keeps per thread. packetsFailed is a 32-bit counter; the ghost fields name the packets and the
      calls behind the numbers. */
  class Sender<P(==)> {
    const capacity: nat
    const attempts: nat
    const kernel: Kernel
    var batch: seq<P>
    var packetsSent: nat
    var packetsFailed: nat
    var targetsScanned: nat
    var calls: nat
    ghost var made: seq<P>
    ghost var wire: seq<P>
    ghost var lost: seq<P>

    /** The ledger is the one the kernel's answers lead to, and the counters agree with it. */
    ghost predicate Valid()
      reads this
    {
      && Honest(kernel) && capacity > 0
      && Ledger(batch, wire, lost, calls) == After(kernel, attempts, capacity, made)
      && packetsSent == |made| && packetsFailed == |lost| % TWO_32
    }

    constructor (capacity: nat, attempts: nat, kernel: Kernel)
      requires Honest(kernel) && capacity > 0
      ensures Valid() && this.capacity == capacity && this.attempts == attempts && this.kernel == kernel
      ensures made == [] && targetsScanned == 0
    {
      this.capacity, this.attempts, this.kernel := capacity, attempts, kernel;
      batch, packetsSent, packetsFailed, targetsScanned, calls := [], 0, 0, 0, 0;
      made, wire, lost := [], [], [];
    }

    /** A full batch goes out; what the kernel does not take is counted as failed. */
    method Flush()
      requires Honest(kernel)
      modifies this`batch, this`packetsFailed, this`wire, this`lost, this`calls
      ensures Ledger(batch, wire, lost, calls) ==
              Flushed(kernel, attempts, old(Ledger(batch, wire, lost, calls)))
      ensures packetsFailed ==
              (old(packetsFailed) + |old(batch)| - Taken(kernel, old(calls), attempts, |old(batch)|)) % TWO_32
    {
      hide Taken, Calls;
      var rc, sent, used := SendBatch(batch, attempts, kernel, calls);
      wire := wire + sent;
      lost := lost + batch[rc..];
      // the count is never negative, so the caller's error branch is dead
      assert rc >= 0;
      packetsFailed := (packetsFailed + |batch| - rc) % TWO_32;
      batch, calls := [], calls + used;
    }

    /** One packet in the inner loop of send_run. */
    method SendPacket(packet: P)
      requires Valid()
      modifies this`batch, this`packetsSent, this`packetsFailed, this`made, this`wire, this`lost, this`calls
      ensures Valid() && made == old(made) + [packet] && packetsSent == old(packetsSent) + 1
      ensures Ledger(batch, wire, lost, calls) ==
              Added(kernel, attempts, capacity, old(Ledger(batch, wire, lost, calls)), packet)
    {
      hide Taken, Calls, After;
      AfterNext(kernel, attempts, capacity, made, packet);
      batch := batch + [packet];
      made := made + [packet];
      if |batch| == capacity {
        Flush();
      }
      packetsSent := packetsSent + 1;
    }

    /** All probes of one target. */
    method SendTarget(packets: seq<P>)
      requires Valid()
      modifies this`batch, this`packetsSent, this`packetsFailed, this`targetsScanned, this`made, this`wire, this`lost,
        this`calls
      ensures Valid() && made == old(made) + packets
      ensures packetsSent == old(packetsSent) + |packets| && targetsScanned == old(targetsScanned) + 1
    {
      hide After, Added;
      for i := 0 to |packets|
        invariant Valid() && made == old(made) + packets[..i]
        invariant packetsSent == old(packetsSent) + i && targetsScanned == old(targetsScanned)
      {
        SendPacket(packets[i]);
        assert packets[..i + 1] == packets[..i] + [packets[i]];
      }
      assert packets[..|packets|] == packets;
      targetsScanned := targetsScanned + 1;
    }

    /** The cleanup step sends the rest; what the kernel does not take then is in no counter. */
    method Cleanup() returns (ghost dropped: seq<P>)
      requires Valid()
      modifies this`wire
      ensures var n := Taken(kernel, calls, attempts, |batch|);
              wire == old(wire) + batch[..n] && dropped == batch[n..]
    {
      hide Taken, Calls, After;
      var rc, sent, _ := SendBatch(batch, attempts, kernel, calls);
      wire := wire + sent;
      dropped := batch[rc..];
    }
  }

  // ---------- A whole run ----------

  function Flatten<P>(ts: seq<seq<P>>): seq<P>
  {
    if ts == [] then [] else Flatten(ts[..|ts| - 1]) + ts[|ts| - 1]
  }

  /** The send loop stops before target k: told to, at a quota of targets or packets, or at the end of the shard. */
  predicate Halts<P>(targets: seq<seq<P>>, k: nat, maxTargets: nat, maxPackets: nat, stop: nat -> bool)
    requires k <= |targets|
  {
    || stop(k)
    || (maxTargets > 0 && k >= maxTargets)
    || (maxPackets > 0 && |Flatten(targets[..k])| >= maxPackets)
    || k == |targets|
  }

  /** What a run of the send loop and its cleanup come to for the packets it makes. */
  ghost predicate Accounts<P>(kernel: Kernel, attempts: nat, capacity: nat, made: seq<P>, wire: seq<P>,
                                    lost: seq<P>, dropped: seq<P>)
    requires Honest(kernel)
  {
    var l := After(kernel, attempts, capacity, made);
    var n := Taken(kernel, l.calls, attempts, |l.batch|);
    wire == l.wire + l.batch[..n] && lost == l.lost && dropped == l.batch[n..]
  }

  /** The identity of a whole run: what the kernel took, in order, what it did not take of full batches, and what it
      did not take at the end, fewer than a batch, are the packets made. The counters, one of 32 bits, tell what the
      kernel took if and only if fewer than 2^32 packets are lost and nothing is dropped at the end. */
  lemma {:induction false} Accounting<P>(kernel: Kernel, attempts: nat, capacity: nat, made: seq<P>, wire: seq<P>,
                                         lost: seq<P>, dropped: seq<P>)
    requires Honest(kernel) && capacity > 0 && Accounts(kernel, attempts, capacity, made, wire, lost, dropped)
    ensures multiset(made) == multiset(wire) + multiset(lost) + multiset(dropped) && Subsequence(wire, made)
    ensures |made| == |wire| + |lost| + |dropped| && |dropped| < capacity
    ensures |made| - |lost| % TWO_32 == |wire| <==> |lost| < TWO_32 && dropped == []
  {
    hide After, Taken, Subsequence;
    var l := After(kernel, attempts, capacity, made);
    var n := Taken(kernel, l.calls, attempts, |l.batch|);
    LedgerSizes(kernel, attempts, capacity, made);
    CountersTell(|made|, |wire|, |lost|, |dropped|);
    Conserved(kernel, attempts, capacity, made);
    Cut(l.batch, n);
    InOrder(kernel, attempts, capacity, made);
    SubsequencePrefix(l.wire + l.batch, made, |l.wire| + n);
    assert (l.wire + l.batch)[..|l.wire| + n] == wire;
  }

  lemma {:induction false} CountersTell(made: nat, wire: nat, lost: nat, dropped: nat)
    requires made == wire + lost + dropped
    ensures made - lost % TWO_32 == wire <==> lost < TWO_32 && dropped == 0
  {
  }

  /** With a reliable kernel everything made arrives, in order. */
  lemma {:induction false} ReliableRun<P>(kernel: Kernel, attempts: nat, capacity: nat, made: seq<P>, wire: seq<P>,
                                          lost: seq<P>, dropped: seq<P>)
    requires Honest(kernel) && Reliable(kernel) && attempts > 0
    requires Accounts(kernel, attempts, capacity, made, wire, lost, dropped)
    ensures wire == made && lost == dropped == []
  {
    ReliableKeepsAll(kernel, attempts, capacity, made);
    var l := After(kernel, attempts, capacity, made);
    var n := |l.batch|;
    ReliableTakes(kernel, l.calls, attempts, n);
    hide After, Taken;
    assert l.batch[..n] == l.batch && l.batch[n..] == [];
  }

  /** send_run: targets until it halts, then cleanup. */
  method SendRun<P(==)>(targets: seq<seq<P>>, capacity: nat, attempts: nat, kernel: Kernel, maxTargets: nat,
                        maxPackets: nat, stop: nat -> bool)
    returns (sent: nat, failed: nat, scanned: nat, ghost wire: seq<P>, ghost lost: seq<P>, ghost dropped: seq<P>)
    requires Honest(kernel) && capacity > 0
    ensures scanned <= |targets| && Halts(targets, scanned, maxTargets, maxPackets, stop)
    ensures forall k :: 0 <= k < scanned ==> !Halts(targets, k, maxTargets, maxPackets, stop)
    ensures maxTargets > 0 ==> scanned <= maxTargets
    ensures maxPackets > 0 && scanned > 0 ==> sent < maxPackets + |targets[scanned - 1]|
    ensures scanned < |targets| && !stop(scanned) ==>
              (maxTargets > 0 && scanned == maxTargets) || (maxPackets > 0 && sent >= maxPackets)
    ensures Accounts(kernel, attempts, capacity, Flatten(targets[..scanned]), wire, lost, dropped)
    ensures sent == |Flatten(targets[..scanned])| == |wire| + |lost| + |dropped|
    ensures failed == |lost| % TWO_32
    ensures sent - failed == |wire| <==> |lost| < TWO_32 && dropped == []
  {
    hide Taken, After, Flatten;
    var s := new Sender<P>(capacity, attempts, kernel);
    NoTargets(targets);
    var k := 0;
    while !(stop(k) || (maxTargets > 0 && s.targetsScanned >= maxTargets) ||
            (maxPackets > 0 && s.packetsSent >= maxPackets) || k == |targets|)
      invariant k <= |targets| && s.Valid() && fresh(s) && s.made == Flatten(targets[..k]) && s.targetsScanned == k
      invariant s.capacity == capacity && s.attempts == attempts && s.kernel == kernel
      invariant forall j :: 0 <= j < k ==> !Halts(targets, j, maxTargets, maxPackets, stop)
      invariant maxTargets > 0 ==> k <= maxTargets
      invariant maxPackets > 0 && k > 0 ==> s.packetsSent < maxPackets + |targets[k - 1]|
      decreases |targets| - k
    {
      assert !Halts(targets, k, maxTargets, maxPackets, stop);
      NextTarget(targets, k);
      s.SendTarget(targets[k]);
      k := k + 1;
    }
    dropped := s.Cleanup();
    sent, failed, scanned := s.packetsSent, s.packetsFailed, k;
    wire, lost := s.wire, s.lost;
    Accounting(kernel, attempts, capacity, s.made, wire, lost, dropped);
  }

  lemma {:induction false} NoTargets<P>(targets: seq<seq<P>>)
    ensures Flatten(targets[..0]) == []
  {
  }

  lemma {:induction false} NextTarget<P>(targets: seq<seq<P>>, k: nat)
    requires k < |targets|
    ensures Flatten(targets[..k + 1]) == Flatten(targets[..k]) + targets[k]
  {
    assert targets[..k + 1][..k] == targets[..k];
  }
}
