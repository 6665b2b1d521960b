/** src/recv.c, window deduplication: a packet is a repeat iff its address and port were seen recently. */
module RecvWindow {
  import opened CacheList
  import opened CacheHash
  import opened Options

  /** The (address, port) of a validated response. */
  datatype Source = Source(ip: nat, port: nat)

  function Without(s: seq<Source>, x: Source): seq<Source>
  {
    if s == [] then []
    else if s[|s| - 1] == x then Without(s[..|s| - 1], x) else Without(s[..|s| - 1], x) + [s[|s| - 1]]
  }

  /** The distinct sources of a history, most recently seen first. */
  function Recency(h: seq<Source>): seq<Source>
  {
    if h == [] then [] else [h[|h| - 1]] + Without(Recency(h[..|h| - 1]), h[|h| - 1])
  }

  ghost predicate NoRepeats(s: seq<Source>)
  {
    forall i, j :: 0 <= i < j < |s| ==> s[i] != s[j]
  }

  lemma {:induction false} WithoutAbsent(s: seq<Source>, x: Source)
    requires x !in s
    ensures Without(s, x) == s
  {
    if s != [] {
      WithoutAbsent(s[..|s| - 1], x);
    }
  }

  lemma {:induction false} WithoutAppend(s: seq<Source>, t: seq<Source>, x: Source)
    ensures Without(s + t, x) == Without(s, x) + Without(t, x)
  {
    if t == [] {
      assert s + t == s;
    } else {
      WithoutAppend(s, t[..|t| - 1], x);
      assert (s + t)[..|s + t| - 1] == s + t[..|t| - 1];
    }
  }

  lemma {:induction false} OnlyAt(s: seq<Source>, k: nat)
    requires NoRepeats(s) && k < |s|
    ensures s[k] !in s[..k] && s[k] !in s[k + 1..]
  {
  }

  lemma {:induction false} WithoutMiddle(a: seq<Source>, x: Source, b: seq<Source>)
    requires x !in a && x !in b
    ensures Without(a + [x] + b, x) == a + b
  {
    WithoutAppend(a + [x], b, x);
    WithoutAppend(a, [x], x);
    WithoutAbsent(a, x);
    WithoutAbsent(b, x);
    assert Without([x], x) == [];
  }

  /** Removing the element at position k of a list without repeats. */
  lemma {:induction false} WithoutAt(s: seq<Source>, k: nat)
    requires NoRepeats(s) && k < |s|
    ensures Without(s, s[k]) == s[..k] + s[k + 1..]
  {
    OnlyAt(s, k);
    WithoutMiddle(s[..k], s[k], s[k + 1..]);
    assert s == s[..k] + [s[k]] + s[k + 1..];
  }

  lemma {:induction false} WithoutElements(s: seq<Source>, x: Source, y: Source)
    ensures y in Without(s, x) <==> y in s && y != x
  {
    if s != [] {
      WithoutElements(s[..|s| - 1], x, y);
      assert s == s[..|s| - 1] + [s[|s| - 1]];
    }
  }

  lemma {:induction false} RecencyElements(h: seq<Source>, y: Source)
    ensures y in Recency(h) <==> y in h
  {
    if h != [] {
      RecencyElements(h[..|h| - 1], y);
      WithoutElements(Recency(h[..|h| - 1]), h[|h| - 1], y);
      assert h == h[..|h| - 1] + [h[|h| - 1]];
    }
  }

  lemma {:induction false} WithoutNoRepeats(s: seq<Source>, x: Source)
    requires NoRepeats(s)
    ensures NoRepeats([x] + Without(s, x))
  {
    if x in s {
      var k :| 0 <= k < |s| && s[k] == x;
      WithoutAt(s, k);
    } else {
      WithoutAbsent(s, x);
    }
  }

  lemma {:induction false} RecencyNoRepeats(h: seq<Source>)
    ensures NoRepeats(Recency(h))
  {
    if h != [] {
      RecencyNoRepeats(h[..|h| - 1]);
      WithoutNoRepeats(Recency(h[..|h| - 1]), h[|h| - 1]);
    }
  }

  // ---------- What "recently" means ----------

  ghost function SetOf(s: seq<Source>): set<Source>
  {
    set x | x in s
  }

  /** x occurs in the history, with fewer than w other sources seen since its last occurrence. */
  ghost predicate SeenAmongLast(h: seq<Source>, x: Source, w: nat)
  {
    exists i :: 0 <= i < |h| && LastSeenAt(h, x, i) && |SetOf(h[i + 1..])| < w
  }

  ghost predicate LastSeenAt(h: seq<Source>, x: Source, i: nat)
  {
    i < |h| && h[i] == x && x !in h[i + 1..]
  }

  /** Everything seen since the last occurrence of x stands before x in the recency list. */
  lemma {:induction false} RecencyPosition(h: seq<Source>, x: Source, i: nat)
    requires LastSeenAt(h, x, i)
    ensures var p := |SetOf(h[i + 1..])|;
            p < |Recency(h)| && Recency(h)[p] == x && SetOf(Recency(h)[..p]) == SetOf(h[i + 1..])
  {
    var n := |h| - 1;
    var rest, y := h[..n], h[n];
    if i == n {
      assert SetOf(h[n + 1..]) == {};
    } else {
      assert h[i + 1..] == rest[i + 1..] + [y];
      RecencyPosition(rest, x, i);
      RecencyNoRepeats(rest);
      var r, p := Recency(rest), |SetOf(rest[i + 1..])|;
      assert SetOf(h[i + 1..]) == SetOf(rest[i + 1..]) + {y};
      PositionStep(r, p, y);
    }
  }

  lemma {:induction false} PositionStep(r: seq<Source>, p: nat, y: Source)
    requires NoRepeats(r) && p < |r| && r[p] != y && p == |SetOf(r[..p])|
    ensures var r' := [y] + Without(r, y);
            var q := |SetOf(r[..p]) + {y}|;
            q < |r'| && r'[q] == r[p] && SetOf(r'[..q]) == SetOf(r[..p]) + {y}
  {
    hide Without, NoRepeats;
    if y in r[..p] {
      var k :| 0 <= k < p && r[k] == y;
      WithoutAt(r, k);
      SplitAround(r, k, p);
      assert SetOf(r[..p]) + {y} == SetOf(r[..p]);
    } else {
      if y in r {
        var k :| 0 <= k < |r| && r[k] == y;
        WithoutAt(r, k);
      } else {
        WithoutAbsent(r, y);
      }
      var r' := [y] + Without(r, y);
      assert r'[..p + 1] == [y] + r[..p];
      assert SetOf([y] + r[..p]) == SetOf(r[..p]) + {y};
    }
  }

  lemma {:induction false} SplitAround(r: seq<Source>, k: nat, p: nat)
    requires k < p < |r|
    ensures var r' := [r[k]] + (r[..k] + r[k + 1..]);
            r'[p] == r[p] && SetOf(r'[..p]) == SetOf(r[..p])
  {
    var r' := [r[k]] + (r[..k] + r[k + 1..]);
    assert r'[..p] == [r[k]] + r[..k] + r[k + 1..p];
    assert r[..p] == r[..k] + [r[k]] + r[k + 1..p];
  }

  lemma {:induction false} LastSeenExists(h: seq<Source>, x: Source) returns (i: nat)
    requires x in h
    ensures LastSeenAt(h, x, i)
  {
    i := |h| - 1;
    while h[i] != x
      invariant i < |h| && x !in h[i + 1..] && x in h[..i + 1]
      decreases i
    {
      i := i - 1;
    }
  }

  /** Being among the first w of the recency list is being seen recently. */
  lemma {:induction false} WindowMeaning(h: seq<Source>, x: Source, w: nat)
    ensures SeenAmongLast(h, x, w) <==> exists k :: 0 <= k < |Recency(h)| && k < w && Recency(h)[k] == x
  {
    RecencyNoRepeats(h);
    if SeenAmongLast(h, x, w) {
      var i :| 0 <= i < |h| && LastSeenAt(h, x, i) && |SetOf(h[i + 1..])| < w;
      RecencyPosition(h, x, i);
    }
    if k :| 0 <= k < |Recency(h)| && k < w && Recency(h)[k] == x {
      RecencyElements(h, x);
      var i := LastSeenExists(h, x);
      RecencyPosition(h, x, i);
    }
  }

  // ---------- The cache holds the window ----------

  function First(s: seq<Source>, w: nat): seq<Source>
  {
    if |s| <= w then s else s[..w]
  }

  lemma {:induction false} HitStep(r: seq<Source>, w: nat, k: nat)
    requires NoRepeats(r) && k < |First(r, w)|
    ensures var c := First(r, w);
            First([c[k]] + Without(r, c[k]), w) == [c[k]] + c[..k] + c[k + 1..]
  {
    WithoutAt(r, k);
  }

  lemma {:induction false} MissStep(r: seq<Source>, w: nat, x: Source)
    requires NoRepeats(r) && w > 0 && x !in First(r, w)
    ensures var c := First(r, w);
            First([x] + Without(r, x), w) == [x] + (if |c| == w then c[..w - 1] else c)
  {
    if x in r {
      var k :| 0 <= k < |r| && r[k] == x;
      InFirst(r, w, x);
      WithoutAt(r, k);
    } else {
      WithoutAbsent(r, x);
    }
  }

  /** The cache holds the most recent sources of the history, each with the value 1. */
  ghost predicate HoldsWindow(ch: CacheHash<Source>, h: seq<Source>)
    reads ch, ch.nodes
  {
    && ch.Valid() && ch.maxsize >= 2
    && KeysOf(ch.Contents()) == First(Recency(h), ch.maxsize)
    && AllOnes(ch.Contents())
  }

  lemma {:induction false} InFirst(r: seq<Source>, w: nat, x: Source)
    ensures x in First(r, w) <==> exists k :: 0 <= k < |r| && k < w && r[k] == x
  {
    if x in First(r, w) {
      var k :| 0 <= k < |First(r, w)| && First(r, w)[k] == x;
      assert r[k] == x;
    }
    if k :| 0 <= k < |r| && k < w && r[k] == x {
      assert First(r, w)[k] == x;
    }
  }

  lemma {:induction false} RecencySnoc(h: seq<Source>, x: Source)
    ensures Recency(h + [x]) == [x] + Without(Recency(h), x)
  {
    assert (h + [x])[..|h|] == h;
  }

  ghost predicate AllOnes(es: seq<Entry<Source>>)
  {
    forall i :: 0 <= i < |es| ==> es[i].data == 1
  }

  /** A hit moves the entry to the front, which is what the recency list does. */
  lemma {:induction false} AfterHit(es: seq<Entry<Source>>, r: seq<Source>, w: nat, k: nat)
    requires KeysOf(es) == First(r, w) && NoRepeats(r) && AllOnes(es) && k < |es|
    ensures KeysOf(Move(es, k)) == First([es[k].key] + Without(r, es[k].key), w) && AllOnes(Move(es, k))
  {
    HitStep(r, w, k);
    var ks := KeysOf(es);
    assert KeysOf(Move(es, k)) == [ks[k]] + ks[..k] + ks[k + 1..];
  }

  /** A miss puts the new key in front and drops the oldest entry of a full cache. */
  lemma {:induction false} AfterMiss(es: seq<Entry<Source>>, r: seq<Source>, w: nat, x: Source)
    requires KeysOf(es) == First(r, w) && NoRepeats(r) && AllOnes(es) && w > 0 && x !in KeysOf(es)
    ensures var kept := if |es| == w then es[..w - 1] else es;
            && x !in KeysOf(kept) && AllOnes([Entry(x, 1)] + kept)
            && KeysOf([Entry(x, 1)] + kept) == First([x] + Without(r, x), w)
  {
    MissStep(r, w, x);
    var kept := if |es| == w then es[..w - 1] else es;
    var ks := KeysOf(es);
    assert KeysOf(kept) == if |es| == w then ks[..w - 1] else ks;
    assert KeysOf([Entry(x, 1)] + kept) == [x] + KeysOf(kept);
  }

  lemma {:induction false} WindowFacts(ch: CacheHash<Source>, h: seq<Source>)
    requires ch.Valid() && ch.maxsize >= 2
    ensures HoldsWindow(ch, h) <==>
            KeysOf(ch.Contents()) == First(Recency(h), ch.maxsize) && AllOnes(ch.Contents())
    ensures ch.Kept() == if |ch.Contents()| == ch.maxsize then ch.Contents()[..ch.maxsize - 1] else ch.Contents()
  {
    hide KeysOf, First, Recency, AllOnes, Linked, Filled;
  }

  lemma {:induction false} WindowValid(ch: CacheHash<Source>, h: seq<Source>)
    requires HoldsWindow(ch, h)
    ensures ch.Valid() && ch.maxsize >= 2
  {
  }

  lemma {:induction false} OnesAt(es: seq<Entry<Source>>, k: nat)
    requires AllOnes(es) && k < |es|
    ensures es[k].data == 1
  {
  }

  /** The window branch of handle_packet. */
  method Receive(ch: CacheHash<Source>, x: Source, ghost h: seq<Source>) returns (isRepeat: bool)
    requires HoldsWindow(ch, h)
    modifies ch, ch.nodes
    ensures HoldsWindow(ch, h + [x])
    ensures isRepeat <==> SeenAmongLast(h, x, ch.maxsize)
  {
    hide *;
    WindowValid(ch, h);
    WindowFacts(ch, h);
    ghost var r, w, es := Recency(h), ch.maxsize, ch.Contents();
    WindowMeaning(h, x, w);
    InFirst(r, w, x);
    RecencySnoc(h, x);
    RecencyNoRepeats(h);
    var data, k := ch.Get(x);
    if data.Some? {
      OnesAt(es, k);
      AfterHit(es, r, w, k);
    } else {
      AfterMiss(es, r, w, x);
    }
    WindowFacts(ch, h + [x]);
    if data.Some? && data.value != 0 {
      isRepeat := true;
    } else {
      isRepeat := false;
      var _ := ch.Put(x, 1);
      WindowFacts(ch, h + [x]);
    }
  }

  lemma {:induction false} EmptyWindow(ch: CacheHash<Source>)
    requires ch.Valid() && ch.maxsize >= 2 && ch.Contents() == []
    ensures HoldsWindow(ch, [])
  {
  }

  /** Over every run: each packet is marked repeat iff its source is among the w most recent ones. */
  method ReceiveAll(packets: seq<Source>, w: nat) returns (repeats: seq<bool>)
    requires w >= 2
    ensures |repeats| == |packets|
    ensures forall i :: 0 <= i < |packets| ==> (repeats[i] <==> SeenAmongLast(packets[..i], packets[i], w))
  {
    hide *;
    var ch := new CacheHash<Source>(w);
    repeats := [];
    EmptyWindow(ch);
    assert packets[..0] == [];
    for i := 0 to |packets|
      invariant ch.maxsize == w && HoldsWindow(ch, packets[..i]) && fresh(ch) && fresh(ch.nodes)
      invariant |repeats| == i
      invariant forall j :: 0 <= j < i ==> (repeats[j] <==> SeenAmongLast(packets[..j], packets[j], w))
    {
      var isRepeat := Receive(ch, packets[i], packets[..i]);
      repeats := repeats + [isRepeat];
      assert packets[..i + 1] == packets[..i] + [packets[i]];
    }
  }
}
