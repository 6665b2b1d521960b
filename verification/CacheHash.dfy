/** lib/cachehash.c: a bounded map with least-recently-used eviction. */
module CacheHash {
  import opened CacheList
  import opened Options

  datatype Entry<K> = Entry(key: K, data: nat)

  /** The first n nodes of the order are occupied, the others empty, and the index finds exactly them. */
  ghost predicate Filled<K>(ns: seq<Cell<K>>, order: seq<nat>, n: nat, index: map<K, nat>)
  {
    && n <= |order|
    && (forall i :: 0 <= i < |order| ==> order[i] < |ns|)
    && (forall i :: 0 <= i < |order| ==> (ns[order[i]].key.Some? <==> i < n))
    && (forall i :: 0 <= i < n ==> ns[order[i]].key.value in index && index[ns[order[i]].key.value] == order[i])
    && (forall k :: k in index ==> exists i :: 0 <= i < n && order[i] == index[k] && ns[order[i]].key == Some(k))
  }

  /** The occupied nodes from most to least recently used. */
  ghost function Entries<K>(ns: seq<Cell<K>>, order: seq<nat>, n: nat, index: map<K, nat>): (es: seq<Entry<K>>)
    requires Filled(ns, order, n, index)
    ensures |es| == n
    ensures forall i :: 0 <= i < n ==> es[i] == Entry(ns[order[i]].key.value, ns[order[i]].data)
  {
    seq(n, i requires 0 <= i < n && Filled(ns, order, n, index) => Entry(ns[order[i]].key.value, ns[order[i]].data))
  }

  function KeysOf<K>(es: seq<Entry<K>>): (ks: seq<K>)
    ensures |ks| == |es| && forall i :: 0 <= i < |es| ==> ks[i] == es[i].key
  {
    seq(|es|, i requires 0 <= i < |es| => es[i].key)
  }

  class CacheHash<K(==)> {
    const nodes: array<Cell<K>>
    const maxsize: nat
    var start: nat
    var end: nat
    var currEnd: nat
    var currsize: nat
    var index: map<K, nat>
    ghost var order: seq<nat>

    ghost predicate Valid()
      reads this, nodes
    {
      && nodes.Length == maxsize && currsize <= maxsize
      && Linked(nodes[..], order, start, end) && Filled(nodes[..], order, currsize, index)
      && (currsize < maxsize ==> currEnd == order[currsize])
    }

    ghost function Contents(): seq<Entry<K>>
      requires Valid()
      reads this, nodes
    {
      Entries(nodes[..], order, currsize, index)
    }

    /** The pointer updates of use for a node that is not first. */
    method Relink(n: nat)
      requires n < nodes.Length && start < nodes.Length
      requires 0 <= nodes[n].prev < nodes.Length && nodes[n].next < nodes.Length
      modifies nodes, this`start, this`end
      ensures nodes[..] == UseCells(old(nodes[..]), n, old(start)) && start == n
      ensures end == if old(nodes[n].next) < 0 then old(nodes[n].prev) else old(end)
    {
      ghost var ns := nodes[..];
      var p, x := nodes[n].prev, nodes[n].next;
      nodes[p] := nodes[p].(next := x);
      ghost var ns1 := ns[p := ns[p].(next := x)];
      assert nodes[..] == ns1;
      if x >= 0 {
        nodes[x] := nodes[x].(prev := p);
      } else {
        end := p;
      }
      ghost var ns2 := if x >= 0 then ns1[x := ns1[x].(prev := p)] else ns1;
      assert nodes[..] == ns2;
      nodes[n] := nodes[n].(next := start);
      ghost var ns3 := ns2[n := ns2[n].(next := start)];
      assert nodes[..] == ns3;
      nodes[start] := nodes[start].(prev := n);
      ghost var ns4 := ns3[start := ns3[start].(prev := n)];
      assert nodes[..] == ns4;
      nodes[n] := nodes[n].(prev := NULL);
      start := n;
    }

    /** use: unlink a node and put it in front; k is its place in the order. */
    method Use(n: nat, ghost k: nat)
      requires Linked(nodes[..], order, start, end) && k < |order| && order[k] == n
      modifies nodes, this`start, this`end, this`order
      ensures Linked(nodes[..], order, start, end) && order == Move<nat>(old(order), k)
      ensures forall i :: 0 <= i < nodes.Length ==> SameContents(nodes[i], old(nodes[i]))
    {
      hide *;
      ghost var ns := nodes[..];
      if n == start {
        FirstStays(ns, order, start, end, k);
        SameCells(ns);
        return;
      }
      NotFirst(ns, order, start, end, k);
      Neighbours(ns, order, start, end, k);
      UseMoves(ns, order, start, end, k);
      UseKeepsAll(ns, n, start);
      Relink(n);
      order := Move<nat>(order, k);
    }

    /** What eviction leaves: everything, or all but the least recently used entry when full. */
    ghost function Kept(): seq<Entry<K>>
      requires Valid()
      reads this, nodes
    {
      if currsize == maxsize then Contents()[..currsize - 1] else Contents()
    }

    /** cachehash_init */
    constructor (maxitems: nat)
      requires maxitems >= 2
      ensures Valid() && maxsize == maxitems && Contents() == []
      ensures fresh(nodes)
    {
      nodes := new Cell<K>[maxitems](_ => Cell(NULL, NULL, None, 0));
      maxsize, start, currEnd, end, currsize := maxitems, 0, 0, maxitems - 1, 0;
      index, order := map[], [];
      new;
      hide Linked, Filled, Identity;
      nodes[0] := nodes[0].(next := 1);
      var i := 1;
      while i < maxitems - 1
        modifies nodes
        invariant 1 <= i <= maxitems - 1
        invariant nodes[0] == Cell(1, NULL, None, 0)
        invariant forall j :: 1 <= j < i ==> nodes[j] == Cell(j + 1, j - 1, None, 0)
        invariant forall j :: i <= j < maxitems ==> nodes[j] == Cell(NULL, NULL, None, 0)
      {
        nodes[i] := nodes[i].(prev := i - 1);
        nodes[i] := nodes[i].(next := i + 1);
        i := i + 1;
      }
      nodes[maxitems - 1] := nodes[maxitems - 1].(prev := maxitems - 2);
      order := Identity(maxitems);
      InitialList(nodes[..]);
    }

    /** cachehash_has */
    method Has(key: K) returns (data: Option<nat>)
      requires Valid()
      ensures data.None? <==> key !in KeysOf(Contents())
      ensures data.Some? ==> Entry(key, data.value) in Contents()
    {
      IndexIsKeys(nodes[..], order, currsize, index, key);
      if key in index {
        ghost var k := FindKey(nodes[..], order, currsize, index, key);
        assert Contents()[k] == Entry(key, nodes[index[key]].data);
        data := Some(nodes[index[key]].data);
      } else {
        data := None;
      }
    }

    /** cachehash_get: a hit also becomes the most recently used entry. */
    method Get(key: K) returns (data: Option<nat>, ghost k: nat)
      requires Valid()
      modifies this, nodes
      ensures Valid() && (data.None? <==> key !in KeysOf(old(Contents())))
      ensures data.None? ==> Contents() == old(Contents())
      ensures data.Some? ==> k < |old(Contents())| && old(Contents())[k] == Entry(key, data.value)
      ensures data.Some? ==> Contents() == Move(old(Contents()), k)
    {
      hide Linked, Filled, Move, Entries, KeysOf, SameContents;
      ghost var ns := nodes[..];
      IndexIsKeys(ns, order, currsize, index, key);
      if key !in index {
        return None, 0;
      }
      k := FindKey(ns, order, currsize, index, key);
      var n := index[key];
      ghost var order0 := order;
      KeyFound(ns, order0, start, end, currsize, index, key, k);
      data := Some(nodes[n].data);
      Use(n, k);
      FilledMove(ns, nodes[..], order0, currsize, index, k);
      MoveAt<nat>(order0, k, if currsize < maxsize then currsize else 0);
    }

    /** cachehash_iter: the data handed to the callback, from the most recently used entry on. */
    method Iter() returns (visited: seq<nat>)
      requires Valid()
      ensures |visited| == |Contents()|
      ensures forall i :: 0 <= i < |visited| ==> visited[i] == Contents()[i].data
    {
      hide Linked, Filled;
      LinkedEnds(nodes[..], order, start, end);
      visited := [];
      var n: int := start;
      while true
        invariant |visited| <= currsize && |visited| < |order| == nodes.Length && n == order[|visited|]
        invariant forall i :: 0 <= i < |visited| ==> visited[i] == Contents()[i].data
        decreases |order| - |visited|
      {
        LinkedAt(nodes[..], order, start, end, |visited|, 0);
        FilledAt(nodes[..], order, currsize, index, |visited|);
        if nodes[n].key.None? {
          break;
        }
        assert nodes[n] == nodes[..][order[|visited|]];
        visited, n := visited + [nodes[n].data], nodes[n].next;
        if n < 0 {
          break;
        }
      }
    }

    /** evict: forget the least recently used entry. */
    method Evict() returns (data: nat)
      requires Valid() && currsize == maxsize > 0
      modifies this, nodes
      ensures Valid() && currsize == maxsize - 1
      ensures Contents() == old(Contents())[..maxsize - 1] && data == old(Contents())[maxsize - 1].data
    {
      hide Linked, Filled, Entries;
      ghost var ns := nodes[..];
      OrderDistinct(ns, order, start, end);
      FilledDropLast(ns, order, maxsize - 1, index);
      var last := end;
      index := index - {nodes[last].key.value};
      data := nodes[last].data;
      nodes[last] := nodes[last].(data := 0);
      nodes[last] := nodes[last].(key := None);
      assert nodes[..] == Clear(ns, last);
      LinkedSamePointers(ns, nodes[..], order, start, end);
      currsize := currsize - 1;
      currEnd := end;
    }

    /** cachehash_evict_if_full */
    method EvictIfFull() returns (data: Option<nat>)
      requires Valid() && maxsize > 0
      modifies this, nodes
      ensures Valid() && currsize < maxsize && Contents() == old(Kept())
      ensures data == if old(currsize) == maxsize then Some(old(Contents())[maxsize - 1].data) else None
    {
      if currsize != maxsize {
        return None;
      }
      var d := Evict();
      data := Some(d);
    }

    /** cachehash_put: the key must not be among the entries that stay. */
    method Put(key: K, value: nat) returns (evicted: Option<nat>)
      requires Valid() && maxsize > 0 && key !in KeysOf(Kept())
      modifies this, nodes
      ensures Valid() && Contents() == [Entry(key, value)] + old(Kept())
      ensures evicted == if old(currsize) == maxsize then Some(old(Contents())[maxsize - 1].data) else None
    {
      evicted := EvictIfFull();
      Insert(key, value);
    }

    /** Writes the key and value into the first empty node and advances past it. */
    method Place(key: K, value: nat) returns (n: nat)
      requires Linked(nodes[..], order, start, end) && nodes.Length == maxsize
      requires currsize < maxsize && |order| == maxsize && currEnd == order[currsize] < maxsize
      modifies nodes, this`currEnd
      ensures n == order[currsize] && nodes[..] == Fill(old(nodes[..]), n, key, value)
      ensures currsize + 1 < maxsize ==> currEnd == order[currsize + 1]
    {
      hide Linked;
      ghost var ns := nodes[..];
      n := currEnd;
      nodes[n] := nodes[n].(key := Some(key));
      nodes[n] := nodes[n].(data := value);
      LinkedAt(ns, order, start, end, currsize, |order| - 1);
      OrderDistinct(ns, order, start, end);
      if currEnd != end {
        LinkedAt(ns, order, start, end, currsize + 1, currsize);
        currEnd := nodes[currEnd].next;
        nodes[currEnd] := nodes[currEnd].(prev := n);
      }
    }

    /** The part of cachehash_put after the eviction. */
    method Insert(key: K, value: nat)
      requires Valid() && currsize < maxsize && key !in KeysOf(Contents())
      modifies this, nodes
      ensures Valid() && Contents() == [Entry(key, value)] + old(Contents())
    {
      hide Linked, Filled, Move, Entries, KeysOf, SameContents, Fill;
      ghost var ns, order0, index0 := nodes[..], order, index;
      IndexIsKeys(ns, order, currsize, index, key);
      OrderDistinct(ns, order, start, end);
      FilledSnoc(ns, order, currsize, index, key, value);
      var n := Place(key, value);
      ghost var ns1 := nodes[..];
      FillKeepsLinks(ns, order, start, end, n, key, value);
      Use(n, currsize);
      FilledMove(ns1, nodes[..], order0, currsize + 1, index0[key := n], currsize);
      MoveEnds(Entries(ns1, order0, currsize + 1, index0[key := n]));
      if currsize + 1 < maxsize {
        MoveAt<nat>(order0, currsize, currsize + 1);
      }
      currsize := currsize + 1;
      index := index[key := n];
    }
  }

  lemma {:induction false} FillKeepsLinks<K>(ns: seq<Cell<K>>, order: seq<nat>, start: int, end: int, n: nat,
                                             key: K, value: nat)
    requires Linked(ns, order, start, end) && n < |ns|
    ensures Linked(Fill(ns, n, key, value), order, start, end)
  {
    LinkedSamePointers(ns, Fill(ns, n, key, value), order, start, end);
  }

  function Identity(n: nat): (s: seq<nat>)
    ensures |s| == n && forall i :: 0 <= i < n ==> s[i] == i
  {
    seq(n, i requires 0 <= i < n => i)
  }

  /** The freshly linked pool is empty and in index order. */
  lemma {:induction false} InitialList<K>(ns: seq<Cell<K>>)
    requires |ns| >= 2
    requires forall i :: 0 <= i < |ns| ==> ns[i] == Cell(if i + 1 < |ns| then i + 1 else NULL, i - 1, None, 0)
    ensures Linked(ns, Identity(|ns|), 0, |ns| - 1) && Filled(ns, Identity(|ns|), 0, map[])
    ensures |Identity(|ns|)| == |ns| && Identity(|ns|)[0] == 0
  {
  }

  lemma {:induction false} KeyFound<K>(ns: seq<Cell<K>>, order: seq<nat>, start: int, end: int, n: nat,
                                       index: map<K, nat>, key: K, k: nat)
    requires Linked(ns, order, start, end) && Filled(ns, order, n, index) && key in index
    requires k < n && order[k] == index[key] && Entries(ns, order, n, index)[k].key == key
    ensures index[key] < |ns| && Entries(ns, order, n, index)[k] == Entry(key, ns[index[key]].data)
    ensures |order| == |ns|
  {
  }

  predicate SameContents<K(==)>(c: Cell<K>, d: Cell<K>)
  {
    c.key == d.key && c.data == d.data
  }

  lemma {:induction false} SameCells<K>(ns: seq<Cell<K>>)
    ensures forall i :: 0 <= i < |ns| ==> SameContents(ns[i], ns[i])
  {
  }

  lemma {:induction false} UseKeepsAll<K>(ns: seq<Cell<K>>, n: nat, start: nat)
    requires n < |ns| && start < |ns| && 0 <= ns[n].prev < |ns| && ns[n].next < |ns|
    ensures forall i :: 0 <= i < |ns| ==> SameContents(UseCells(ns, n, start)[i], ns[i])
  {
    forall i: nat | i < |ns| ensures SameContents(UseCells(ns, n, start)[i], ns[i]) {
      UseKeepsContents(ns, n, start, i);
    }
  }

  lemma {:induction false} FirstStays<K>(ns: seq<Cell<K>>, order: seq<nat>, start: nat, end: int, k: nat)
    requires Linked(ns, order, start, end) && k < |order| && order[k] == start
    ensures Move<nat>(order, k) == order
  {
    LinkedAt(ns, order, start, end, k, 0);
    StartIs(ns, order, start, end);
    hide Linked, Move;
    MoveEnds<nat>(order);
  }

  lemma {:induction false} StartIs<K>(ns: seq<Cell<K>>, order: seq<nat>, start: int, end: int)
    requires Linked(ns, order, start, end)
    ensures order != [] && start == order[0]
  {
  }

  lemma {:induction false} NotFirst<K>(ns: seq<Cell<K>>, order: seq<nat>, start: nat, end: int, k: nat)
    requires Linked(ns, order, start, end) && k < |order| && order[k] != start
    ensures k > 0
  {
  }

  predicate SamePointers<K(==)>(c: Cell<K>, d: Cell<K>)
  {
    c.next == d.next && c.prev == d.prev
  }

  lemma {:induction false} LinkedSamePointers<K>(ns: seq<Cell<K>>, ns': seq<Cell<K>>, order: seq<nat>, start: int,
                                                 end: int)
    requires Linked(ns, order, start, end) && |ns'| == |ns|
    requires forall i :: 0 <= i < |ns| ==> SamePointers(ns'[i], ns[i])
    ensures Linked(ns', order, start, end)
  {
  }

  /** The index names the place of a present key. */
  lemma {:induction false} FindKey<K>(ns: seq<Cell<K>>, order: seq<nat>, n: nat, index: map<K, nat>,
                                      key: K) returns (k: nat)
    requires Filled(ns, order, n, index) && key in index
    ensures k < n && order[k] == index[key] && Entries(ns, order, n, index)[k].key == key
  {
    k :| k < n && order[k] == index[key] && ns[order[k]].key == Some(key);
  }

  /** A key is present exactly when the index has it. */
  lemma {:induction false} IndexIsKeys<K>(ns: seq<Cell<K>>, order: seq<nat>, n: nat, index: map<K, nat>, key: K)
    requires Filled(ns, order, n, index)
    ensures key in index <==> key in KeysOf(Entries(ns, order, n, index))
  {
    var ks := KeysOf(Entries(ns, order, n, index));
    if key in index {
      var k := FindKey(ns, order, n, index, key);
      assert ks[k] == key;
    }
    if key in ks {
      var i :| 0 <= i < |ks| && ks[i] == key;
    }
  }

  lemma {:induction false} LinkedEnds<K>(ns: seq<Cell<K>>, order: seq<nat>, start: int, end: int)
    requires Linked(ns, order, start, end)
    ensures |order| == |ns| > 0 && start == order[0] && end == order[|order| - 1]
  {
  }

  lemma {:induction false} FilledAt<K>(ns: seq<Cell<K>>, order: seq<nat>, n: nat, index: map<K, nat>, i: nat)
    requires Filled(ns, order, n, index) && i < |order|
    ensures order[i] < |ns| && (ns[order[i]].key.Some? <==> i < n)
    ensures i < n ==> ns[order[i]].key.value in index && index[ns[order[i]].key.value] == order[i]
  {
  }

  lemma {:induction false} FilledIntro<K>(ns: seq<Cell<K>>, order: seq<nat>, n: nat, index: map<K, nat>)
    requires n <= |order|
    requires forall i :: 0 <= i < |order| ==> order[i] < |ns|
    requires forall i :: 0 <= i < |order| ==> (ns[order[i]].key.Some? <==> i < n)
    requires forall i :: 0 <= i < n ==> ns[order[i]].key.value in index && index[ns[order[i]].key.value] == order[i]
    requires forall k :: k in index ==> exists i :: 0 <= i < n && order[i] == index[k] && ns[order[i]].key == Some(k)
    ensures Filled(ns, order, n, index)
  {
  }

  /** Where position i of a moved order comes from, and where position j goes. */
  function Source(k: nat, i: nat): nat { if i == 0 then k else if i <= k then i - 1 else i }

  function Target(k: nat, j: nat): nat { if j == k then 0 else if j < k then j + 1 else j }

  lemma {:induction false} MovedFrom(order: seq<nat>, k: nat, i: nat)
    requires k < |order| && i < |order|
    ensures |Move<nat>(order, k)| == |order| && Source(k, i) < |order| && Move<nat>(order, k)[i] == order[Source(k, i)]
    ensures Target(k, i) < |order| && Move<nat>(order, k)[Target(k, i)] == order[i]
  {
  }

  lemma {:induction false} FilledMove<K>(ns: seq<Cell<K>>, ns': seq<Cell<K>>, order: seq<nat>, n: nat,
                                         index: map<K, nat>, k: nat)
    requires Filled(ns, order, n, index) && k < n && |ns'| == |ns|
    requires forall i :: 0 <= i < |ns| ==> SameContents(ns'[i], ns[i])
    ensures Filled(ns', Move<nat>(order, k), n, index)
    ensures Entries(ns', Move<nat>(order, k), n, index) == Move(Entries(ns, order, n, index), k)
  {
    var order' := Move<nat>(order, k);
    assert n <= |order|;
    MovedFrom(order, k, k);
    assert Filled(ns', order', n, index) by {
      hide Filled, Move;
      forall i: nat | i < |order'|
        ensures order'[i] < |ns'| && (ns'[order'[i]].key.Some? <==> i < n)
        ensures i < n ==> ns'[order'[i]].key.value in index && index[ns'[order'[i]].key.value] == order'[i]
      {
        MovedFrom(order, k, i);
        FilledAt(ns, order, n, index, Source(k, i));
        assert SameContents(ns'[order'[i]], ns[order'[i]]);
      }
      forall key | key in index
        ensures exists i :: 0 <= i < n && order'[i] == index[key] && ns'[order'[i]].key == Some(key)
      {
        var j := FindKey(ns, order, n, index, key);
        FilledAt(ns, order, n, index, j);
        MovedFrom(order, k, j);
        assert SameContents(ns'[order[j]], ns[order[j]]);
        assert order'[Target(k, j)] == index[key];
      }
      FilledIntro(ns', order', n, index);
    }
    MovedEntries(ns, ns', order, n, index, k);
  }

  lemma {:induction false} MovedEntries<K>(ns: seq<Cell<K>>, ns': seq<Cell<K>>, order: seq<nat>, n: nat,
                                           index: map<K, nat>, k: nat)
    requires Filled(ns, order, n, index) && k < n && |ns'| == |ns|
    requires forall i :: 0 <= i < |ns| ==> SameContents(ns'[i], ns[i])
    requires n <= |order| && Filled(ns', Move<nat>(order, k), n, index)
    ensures Entries(ns', Move<nat>(order, k), n, index) == Move(Entries(ns, order, n, index), k)
  {
    hide Filled, Move, Entries;
    MovedFrom(order, k, k);
    var es, es' := Entries(ns, order, n, index), Entries(ns', Move<nat>(order, k), n, index);
    forall i: nat | i < n ensures es'[i] == es[Source(k, i)] {
      MovedFrom(order, k, i);
      FilledAt(ns, order, n, index, Source(k, i));
      assert SameContents(ns'[order[Source(k, i)]], ns[order[Source(k, i)]]);
    }
    MoveAt(es, k, k);
    forall i: nat | i < n ensures Move(es, k)[i] == es[Source(k, i)] {
      MoveAt(es, k, i);
    }
  }

  ghost predicate Distinct(order: seq<nat>)
  {
    forall i, j :: 0 <= i < j < |order| ==> order[i] != order[j]
  }

  lemma {:induction false} DistinctAt(order: seq<nat>, i: nat, j: nat)
    requires Distinct(order) && i < |order| && j < |order|
    ensures order[i] == order[j] <==> i == j
  {
  }

  /** The first empty node takes a new key. */
  function Fill<K>(ns: seq<Cell<K>>, n: nat, key: K, data: nat): seq<Cell<K>>
    requires n < |ns|
  {
    ns[n := ns[n].(key := Some(key), data := data)]
  }

  lemma {:induction false} FilledSnoc<K>(ns: seq<Cell<K>>, order: seq<nat>, n: nat, index: map<K, nat>, key: K,
                                         data: nat)
    requires Filled(ns, order, n, index) && Distinct(order) && n < |order| && key !in index
    ensures order[n] < |ns| && Filled(Fill(ns, order[n], key, data), order, n + 1, index[key := order[n]])
    ensures Entries(Fill(ns, order[n], key, data), order, n + 1, index[key := order[n]]) ==
            Entries(ns, order, n, index) + [Entry(key, data)]
  {
    hide Filled, Distinct, Entries;
    FilledAt(ns, order, n, index, n);
    var ns', index' := Fill(ns, order[n], key, data), index[key := order[n]];
    forall i: nat | i < |order|
      ensures order[i] < |ns'| && (ns'[order[i]].key.Some? <==> i < n + 1)
      ensures i < n + 1 ==> ns'[order[i]].key.value in index' && index'[ns'[order[i]].key.value] == order[i]
      ensures i < n ==> ns'[order[i]] == ns[order[i]]
    {
      FilledAt(ns, order, n, index, i);
      DistinctAt(order, i, n);
    }
    forall k | k in index'
      ensures exists i :: 0 <= i < n + 1 && order[i] == index'[k] && ns'[order[i]].key == Some(k)
    {
      if k == key {
        assert order[n] == index'[k];
      } else {
        var i := FindKey(ns, order, n, index, k);
        FilledAt(ns, order, n, index, i);
        DistinctAt(order, i, n);
        assert order[i] == index'[k];
      }
    }
    FilledIntro(ns', order, n + 1, index');
  }

  /** The last occupied node gives up its key. */
  function Clear<K>(ns: seq<Cell<K>>, n: nat): seq<Cell<K>>
    requires n < |ns|
  {
    ns[n := ns[n].(key := None, data := 0)]
  }

  lemma {:induction false} FilledDropLast<K>(ns: seq<Cell<K>>, order: seq<nat>, n: nat, index: map<K, nat>)
    requires Filled(ns, order, n + 1, index) && Distinct(order) && n < |order|
    ensures order[n] < |ns| && ns[order[n]].key.Some?
    ensures ns[order[n]].key.value in index
    ensures Filled(Clear(ns, order[n]), order, n, index - {ns[order[n]].key.value})
    ensures Entries(Clear(ns, order[n]), order, n, index - {ns[order[n]].key.value}) ==
            Entries(ns, order, n + 1, index)[..n]
  {
    hide Filled, Distinct, Entries;
    FilledAt(ns, order, n + 1, index, n);
    var key := ns[order[n]].key.value;
    var ns', index' := Clear(ns, order[n]), index - {key};
    forall i: nat | i < |order|
      ensures order[i] < |ns'| && (ns'[order[i]].key.Some? <==> i < n)
      ensures i < n ==> ns'[order[i]].key.value in index' && index'[ns'[order[i]].key.value] == order[i]
      ensures i < n ==> ns'[order[i]] == ns[order[i]]
    {
      FilledAt(ns, order, n + 1, index, i);
      DistinctAt(order, i, n);
    }
    forall k | k in index'
      ensures exists i :: 0 <= i < n && order[i] == index'[k] && ns'[order[i]].key == Some(k)
    {
      var i := FindKey(ns, order, n + 1, index, k);
      FilledAt(ns, order, n + 1, index, i);
      DistinctAt(order, i, n);
      assert order[i] == index'[k];
    }
    FilledIntro(ns', order, n, index');
  }
}
