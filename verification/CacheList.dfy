/** The doubly linked list of lib/cachehash.c, threaded through a fixed pool of nodes. */
module CacheList {

  import opened Options

  /** A pool index, or NULL. */
  const NULL: int := -1

  datatype Cell<K> = Cell(next: int, prev: int, key: Option<K>, data: nat)

  /** Element k comes to the front. */
  function Move<T>(s: seq<T>, k: nat): seq<T>
    requires k < |s|
  {
    [s[k]] + s[..k] + s[k + 1..]
  }

  /** The pool, followed from start to end, lists the nodes in `order`; every node is listed once. */
  ghost predicate Linked<K>(ns: seq<Cell<K>>, order: seq<nat>, start: int, end: int)
  {
    && |order| == |ns| > 0
    && (forall i :: 0 <= i < |order| ==> order[i] < |ns|)
    && (forall i, j :: 0 <= i < j < |order| ==> order[i] != order[j])
    && start == order[0] && end == order[|order| - 1]
    && (forall i :: 0 <= i < |order| ==> ns[order[i]].next == Succ(order, i))
    && (forall i :: 0 <= i < |order| ==> ns[order[i]].prev == Pred(order, i))
  }

  function Succ(order: seq<nat>, i: nat): int
    requires i < |order|
  {
    if i + 1 < |order| then order[i + 1] else NULL
  }

  function Pred(order: seq<nat>, i: nat): int
    requires i < |order|
  {
    if i > 0 then order[i - 1] else NULL
  }

  /** The pointer updates of `use` for a node n that is not first: unlink it, put it in front. */
  function UseCells<K>(ns: seq<Cell<K>>, n: nat, start: nat): (r: seq<Cell<K>>)
    requires n < |ns| && start < |ns| && 0 <= ns[n].prev < |ns| && ns[n].next < |ns|
    ensures |r| == |ns|
  {
    var p, x := ns[n].prev, ns[n].next;
    var ns1 := ns[p := ns[p].(next := x)];
    var ns2 := if x >= 0 then ns1[x := ns1[x].(prev := p)] else ns1;
    var ns3 := ns2[n := ns2[n].(next := start)];
    var ns4 := ns3[start := ns3[start].(prev := n)];
    ns4[n := ns4[n].(prev := NULL)]
  }

  lemma {:induction false} UseKeepsContents<K>(ns: seq<Cell<K>>, n: nat, start: nat, i: nat)
    requires n < |ns| && start < |ns| && 0 <= ns[n].prev < |ns| && ns[n].next < |ns| && i < |ns|
    ensures UseCells(ns, n, start)[i].key == ns[i].key && UseCells(ns, n, start)[i].data == ns[i].data
  {
  }

  /** Only the pointers around the moved node and the old front change. */
  lemma {:induction false} UsePointers<K>(ns: seq<Cell<K>>, n: nat, start: nat, i: nat)
    requires n < |ns| && start < |ns| && 0 <= ns[n].prev < |ns| && ns[n].next < |ns| && i < |ns|
    requires n != start && ns[n].prev != n && ns[n].next != n && ns[n].next != start
    ensures var p, x, r := ns[n].prev, ns[n].next, UseCells(ns, n, start);
            && r[i].next == (if i == n then start else if i == p then x else ns[i].next)
            && r[i].prev == (if i == n then NULL else if i == start then n else if i == x then p else ns[i].prev)
  {
  }

  /** Where the nodes of `order` end up when position k moves to the front. */
  lemma {:induction false} MoveAt<T>(s: seq<T>, k: nat, i: nat)
    requires k < |s| && i < |s|
    ensures |Move(s, k)| == |s|
    ensures Move(s, k)[i] == if i == 0 then s[k] else if i <= k then s[i - 1] else s[i]
  {
  }

  lemma {:induction false} MoveEnds<T>(s: seq<T>)
    requires s != []
    ensures Move(s, 0) == s && Move(s, |s| - 1) == [s[|s| - 1]] + s[..|s| - 1]
  {
    assert [s[0]] + s[..0] + s[1..] == s;
  }

  /** The facts `use` relies on: the neighbours of position k. */
  lemma {:induction false} Neighbours<K>(ns: seq<Cell<K>>, order: seq<nat>, start: int, end: int, k: nat)
    requires Linked(ns, order, start, end) && 0 < k < |order|
    ensures var n := order[k];
            && ns[n].prev == order[k - 1] && ns[n].next == Succ(order, k) && start == order[0]
            && n < |ns| && 0 <= ns[n].prev < |ns| && ns[n].next < |ns| && 0 <= start < |ns|
            && (ns[n].next == NULL <==> ns[n].next < 0)
            && n != start && ns[n].prev != n && ns[n].next != n && ns[n].next != start
  {
  }

  lemma {:induction false} LinkedAt<K>(ns: seq<Cell<K>>, order: seq<nat>, start: int, end: int, i: nat, j: nat)
    requires Linked(ns, order, start, end) && i < |order| && j < |order|
    ensures order[i] < |ns| && ns[order[i]].next == Succ(order, i) && ns[order[i]].prev == Pred(order, i)
    ensures order[i] == order[j] <==> i == j
  {
  }

  lemma {:induction false} UseNext<K>(ns: seq<Cell<K>>, order: seq<nat>, start: int, end: int, k: nat, i: nat)
    requires Linked(ns, order, start, end) && 0 < k < |order| && i < |order|
    requires 0 <= ns[order[k]].prev < |ns| && ns[order[k]].next < |ns| && 0 <= start < |ns|
    ensures |Move<nat>(order, k)| == |order| && Move<nat>(order, k)[i] < |ns|
    ensures UseCells(ns, order[k], start)[Move<nat>(order, k)[i]].next == Succ(Move<nat>(order, k), i)
  {
    hide UseCells, Move, Linked;
    Neighbours(ns, order, start, end, k);
    LinkedAt(ns, order, start, end, k, k);
    MoveAt<nat>(order, k, i);
    if i + 1 < |order| { MoveAt<nat>(order, k, i + 1); }
    if i > 0 {
      var j := if i <= k then i - 1 else i;
      LinkedAt(ns, order, start, end, j, k);
      LinkedAt(ns, order, start, end, j, k - 1);
    }
    UsePointers(ns, order[k], start, Move<nat>(order, k)[i]);
  }

  lemma {:induction false} UsePrev<K>(ns: seq<Cell<K>>, order: seq<nat>, start: int, end: int, k: nat, i: nat)
    requires Linked(ns, order, start, end) && 0 < k < |order| && i < |order|
    requires 0 <= ns[order[k]].prev < |ns| && ns[order[k]].next < |ns| && 0 <= start < |ns|
    ensures |Move<nat>(order, k)| == |order| && Move<nat>(order, k)[i] < |ns|
    ensures UseCells(ns, order[k], start)[Move<nat>(order, k)[i]].prev == Pred(Move<nat>(order, k), i)
  {
    hide UseCells, Move, Linked;
    Neighbours(ns, order, start, end, k);
    LinkedAt(ns, order, start, end, k, k);
    MoveAt<nat>(order, k, i);
    if i > 0 {
      MoveAt<nat>(order, k, i - 1);
      var j := if i <= k then i - 1 else i;
      LinkedAt(ns, order, start, end, j, k);
      LinkedAt(ns, order, start, end, j, 0);
      if k + 1 < |order| { LinkedAt(ns, order, start, end, j, k + 1); }
    }
    UsePointers(ns, order[k], start, Move<nat>(order, k)[i]);
  }

  lemma {:induction false} MoveDistinct(order: seq<nat>, k: nat)
    requires k < |order| && forall i, j :: 0 <= i < j < |order| ==> order[i] != order[j]
    ensures |Move<nat>(order, k)| == |order|
    ensures forall i, j :: 0 <= i < j < |order| ==> Move<nat>(order, k)[i] != Move<nat>(order, k)[j]
  {
  }

  /** `use` moves one node to the front and keeps the order of the others. */
  lemma {:induction false} UseMoves<K>(ns: seq<Cell<K>>, order: seq<nat>, start: int, end: int, k: nat)
    requires Linked(ns, order, start, end) && 0 < k < |order|
    ensures var n := order[k];
            0 <= ns[n].prev < |ns| && ns[n].next < |ns| &&
            Linked(UseCells(ns, n, start), Move<nat>(order, k), n, if ns[n].next == NULL then ns[n].prev else end)
  {
    hide *;
    var n, order' := order[k], Move<nat>(order, k);
    Neighbours(ns, order, start, end, k);
    MovedOrder(ns, order, start, end, k);
    forall i: nat | i < |order'|
      ensures UseCells(ns, n, start)[order'[i]].next == Succ(order', i)
      ensures UseCells(ns, n, start)[order'[i]].prev == Pred(order', i)
    {
      UseNext(ns, order, start, end, k, i);
      UsePrev(ns, order, start, end, k, i);
    }
    LinkedIntro(UseCells(ns, n, start), order', n, if ns[n].next == NULL then ns[n].prev else end);
  }

  lemma {:induction false} MovedOrder<K>(ns: seq<Cell<K>>, order: seq<nat>, start: int, end: int, k: nat)
    requires Linked(ns, order, start, end) && 0 < k < |order|
    ensures var order' := Move<nat>(order, k);
            && |order'| == |order| == |ns| > 0 && order[k] < |ns| && order'[0] == order[k]
            && order'[|order'| - 1] == (if ns[order[k]].next == NULL then ns[order[k]].prev else end)
            && (forall i :: 0 <= i < |order'| ==> order'[i] < |ns|)
            && (forall i, j :: 0 <= i < j < |order'| ==> order'[i] != order'[j])
  {
    hide Linked, Move;
    OrderDistinct(ns, order, start, end);
    MoveDistinct(order, k);
    Neighbours(ns, order, start, end, k);
    forall i: nat | i < |order| ensures Move<nat>(order, k)[i] < |ns| {
      MoveAt<nat>(order, k, i);
      LinkedAt(ns, order, start, end, if i == 0 then k else if i <= k then i - 1 else i, k);
    }
    MoveAt<nat>(order, k, 0);
    MoveAt<nat>(order, k, |order| - 1);
    LinkedAt(ns, order, start, end, k, k);
  }

  lemma {:induction false} OrderDistinct<K>(ns: seq<Cell<K>>, order: seq<nat>, start: int, end: int)
    requires Linked(ns, order, start, end)
    ensures |order| == |ns| > 0 && end == order[|order| - 1]
    ensures forall i, j :: 0 <= i < j < |order| ==> order[i] != order[j]
  {
  }

  lemma {:induction false} LinkedIntro<K>(ns: seq<Cell<K>>, order: seq<nat>, start: int, end: int)
    requires |order| == |ns| > 0
    requires forall i :: 0 <= i < |order| ==> order[i] < |ns|
    requires forall i, j :: 0 <= i < j < |order| ==> order[i] != order[j]
    requires start == order[0] && end == order[|order| - 1]
    requires forall i :: 0 <= i < |order| ==> ns[order[i]].next == Succ(order, i)
    requires forall i :: 0 <= i < |order| ==> ns[order[i]].prev == Pred(order, i)
    ensures Linked(ns, order, start, end)
  {
  }
}
