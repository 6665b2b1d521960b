/** src/iterator.c, shard_complete: the threads of a scan report their counts as they finish, one at a time. */
module Completion {

  import opened Bits
  import opened FiniteSets

  /** What a finished thread adds to the totals. */
  datatype Counts = Counts(sent: nat, scanned: nat, failed: nat)

  datatype Report = Report(thread: nat, counts: Counts)

  function SentOf(c: Counts): nat { c.sent }

  function ScannedOf(c: Counts): nat { c.scanned }

  function FailedOf(c: Counts): nat { c.failed }

  /** One of the counts, added up over all reports. */
  function Sum(rs: seq<Report>, f: Counts -> nat): nat
  {
    if rs == [] then 0 else Sum(rs[..|rs| - 1], f) + f(rs[|rs| - 1].counts)
  }

  /** What thread t reported of it. */
  function Of(rs: seq<Report>, t: nat, f: Counts -> nat): nat
  {
    if rs == [] then 0
    else
      var r := rs[|rs| - 1];
      Of(rs[..|rs| - 1], t, f) + if r.thread == t then f(r.counts) else 0
  }

  predicate Reported(rs: seq<Report>, t: nat)
  {
    exists i :: 0 <= i < |rs| && rs[i].thread == t
  }

  /** The loop over the flags of the threads. */
  method AllSet(flags: array<bool>) returns (done: bool)
    ensures done <==> forall k :: 0 <= k < flags.Length ==> flags[k]
  {
    done := true;
    var i := 0;
    while done && i < flags.Length
      invariant 0 <= i <= flags.Length
      invariant done ==> forall k :: 0 <= k < i ==> flags[k]
      invariant !done ==> exists k :: 0 <= k < flags.Length && !flags[k]
    {
      done := done && flags[i];
      i := i + 1;
    }
  }

  /** The iterator's part of the state, and the totals of the scan. */
  class Iterator {
    const numThreads: nat
    const complete: array<bool>
    var currThreads: nat
    var totals: Counts
    var finished: bool
    ghost var reports: seq<Report>

    ghost predicate Valid()
      reads this, complete
    {
      && complete.Length == numThreads
      && currThreads == (numThreads - |reports|) % TWO_32
      && totals.sent == Sum(reports, SentOf) && totals.scanned == Sum(reports, ScannedOf)
      && totals.failed == Sum(reports, FailedOf) % TWO_32
      && (forall i :: 0 <= i < |reports| ==> reports[i].thread < numThreads)
      && (forall t :: 0 <= t < numThreads ==> (complete[t] <==> Reported(reports, t)))
      && (finished <==> reports != [] && forall t :: 0 <= t < numThreads ==> Reported(reports, t))
    }

    constructor (n: nat)
      requires n < 256
      ensures Valid() && numThreads == n && reports == [] && fresh(complete)
    {
      numThreads := n;
      complete := new bool[n](_ => false);
      currThreads, totals, finished, reports := n, Counts(0, 0, 0), false, [];
    }

    /** One thread's report, under the lock. */
    method ShardComplete(t: nat, counts: Counts)
      requires Valid() && t < numThreads
      modifies this, complete
      ensures Valid() && reports == old(reports) + [Report(t, counts)]
    {
      hide Sum;
      WrapDown(numThreads - |reports|);
      SumNext(reports, Report(t, counts), SentOf);
      SumNext(reports, Report(t, counts), ScannedOf);
      SumNext(reports, Report(t, counts), FailedOf);
      ReportedNext(reports, Report(t, counts));
      complete[t] := true;
      currThreads := (currThreads + TWO_32 - 1) % TWO_32;
      totals := Counts(totals.sent + counts.sent, totals.scanned + counts.scanned,
                       (totals.failed + counts.failed) % TWO_32);
      reports := reports + [Report(t, counts)];
      var done := AllSet(complete);
      if done { finished := true; }
      assert forall t :: 0 <= t < numThreads ==> (complete[t] <==> Reported(reports, t));
      assert finished <==> reports != [] && forall t :: 0 <= t < numThreads ==> Reported(reports, t);
    }
  }

  lemma {:induction false} WrapDown(x: int)
    ensures (x % TWO_32 + TWO_32 - 1) % TWO_32 == (x - 1) % TWO_32
  {
  }

  lemma {:induction false} SumNext(rs: seq<Report>, r: Report, f: Counts -> nat)
    ensures Sum(rs + [r], f) == Sum(rs, f) + f(r.counts)
  {
    assert (rs + [r])[..|rs|] == rs;
  }

  lemma {:induction false} ReportedNext(rs: seq<Report>, r: Report)
    ensures forall t :: Reported(rs + [r], t) <==> Reported(rs, t) || t == r.thread
  {
    forall t ensures Reported(rs + [r], t) <==> Reported(rs, t) || t == r.thread {
      assert (rs + [r])[|rs|] == r;
      if Reported(rs, t) {
        var i :| 0 <= i < |rs| && rs[i].thread == t;
        assert (rs + [r])[i].thread == t;
      }
    }
  }

  /** The threads' shares from the k-th on. */
  function Shares(rs: seq<Report>, n: nat, k: nat, f: Counts -> nat): nat
    requires k <= n
    decreases n - k
  {
    if k == n then 0 else Of(rs, k, f) + Shares(rs, n, k + 1, f)
  }

  lemma {:induction false} SharesNext(rs: seq<Report>, n: nat, k: nat, f: Counts -> nat)
    requires k <= n && rs != []
    ensures var r := rs[|rs| - 1];
            Shares(rs, n, k, f) == Shares(rs[..|rs| - 1], n, k, f) + if k <= r.thread < n then f(r.counts) else 0
    decreases n - k
  {
    if k < n { SharesNext(rs, n, k + 1, f); }
  }

  lemma {:induction false} SharesNone(n: nat, k: nat, f: Counts -> nat)
    requires k <= n
    ensures Shares([], n, k, f) == 0
    decreases n - k
  {
    if k < n { SharesNone(n, k + 1, f); }
  }

  /** Whatever the order of the reports, each total is the sum over the threads of what each reported. */
  lemma {:induction false} TotalIsShares(rs: seq<Report>, n: nat, f: Counts -> nat)
    requires forall i :: 0 <= i < |rs| ==> rs[i].thread < n
    ensures Sum(rs, f) == Shares(rs, n, 0, f)
  {
    if rs == [] {
      SharesNone(n, 0, f);
    } else {
      TotalIsShares(rs[..|rs| - 1], n, f);
      SharesNext(rs, n, 0, f);
    }
  }

  predicate OnceEach(rs: seq<Report>)
  {
    forall i, j :: 0 <= i < j < |rs| ==> rs[i].thread != rs[j].thread
  }

  lemma {:induction false} ThreadSet(rs: seq<Report>) returns (ts: set<nat>)
    requires OnceEach(rs)
    ensures |ts| == |rs| && forall t: nat :: t in ts <==> Reported(rs, t)
  {
    if rs == [] {
      ts := {};
    } else {
      var before, r := rs[..|rs| - 1], rs[|rs| - 1];
      var us := ThreadSet(before);
      assert rs == before + [r];
      ReportedNext(before, r);
      forall i | 0 <= i < |before| ensures before[i].thread != r.thread {
        assert rs[i].thread != rs[|rs| - 1].thread;
      }
      ts := us + {r.thread};
    }
  }

  /** If no thread reports twice, the scan is complete exactly when as many reports as threads have come in. */
  lemma {:induction false} CompleteIffAllReported(rs: seq<Report>, n: nat)
    requires OnceEach(rs) && forall i :: 0 <= i < |rs| ==> rs[i].thread < n
    ensures |rs| <= n && ((forall t :: 0 <= t < n ==> Reported(rs, t)) <==> |rs| == n)
  {
    hide Reported;
    var ts := ThreadSet(rs);
    var all := Range(0, n);
    RangeSize(0, n);
    forall t | t in ts ensures t in all { WithinThreads(rs, n, t); }
    SubsetSize(ts, all);
    if forall t :: 0 <= t < n ==> Reported(rs, t) {
      assert ts == all;
    }
    if |rs| == n {
      assert ts == all;
    }
  }

  lemma {:induction false} WithinThreads(rs: seq<Report>, n: nat, t: nat)
    requires Reported(rs, t) && forall i :: 0 <= i < |rs| ==> rs[i].thread < n
    ensures t < n
  {
  }
}
