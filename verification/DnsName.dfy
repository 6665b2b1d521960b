/** src/probe_modules/module_dns.c: domain names on the wire, as in section 3.1 and section 4.1.4 of
    RFC 1035, with the limits of this implementation. */
module DnsName {

  import opened CBytes

  const MAX_LABEL_RECURSION: nat := 10
  const MAX_NAME_LENGTH: nat := 512

  // ---------- Encoding ----------

  /** The length of the first label: up to the first dot, or everything. */
  function FirstLabel(d: seq<Byte>): (k: nat)
    ensures k <= |d| && (k < |d| ==> d[k] == DOT) && forall i :: 0 <= i < k ==> d[i] != DOT
  {
    if d == [] || d[0] == DOT then 0 else 1 + FirstLabel(d[1..])
  }

  /** The labels of d, each behind its length byte, without the final zero. */
  function EncodeOpen(d: seq<Byte>): (q: seq<Byte>)
    ensures |q| == |d| + 1
    decreases |d|
  {
    var k := FirstLabel(d);
    if k == |d| then [k % 256] + d else [k % 256] + d[..k] + EncodeOpen(d[k + 1..])
  }

  /** The wire form of d: its labels and the root label. */
  function Encode(d: seq<Byte>): (q: seq<Byte>)
    ensures |q| == |d| + 2
  {
    EncodeOpen(d) + [0]
  }

  /** The position of the next dot in the buffer, or of its last byte. */
  function NextDot(s: seq<Byte>, j: nat): (r: nat)
    requires 0 < |s| && j <= |s| - 1
    ensures j <= r <= |s| - 1
    decreases |s| - j
  {
    if j == |s| - 1 || s[j] == DOT then j else NextDot(s, j + 1)
  }

  /** The byte domain_to_qname leaves at position i of the buffer ".d\0". */
  function ByteAt(s: seq<Byte>, i: nat): Byte
    requires i < |s| - 1
  {
    if s[i] == DOT then (NextDot(s, i + 1) - i - 1) % 256 else s[i]
  }

  function Buffer(d: seq<Byte>): seq<Byte>
  {
    [DOT] + d + [0]
  }

  /** The buffer holds, from position i on, a dot, the text d and the final zero. */
  predicate Holds(s: seq<Byte>, d: seq<Byte>, i: nat)
  {
    && i + |d| + 2 == |s| && s[i] == DOT
    && forall t :: 0 <= t < |d| ==> s[i + 1 + t] == d[t]
  }

  lemma {:induction false} NextDotIsLabel(s: seq<Byte>, d: seq<Byte>, j: nat)
    requires 0 < |s| && j + |d| + 1 == |s|
    requires forall t :: 0 <= t < |d| ==> s[j + t] == d[t]
    ensures NextDot(s, j) == j + FirstLabel(d)
    decreases |d|
  {
    if d != [] {
      assert s[j + 0] == d[0];
      if d[0] != DOT {
        forall t | 0 <= t < |d[1..]| ensures s[j + 1 + t] == d[1..][t] {
          assert s[j + (1 + t)] == d[1 + t];
        }
        NextDotIsLabel(s, d[1..], j + 1);
      }
    }
  }

  lemma {:induction false} EncodeOpenAt(d: seq<Byte>, k: nat)
    requires k <= |d|
    ensures k == 0 ==> EncodeOpen(d)[k] == FirstLabel(d) % 256
    ensures 0 < k <= FirstLabel(d) ==> EncodeOpen(d)[k] == d[k - 1]
    ensures FirstLabel(d) < k ==> EncodeOpen(d)[k] == EncodeOpen(d[FirstLabel(d) + 1..])[k - FirstLabel(d) - 1]
  {
    hide FirstLabel;
    var n := FirstLabel(d);
    if n < |d| {
      assert EncodeOpen(d) == [n % 256] + d[..n] + EncodeOpen(d[n + 1..]);
    }
  }

  /** The labels split off one after another give the same bytes as the positions taken one by one. */
  lemma {:induction false} EncodeByPosition(s: seq<Byte>, d: seq<Byte>, i: nat, k: nat)
    requires Holds(s, d, i) && k <= |d|
    ensures EncodeOpen(d)[k] == ByteAt(s, i + k)
    decreases |d|
  {
    hide EncodeOpen;
    var n := FirstLabel(d);
    EncodeOpenAt(d, k);
    if k == 0 {
      NextDotIsLabel(s, d, i + 1);
    } else if k <= n {
      assert s[i + 1 + (k - 1)] == d[k - 1];
    } else {
      assert s[i + 1 + n] == d[n];
      var rest := d[n + 1..];
      forall t | 0 <= t < |rest| ensures s[i + n + 1 + 1 + t] == rest[t] {
        assert s[i + 1 + (n + 1 + t)] == d[n + 1 + t];
      }
      EncodeByPosition(s, rest, i + n + 1, k - n - 1);
    }
  }

  lemma {:induction false} EncodeIsPositions(domain: seq<Byte>, q: seq<Byte>)
    requires |q| == |domain| + 2 && q[|q| - 1] == 0
    requires forall k :: 0 <= k < |q| - 1 ==> q[k] == ByteAt(Buffer(domain), k)
    ensures q == Encode(domain)
  {
    hide EncodeOpen, ByteAt;
    forall k | 0 <= k < |q| ensures q[k] == Encode(domain)[k] {
      if k < |q| - 1 { EncodeByPosition(Buffer(domain), domain, 0, k); }
    }
  }

  /** The inner loop of domain_to_qname: positions after i still hold the text s. */
  method ScanLabel(qname: array<Byte>, i: nat, ghost s: seq<Byte>) returns (j: nat)
    requires i + 1 < qname.Length == |s|
    requires forall k :: i < k < |s| ==> qname[k] == s[k]
    ensures j == NextDot(s, i + 1)
  {
    j := i + 1;
    while j < qname.Length - 1 && qname[j] != DOT
      invariant i + 1 <= j <= |s| - 1
      invariant NextDot(s, j) == NextDot(s, i + 1)
    {
      assert s[j] != DOT;
      j := j + 1;
    }
  }

  /** domain_to_qname: the text is copied behind a leading dot, then every dot is overwritten in place by the
      distance to the next one. The length is kept in 16 bits. */
  method DomainToQname(domain: seq<Byte>) returns (qname: array<Byte>)
    requires |domain| + 2 < 65536 && 0 !in domain
    ensures fresh(qname) && qname[..] == Encode(domain)
  {
    hide EncodeOpen, NextDot;
    var len := |domain| + 2;
    ghost var s := Buffer(domain);
    qname := new Byte[len];
    qname[0] := DOT;
    forall k | 0 <= k < |domain| { qname[k + 1] := domain[k]; }
    qname[len - 1] := 0;
    for i := 0 to len
      invariant forall k :: 0 <= k < i && k < len - 1 ==> qname[k] == ByteAt(s, k)
      invariant forall k :: i <= k < len ==> qname[k] == s[k]
      invariant qname[len - 1] == 0
    {
      if qname[i] == DOT {
        var j := ScanLabel(qname, i, s);
        qname[i] := (j - i - 1) % 256;
      }
    }
    EncodeIsPositions(domain, qname[..]);
  }
}
