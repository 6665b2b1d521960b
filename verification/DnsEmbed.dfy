/** src/probe_modules/packet.c and src/probe_modules/module_dns.c: the target address written in place into the
    query name, and the check of an echoed question. */
module DnsEmbed {

  import opened CBytes
  import opened DnsName
  import opened DnsDecode
  import opened DnsResponse

  const EMBEDDED: nat := 16

  /** The decimal digits of a number below 256, padded to three. */
  function Digits(o: Byte): (d: seq<Byte>)
    ensures |d| == 3 && DOT !in d && 0 !in d
  {
    var n: nat := o;
    [ZERO + n / 100, ZERO + n / 10 % 10, ZERO + n % 10]
  }

  /** Three decimal digits and the number they stand for. */
  predicate Spells(d: seq<Byte>, n: nat)
  {
    && |d| == 3 && (forall k :: 0 <= k < 3 ==> ZERO <= d[k] <= ZERO + 9)
    && 100 * (d[0] - ZERO) + 10 * (d[1] - ZERO) + (d[2] - ZERO) == n
  }

  lemma {:induction false} DigitsSpell(o: Byte)
    ensures Spells(Digits(o), o)
  {
    var n: nat := o;
    assert n / 10 == 10 * (n / 100) + n / 10 % 10;
  }

  /** Four labels of three digits each, which read as the numbers of the address in order. */
  ghost predicate SpellsAddress(q: seq<Byte>, ip: Address)
  {
    |q| == EMBEDDED && forall k :: 0 <= k < 4 ==> SpellsNumber(q, k, ip[k])
  }

  predicate SpellsNumber(q: seq<Byte>, k: nat, o: Byte)
    requires 4 * k + 4 <= |q|
  {
    q[4 * k] == 3 && Spells(q[4 * k + 1..4 * k + 4], o)
  }

  /** The numbers in front of a domain, padded, each followed by a dot. */
  function Dotted(os: seq<Byte>, domain: seq<Byte>): (t: seq<Byte>)
    ensures |t| == 4 * |os| + |domain|
  {
    if os == [] then domain else Digits(os[0]) + [DOT] + Dotted(os[1..], domain)
  }

  /** The same numbers as labels on the wire. */
  function Embed(os: seq<Byte>): (q: seq<Byte>)
    ensures |q| == 4 * |os|
  {
    if os == [] then [] else [3] + Digits(os[0]) + Embed(os[1..])
  }

  lemma {:induction false} EmbedAppend(os: seq<Byte>, o: Byte)
    ensures Embed(os + [o]) == Embed(os) + ([3] + Digits(o))
  {
    if os == [] {
      assert [o][1..] == [];
      assert [3] + Digits(o) + [] == [] + ([3] + Digits(o));
    } else {
      EmbedAppend(os[1..], o);
      assert (os + [o])[1..] == os[1..] + [o];
      assert [3] + Digits(os[0]) + (Embed(os[1..]) + ([3] + Digits(o))) ==
             [3] + Digits(os[0]) + Embed(os[1..]) + ([3] + Digits(o));
    }
  }

  /** make_ip_strinqname: one label of three digits for each number, and the zero of the last print. */
  method MakeIpQname(ip: Address) returns (buffer: array<Byte>)
    ensures fresh(buffer) && buffer[..] == Embed(ip) + [0]
    ensures SpellsAddress(buffer[..EMBEDDED], ip) && buffer[EMBEDDED] == 0
  {
    hide Embed, Digits;
    EmbedSpells(ip);
    buffer := new Byte[EMBEDDED + 1](_ => 0);
    assert Embed([]) == [] by { EmbedNothing(); }
    for count := 0 to 4
      invariant buffer[..4 * count] == Embed(ip[..count]) && buffer[4 * count] == 0
    {
      ghost var before := buffer[..4 * count];
      var d := Digits(ip[count]);
      buffer[4 * count] := 3;
      buffer[4 * count + 1], buffer[4 * count + 2], buffer[4 * count + 3] := d[0], d[1], d[2];
      buffer[4 * count + 4] := 0;
      EmbedAppend(ip[..count], ip[count]);
      assert ip[..count + 1] == ip[..count] + [ip[count]];
      assert buffer[..4 * count + 4] == before + ([3] + d);
    }
    assert ip[..4] == ip;
    assert buffer[..] == buffer[..16] + [0];
  }

  lemma {:induction false} EmbedIs(a: Byte, b: Byte, c: Byte, d: Byte)
    ensures Embed([a, b, c, d]) ==
            ([3] + Digits(a)) + (([3] + Digits(b)) + (([3] + Digits(c)) + (([3] + Digits(d)) + [])))
  {
    hide Digits;
    assert [a, b, c, d][1..] == [b, c, d] && [b, c, d][1..] == [c, d] && [c, d][1..] == [d] && [d][1..] == [];
    assert Embed([d]) == [3] + Digits(d) + [];
    assert Embed([c, d]) == [3] + Digits(c) + Embed([d]);
    assert Embed([b, c, d]) == [3] + Digits(b) + Embed([c, d]);
  }

  lemma {:induction false} EmbedSpells(ip: Address)
    ensures SpellsAddress(Embed(ip), ip)
  {
    hide Digits, Embed, Spells;
    assert ip == [ip[0], ip[1], ip[2], ip[3]];
    EmbedIs(ip[0], ip[1], ip[2], ip[3]);
    forall k | 0 <= k < 4 ensures SpellsNumber(Embed(ip), k, ip[k]) {
      DigitsSpell(ip[k]);
      assert Embed(ip)[4 * k + 1..4 * k + 4] == Digits(ip[k]);
    }
  }

  lemma {:induction false} EmbedNothing()
    ensures Embed([]) == []
  {
  }

  /** dns_make_packet's padding: the first sixteen bytes of the query name are replaced. */
  method Pad(packet: array<Byte>, at: nat, ip: Address)
    requires at + EMBEDDED <= packet.Length
    modifies packet
    ensures packet[..] == old(packet[..at]) + Embed(ip) + old(packet[at + EMBEDDED..])
    ensures SpellsAddress(packet[at..at + EMBEDDED], ip)
  {
    hide Embed;
    var ipqname := MakeIpQname(ip);
    forall k | 0 <= k < EMBEDDED { packet[at + k] := ipqname[k]; }
    assert forall k :: 0 <= k < EMBEDDED ==> ipqname[k] == ipqname[..][k] == Embed(ip)[k];
    EmbedSpells(ip);
    assert packet[at..at + EMBEDDED] == Embed(ip);
  }

  // ---------- What the padded name is ----------

  lemma {:induction false} FirstIsDigits(o: Byte, rest: seq<Byte>)
    ensures FirstLabel(Digits(o) + [DOT] + rest) == 3
  {
    hide Digits;
    var t := Digits(o) + [DOT] + rest;
    var k := FirstLabel(t);
    assert t[3] == DOT;
    assert forall i :: 0 <= i < 3 ==> t[i] in Digits(o);
  }

  /** The numbers written as labels are the wire form of the numbers written as text. */
  lemma {:induction false} EmbedIsEncoded(os: seq<Byte>, domain: seq<Byte>)
    ensures Embed(os) + Encode(domain) == Encode(Dotted(os, domain))
  {
    hide FirstLabel, Digits;
    if os != [] {
      var rest := Dotted(os[1..], domain);
      var t := Dotted(os, domain);
      FirstIsDigits(os[0], rest);
      assert t[..3] == Digits(os[0]) && t[4..] == rest;
      EmbedIsEncoded(os[1..], domain);
      assert EncodeOpen(t) == [3] + Digits(os[0]) + EncodeOpen(rest);
      assert Encode(t) == [3] + Digits(os[0]) + Encode(rest);
    }
  }

  lemma {:induction false} DottedWithin(os: seq<Byte>, domain: seq<Byte>, n: nat)
    requires n >= 3
    ensures LabelsWithin(Dotted(os, domain), n) == LabelsWithin(domain, n)
    ensures 0 !in domain ==> 0 !in Dotted(os, domain)
  {
    hide FirstLabel, Digits;
    if os != [] {
      var rest := Dotted(os[1..], domain);
      var t := Dotted(os, domain);
      FirstIsDigits(os[0], rest);
      assert t[4..] == rest;
      DottedWithin(os[1..], domain, n);
    }
  }

  lemma {:induction false} EncodeOpenDrop(d: seq<Byte>, i: nat)
    requires FirstLabel(d) < |d| && i <= |d| - FirstLabel(d)
    ensures EncodeOpen(d)[FirstLabel(d) + 1 + i..] == EncodeOpen(d[FirstLabel(d) + 1..])[i..]
  {
    hide FirstLabel;
    var n := FirstLabel(d);
    var front := [n % 256] + d[..n];
    assert EncodeOpen(d) == front + EncodeOpen(d[n + 1..]);
    DropFront(front, EncodeOpen(d[n + 1..]), i);
  }

  lemma {:induction false} DropFront(front: seq<Byte>, back: seq<Byte>, i: nat)
    requires i <= |back|
    ensures (front + back)[|front| + i..] == back[i..]
  {
  }

  /** After a dot, the wire form of the whole goes on as the wire form of the rest. */
  lemma {:induction false} EncodeAfterDot(d: seq<Byte>, k: nat)
    requires k < |d| && d[k] == DOT
    ensures EncodeOpen(d)[k + 1..] == EncodeOpen(d[k + 1..])
    decreases |d|
  {
    hide FirstLabel, EncodeOpen;
    var n := FirstLabel(d);
    assert n <= k;
    EncodeOpenDrop(d, k - n);
    if n < k {
      EncodeAfterDot(d[n + 1..], k - n - 1);
      assert d[n + 1..][k - n..] == d[k + 1..];
    }
  }

  /** The query name after the padding of its first sixteen bytes. */
  function Padded(domain: seq<Byte>, ip: Address): (q: seq<Byte>)
    requires |domain| >= EMBEDDED
    ensures |q| == |Encode(domain)| && q[EMBEDDED..] == Encode(domain)[EMBEDDED..]
  {
    Embed(ip) + Encode(domain)[EMBEDDED..]
  }

  /** A domain with a dot behind a placeholder of fifteen bytes: the padded name is again the wire form of a
      name, the padded address in front of what follows the placeholder. */
  lemma {:induction false} PaddedIsName(domain: seq<Byte>, ip: Address)
    requires |domain| >= EMBEDDED && domain[EMBEDDED - 1] == DOT
    ensures Padded(domain, ip) == Encode(Dotted(ip, domain[EMBEDDED..]))
  {
    hide Embed, EncodeOpen, Dotted;
    EncodeAfterDot(domain, EMBEDDED - 1);
    assert Encode(domain)[EMBEDDED..] == EncodeOpen(domain)[EMBEDDED..] + [0];
    EmbedIsEncoded(ip, domain[EMBEDDED..]);
  }

  /** It is read back as that name, in as many bytes as before, exactly when the rest could be read back. */
  lemma {:induction false} PaddedDecodesIff(domain: seq<Byte>, ip: Address, tail: seq<Byte>, payload: seq<Byte>)
    requires 0 !in domain && payload != []
    requires |domain| >= EMBEDDED && domain[EMBEDDED - 1] == DOT
    ensures var rest := domain[EMBEDDED..];
            Decode(Padded(domain, ip) + tail, payload, MAX_NAME_LENGTH - 1, 0) ==
            Good(|domain| + 2, Dotted(ip, rest)) <==>
            LabelsWithin(rest, 0xbf) && |domain| < MAX_NAME_LENGTH
  {
    hide Embed, Encode, Dotted, Decode, LabelsWithin;
    var rest := domain[EMBEDDED..];
    PaddedIsName(domain, ip);
    DottedWithin(ip, rest, 0xbf);
    RoundTripIff(Dotted(ip, rest), tail, payload, MAX_NAME_LENGTH - 1);
  }

  /** The documented placeholder is of this form. */
  lemma {:induction false} PlaceholderFits(rest: seq<Byte>)
    ensures var domain := Dotted([255, 255, 255, 255], rest);
            |domain| >= EMBEDDED && domain[EMBEDDED - 1] == DOT && domain[EMBEDDED..] == rest
  {
    var d4 := rest;
    var d3 := Dotted([255], rest);
    var d2 := Dotted([255, 255], rest);
    var d1 := Dotted([255, 255, 255], rest);
    var d0 := Dotted([255, 255, 255, 255], rest);
    assert d3[3] == DOT && d3[4..] == d4 by { DottedTail([255], rest); }
    assert d2[4..] == d3 by { DottedTail([255, 255], rest); }
    assert d1[4..] == d2 by { DottedTail([255, 255, 255], rest); }
    assert d0[4..] == d1 by { DottedTail([255, 255, 255, 255], rest); }
    assert d0[16..] == d0[4..][4..][4..][4..];
  }

  lemma {:induction false} DottedTail(os: seq<Byte>, domain: seq<Byte>)
    requires os != []
    ensures var t := Dotted(os, domain); t[3] == DOT && t[4..] == Dotted(os[1..], domain) && t[..3] == Digits(os[0])
  {
    hide Digits;
  }

  /** Different targets are asked for by different names. */
  lemma {:induction false} PaddingInjective(os: seq<Byte>, os': seq<Byte>, domain: seq<Byte>)
    requires |os| == |os'| && Dotted(os, domain) == Dotted(os', domain)
    ensures os == os'
  {
    hide Dotted;
    if os != [] {
      DottedTail(os, domain);
      DottedTail(os', domain);
      DigitsInjective(os[0], os'[0]);
      PaddingInjective(os[1..], os'[1..], domain);
      assert os == [os[0]] + os[1..] && os' == [os'[0]] + os'[1..];
    }
  }

  lemma {:induction false} DigitsInjective(a: Byte, b: Byte)
    requires Digits(a) == Digits(b)
    ensures a == b
  {
    var n: nat, m: nat := a, b;
    assert Digits(a)[0] == Digits(b)[0] && Digits(a)[1] == Digits(b)[1] && Digits(a)[2] == Digits(b)[2];
    assert n == n / 100 * 100 + n / 10 % 10 * 10 + n % 10;
    assert m == m / 100 * 100 + m / 10 % 10 * 10 + m % 10;
  }

  // ---------- The echoed question ----------

  /** No zero inside the wire form of a name with text in its labels. */
  lemma {:induction false} NoZeroInside(d: seq<Byte>)
    requires LabelsWithin(d, 0xbf) && 0 !in d
    ensures 0 !in EncodeOpen(d)
    decreases |d|
  {
    hide FirstLabel;
    var k := FirstLabel(d);
    assert k == |d| ==> EncodeOpen(d) == [k] + d;
    if k < |d| {
      assert EncodeOpen(d) == [k] + d[..k] + EncodeOpen(d[k + 1..]);
      NoZeroInside(d[k + 1..]);
    }
  }

  lemma {:induction false} CStringTerminated(s: seq<Byte>, x: seq<Byte>)
    requires 0 !in s && 0 in x
    ensures CString(s + [0]) == CString(x) <==> s + [0] <= x
    decreases |s|
  {
    if s == [] {
      assert s + [0] == [0];
    } else {
      assert s[0] in s && (s + [0])[0] == s[0] && (s + [0])[1..] == s[1..] + [0];
      var c := CString(s + [0]);
      assert c == [s[0]] + CString(s[1..] + [0]) && c[0] == s[0] && c[1..] == CString(s[1..] + [0]);
      if x[0] == s[0] {
        assert 0 in x[1..];
        CStringTerminated(s[1..], x[1..]);
        assert CString(x)[1..] == CString(x[1..]);
        assert s + [0] == [s[0]] + (s[1..] + [0]) && x == [x[0]] + x[1..];
        assert s + [0] <= x ==> s[1..] + [0] <= x[1..];
      } else {
        assert x[0] != 0 ==> CString(x)[0] == x[0];
      }
    }
  }

  /** dns_process_packet compares the C strings behind the padding: equal exactly when the response goes on, from
      there, with the whole wire form of the rest of the domain. */
  lemma {:induction false} EchoAcceptedIff(domain: seq<Byte>, name: seq<Byte>)
    requires |domain| >= EMBEDDED && domain[EMBEDDED - 1] == DOT && 0 !in domain
    requires LabelsWithin(domain[EMBEDDED..], 0xbf) && |name| >= EMBEDDED && 0 in name[EMBEDDED..]
    ensures CString(Encode(domain)[EMBEDDED..]) == CString(name[EMBEDDED..]) <==>
            Encode(domain[EMBEDDED..]) <= name[EMBEDDED..]
  {
    hide EncodeOpen, CString, LabelsWithin;
    var rest := domain[EMBEDDED..];
    EncodeAfterDot(domain, EMBEDDED - 1);
    assert Encode(domain)[EMBEDDED..] == EncodeOpen(rest) + [0];
    NoZeroInside(rest);
    CStringTerminated(EncodeOpen(rest), name[EMBEDDED..]);
  }

  /** The question that was asked, echoed, is accepted, whatever address it was padded with. */
  lemma {:induction false} EchoAccepted(domain: seq<Byte>, ip: Address, tail: seq<Byte>)
    requires |domain| >= EMBEDDED && domain[EMBEDDED - 1] == DOT && 0 !in domain
    requires LabelsWithin(domain[EMBEDDED..], 0xbf)
    ensures CString(Encode(domain)[EMBEDDED..]) == CString((Padded(domain, ip) + tail)[EMBEDDED..])
  {
    hide EncodeOpen, CString, LabelsWithin, Padded;
    var name := Padded(domain, ip) + tail;
    EncodeAfterDot(domain, EMBEDDED - 1);
    var rest := domain[EMBEDDED..];
    assert Encode(domain)[EMBEDDED..] == EncodeOpen(rest) + [0];
    assert name[EMBEDDED..] == Padded(domain, ip)[EMBEDDED..] + tail == Encode(rest) + tail;
    assert name[EMBEDDED..][|rest| + 1] == 0;
    EchoAcceptedIff(domain, name);
  }
}
