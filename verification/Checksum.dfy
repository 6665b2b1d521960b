/** src/probe_modules/packet.h: the Internet checksum of TCP segments and IPv6 payloads. */
module Checksum {

  import opened CBytes
  import opened Modular

  /** How the host lays out a 16-bit word in memory. */
  datatype Host = LittleEndian | BigEndian

  function Load(h: Host, b0: Byte, b1: Byte): (w: nat)
    ensures w < 0x1_0000
  {
    if h.LittleEndian? then b0 + 256 * b1 else 256 * b0 + b1
  }

  function Htons(h: Host, x: nat): nat
    requires x < 0x1_0000
  {
    Load(h, x / 256, x % 256)
  }

  /** The two bytes a 16-bit store writes. */
  function Store(h: Host, w: nat): (bs: seq<Byte>)
    requires w < 0x1_0000
    ensures |bs| == 2 && Load(h, bs[0], bs[1]) == w
  {
    if h.LittleEndian? then [w % 256, w / 256] else [w / 256, w % 256]
  }

  /** The sum of the 16-bit words of a byte string, an odd last byte padded with zero. */
  function WordSum(h: Host, bs: seq<Byte>): nat
  {
    if |bs| == 0 then 0
    else if |bs| == 1 then Load(h, bs[0], 0)
    else Load(h, bs[0], bs[1]) + WordSum(h, bs[2..])
  }

  // ---------- One's complement arithmetic, as in RFC 1071 ----------

  /** 16-bit addition with end-around carry. */
  function Add1(a: nat, b: nat): nat
  {
    if a + b < 0x1_0000 then a + b else a + b - 0xFFFF
  }

  function OnesSum(h: Host, bs: seq<Byte>): nat
  {
    if |bs| == 0 then 0
    else if |bs| == 1 then Load(h, bs[0], 0)
    else Add1(Load(h, bs[0], bs[1]), OnesSum(h, bs[2..]))
  }

  /** The representative of s modulo 65535 in 1..65535, and 0 only for 0. */
  function Norm(s: nat): nat
  {
    if s == 0 then 0 else (s - 1) % 0xFFFF + 1
  }

  lemma {:induction false} AddNorm(a: nat, s: nat)
    requires a < 0x1_0000
    ensures Add1(a, Norm(s)) == Norm(a + s) && Norm(a) == a
  {
  }

  lemma {:induction false} OnesSumIsNorm(h: Host, bs: seq<Byte>)
    ensures OnesSum(h, bs) == Norm(WordSum(h, bs))
  {
    AddNorm(0, 0);
    hide Norm, Add1, Load;
    if |bs| == 1 {
      AddNorm(Load(h, bs[0], 0), 0);
    } else if |bs| >= 2 {
      OnesSumIsNorm(h, bs[2..]);
      AddNorm(Load(h, bs[0], bs[1]), WordSum(h, bs[2..]));
    }
  }

  lemma {:induction false} WordSumAppend(h: Host, a: seq<Byte>, b: seq<Byte>)
    requires |a| % 2 == 0
    ensures WordSum(h, a + b) == WordSum(h, a) + WordSum(h, b)
  {
    if |a| == 0 {
      assert a + b == b;
    } else {
      WordSumAppend(h, a[2..], b);
      assert (a + b)[2..] == a[2..] + b;
    }
  }

  lemma {:induction false} WordSumBound(h: Host, bs: seq<Byte>)
    ensures WordSum(h, bs) <= 0xFFFF * ((|bs| + 1) / 2)
  {
    if |bs| >= 2 {
      WordSumBound(h, bs[2..]);
    }
  }

  /** The two folds and the complement that end both checksum functions. */
  function Finish(sum: nat): (c: nat)
    ensures c < 0x1_0000
  {
    var s1 := sum / 0x1_0000 + sum % 0x1_0000;
    var s2 := s1 + s1 / 0x1_0000;
    0xFFFF - s2 % 0x1_0000
  }

  /** Two folds suffice for every sum below 2^32. */
  lemma {:induction false} TwoFoldsSuffice(sum: nat)
    requires sum < 0x1_0000_0000
    ensures Finish(sum) == 0xFFFF - Norm(sum)
  {
    var hi, lo := sum / 0x1_0000, sum % 0x1_0000;
    var s1 := hi + lo;
    assert sum == 0xFFFF * hi + s1;
  }

  /** Adding the checksum to the sum it was computed from gives all ones. */
  lemma {:induction false} ChecksumCompletes(sum: nat)
    requires sum < 0x1_0000_0000
    ensures Norm(sum + Finish(sum)) == 0xFFFF
  {
    TwoFoldsSuffice(sum);
  }

  // ---------- The two functions ----------

  /** The IPv4 pseudo-header: addresses, zero, protocol and segment length. */
  function PseudoV4(saddr: seq<Byte>, daddr: seq<Byte>, len: nat): seq<Byte>
    requires len < 0x1_0000
  {
    saddr + daddr + [0, 6] + [len / 256, len % 256]
  }

  /** The IPv6 pseudo-header: addresses, 32-bit length, three zero bytes and the next header. */
  function PseudoV6(saddr: seq<Byte>, daddr: seq<Byte>, len: nat, proto: Byte): seq<Byte>
    requires len < 0x1_0000
  {
    saddr + daddr + [0, 0, len / 256, len % 256] + [0, 0, 0, proto]
  }

  lemma {:induction false} PseudoV4Sum(h: Host, saddr: seq<Byte>, daddr: seq<Byte>, len: nat)
    requires |saddr| == |daddr| == 4 && len < 0x1_0000
    ensures WordSum(h, PseudoV4(saddr, daddr, len)) ==
            Load(h, saddr[0], saddr[1]) + Load(h, saddr[2], saddr[3]) +
            Load(h, daddr[0], daddr[1]) + Load(h, daddr[2], daddr[3]) + Htons(h, 6) + Htons(h, len)
  {
    WordSumAppend(h, saddr + daddr + [0, 6], [len / 256, len % 256]);
    WordSumAppend(h, saddr + daddr, [0, 6]);
    WordSumAppend(h, saddr, daddr);
    TwoWords(h, saddr);
    TwoWords(h, daddr);
  }

  lemma {:induction false} TwoWords(h: Host, bs: seq<Byte>)
    requires |bs| == 4
    ensures WordSum(h, bs) == Load(h, bs[0], bs[1]) + Load(h, bs[2], bs[3])
  {
    var tail := bs[2..];
    assert WordSum(h, tail) == Load(h, tail[0], tail[1]) + WordSum(h, tail[2..]);
    assert tail[2..] == [];
  }

  lemma {:induction false} LengthWords(h: Host, len: nat)
    requires len < 0x1_0000
    ensures WordSum(h, [0, 0, len / 256, len % 256]) == Htons(h, len)
  {
    TwoWords(h, [0, 0, len / 256, len % 256]);
  }

  lemma {:induction false} NextHeaderWords(h: Host, proto: Byte)
    ensures WordSum(h, [0, 0, 0, proto]) == Htons(h, proto)
  {
    TwoWords(h, [0, 0, 0, proto]);
  }

  lemma {:induction false} PseudoV6Sum(h: Host, saddr: seq<Byte>, daddr: seq<Byte>, len: nat, proto: Byte)
    requires |saddr| == |daddr| == 16 && len < 0x1_0000
    ensures WordSum(h, PseudoV6(saddr, daddr, len, proto)) ==
            WordSum(h, saddr) + WordSum(h, daddr) + Htons(h, len) + Htons(h, proto)
  {
    hide WordSum, Load, Htons;
    var tail: seq<Byte>, next: seq<Byte> := [0, 0, len / 256, len % 256], [0, 0, 0, proto];
    LengthWords(h, len);
    NextHeaderWords(h, proto);
    WordSumAppend(h, saddr + daddr + tail, next);
    WordSumAppend(h, saddr + daddr, tail);
    WordSumAppend(h, saddr, daddr);
  }

  /** The loop of both functions, with the odd byte behind it. */
  method AddWords(h: Host, bytes: seq<Byte>, before: nat) returns (sum: nat)
    ensures sum == before + WordSum(h, bytes)
  {
    hide Load;
    sum := before;
    var left, w := |bytes|, 0;
    while left > 1
      invariant 0 <= left && w + left == |bytes|
      invariant sum + WordSum(h, bytes[w..]) == before + WordSum(h, bytes)
    {
      assert bytes[w..][2..] == bytes[w + 2..];
      sum := sum + Load(h, bytes[w], bytes[w + 1]);
      w := w + 2;
      left := left - 2;
    }
    if left > 0 {
      sum := sum + Load(h, bytes[w], 0);
    }
  }

  /** The folds and the complement at the end of both. */
  method Fold(total: nat) returns (c: nat)
    ensures c == Finish(total)
  {
    var sum := total / 0x1_0000 + total % 0x1_0000;
    sum := sum + sum / 0x1_0000;
    c := 0xFFFF - sum % 0x1_0000;
  }

  /** tcp_checksum */
  method TcpChecksum(h: Host, seg: seq<Byte>, saddr: seq<Byte>, daddr: seq<Byte>) returns (c: nat)
    requires |seg| < 0x1_0000 && |saddr| == |daddr| == 4
    ensures c == Finish(WordSum(h, PseudoV4(saddr, daddr, |seg|)) + WordSum(h, seg))
  {
    hide Load, PseudoV4, WordSum, Htons, Finish;
    var sum := AddWords(h, seg, 0);
    PseudoV4Sum(h, saddr, daddr, |seg|);
    sum := sum + Load(h, saddr[0], saddr[1]);
    sum := sum + Load(h, saddr[2], saddr[3]);
    sum := sum + Load(h, daddr[0], daddr[1]);
    sum := sum + Load(h, daddr[2], daddr[3]);
    sum := sum + Htons(h, |seg|);
    sum := sum + Htons(h, 6);
    c := Fold(sum);
  }

  /** The loop that adds the eight words of an IPv6 address. */
  method AddressSum(h: Host, addr: seq<Byte>) returns (sum: nat)
    requires |addr| == 16
    ensures sum == WordSum(h, addr)
  {
    sum := 0;
    for i := 0 to 8
      invariant sum + WordSum(h, addr[2 * i..]) == WordSum(h, addr)
    {
      assert addr[2 * i..][2..] == addr[2 * (i + 1)..];
      sum := sum + Load(h, addr[2 * i], addr[2 * i + 1]);
    }
  }

  /** ipv6_payload_checksum */
  method Ipv6PayloadChecksum(h: Host, payload: seq<Byte>, saddr: seq<Byte>, daddr: seq<Byte>, proto: Byte)
    returns (c: nat)
    requires |payload| < 0x1_0000 && |saddr| == |daddr| == 16
    ensures c == Finish(WordSum(h, PseudoV6(saddr, daddr, |payload|, proto)) + WordSum(h, payload))
  {
    hide Load, Htons, PseudoV6, WordSum, Finish;
    var src := AddressSum(h, saddr);
    var dst := AddressSum(h, daddr);
    PseudoV6Sum(h, saddr, daddr, |payload|, proto);
    var sum := src + dst + Htons(h, |payload|) + Htons(h, proto);
    sum := AddWords(h, payload, sum);
    c := Fold(sum);
  }

  /** The example of section 3 of RFC 1071, and one pseudo-header of section 3.1 of RFC 793. */
  lemma {:induction false} KnownSums()
    ensures var m: seq<Byte> := [0x00, 0x01, 0xf2, 0x03, 0xf4, 0xf5, 0xf6, 0xf7];
            WordSum(BigEndian, m) == 0x2ddf0 && Finish(WordSum(BigEndian, m)) == 0x220d
    ensures PseudoV4([10, 0, 0, 1], [192, 0, 2, 7], 20) == [10, 0, 0, 1, 192, 0, 2, 7, 0, 6, 0, 20]
  {
    var m: seq<Byte> := [0x00, 0x01, 0xf2, 0x03, 0xf4, 0xf5, 0xf6, 0xf7];
    assert m[2..] == [0xf2, 0x03, 0xf4, 0xf5, 0xf6, 0xf7] && m[2..][2..] == [0xf4, 0xf5, 0xf6, 0xf7];
    assert m[2..][2..][2..] == [0xf6, 0xf7] && m[2..][2..][2..][2..] == [];
    assert WordSum(BigEndian, m[2..][2..][2..]) == 0xf6f7;
    assert WordSum(BigEndian, m[2..][2..]) == 0xf4f5 + 0xf6f7;
    assert WordSum(BigEndian, m[2..]) == 0xf203 + 0xf4f5 + 0xf6f7;
  }

  /** The layout of section 8.1 of RFC 8200: source, destination, 32-bit length, three zero bytes, next header. */
  lemma {:induction false} PseudoV6Layout(saddr: seq<Byte>, daddr: seq<Byte>, len: nat, proto: Byte)
    requires |saddr| == |daddr| == 16 && len < 0x1_0000
    ensures var p := PseudoV6(saddr, daddr, len, proto);
            && |p| == 40 && p[..16] == saddr && p[16..32] == daddr
            && p[32] == p[33] == 0 && Load(BigEndian, p[34], p[35]) == len
            && p[36] == p[37] == p[38] == 0 && p[39] == proto
  {
    var p := PseudoV6(saddr, daddr, len, proto);
    assert p[..16] == saddr;
    assert p[16..32] == daddr;
  }

  // ---------- Either byte order gives the same bytes ----------

  function Swapped(n: nat): nat
    requires n < 0x1_0000
  {
    n % 256 * 256 + n / 256
  }

  /** The sum in one byte order is 256 times the sum in the other, modulo 65535. */
  lemma {:induction false} SumsRelated(bs: seq<Byte>) returns (k: int)
    ensures WordSum(LittleEndian, bs) + 0xFFFF * k == 256 * WordSum(BigEndian, bs) && k >= 0
    ensures WordSum(LittleEndian, bs) == 0 <==> WordSum(BigEndian, bs) == 0
  {
    if |bs| == 0 {
      k := 0;
    } else {
      var b0: nat := bs[0];
      if |bs| == 1 {
        k := b0;
      } else {
        var m := SumsRelated(bs[2..]);
        k := m + b0;
      }
    }
  }

  lemma {:induction false} NormSwapped(n: nat, a: nat, b: nat, k: int)
    requires n == Norm(b) && a + 0xFFFF * k == 256 * b && (a == 0 <==> b == 0) && n < 0x1_0000
    ensures Norm(a) == Swapped(n)
  {
    if b > 0 {
      var q := (b - 1) / 0xFFFF;
      assert b == 0xFFFF * q + n;
      var h, l := n / 256, n % 256;
      assert 256 * n == 0xFFFF * h + (h + 256 * l);
      assert a - 1 == 0xFFFF * (256 * q + h - k) + (h + 256 * l - 1);
      DivModUnique(a - 1, 0xFFFF, 256 * q + h - k, h + 256 * l - 1);
    }
  }

  lemma {:induction false} StoredSwapped(n: nat)
    requires n < 0x1_0000
    ensures Swapped(n) < 0x1_0000
    ensures Store(LittleEndian, 0xFFFF - Swapped(n)) == Store(BigEndian, 0xFFFF - n)
  {
    var h, l := n / 256, n % 256;
    DivModUnique(0xFFFF - n, 256, 255 - h, 255 - l);
    DivModUnique(0xFFFF - Swapped(n), 256, 255 - l, 255 - h);
  }

  /** The checksum a host stores does not depend on its byte order. */
  lemma {:induction false} HostsAgree(bs: seq<Byte>)
    requires |bs| < 0x1_0028
    ensures Store(LittleEndian, Finish(WordSum(LittleEndian, bs))) == Store(BigEndian, Finish(WordSum(BigEndian, bs)))
  {
    var a, b := WordSum(LittleEndian, bs), WordSum(BigEndian, bs);
    assert Norm(b) < 0x1_0000;
    hide *;
    WordSumBound(LittleEndian, bs);
    WordSumBound(BigEndian, bs);
    var k := SumsRelated(bs);
    TwoFoldsSuffice(a);
    TwoFoldsSuffice(b);
    NormSwapped(Norm(b), a, b, k);
    StoredSwapped(Norm(b));
  }

  /** The segment with the checksum stored at offset o. */
  function WithChecksum(h: Host, seg: seq<Byte>, o: nat, c: nat): seq<Byte>
    requires o + 2 <= |seg| && c < 0x1_0000
  {
    seg[..o] + Store(h, c) + seg[o + 2..]
  }

  lemma {:induction false} StoringAdds(h: Host, seg: seq<Byte>, o: nat, c: nat)
    requires o % 2 == 0 && o + 2 <= |seg| && seg[o] == 0 && seg[o + 1] == 0 && c < 0x1_0000
    ensures WordSum(h, WithChecksum(h, seg, o, c)) == WordSum(h, seg) + c
  {
    var zero: seq<Byte> := [0, 0];
    assert seg == seg[..o] + zero + seg[o + 2..];
    WordSumAppend(h, seg[..o] + zero, seg[o + 2..]);
    WordSumAppend(h, seg[..o], zero);
    WordSumAppend(h, seg[..o] + Store(h, c), seg[o + 2..]);
    WordSumAppend(h, seg[..o], Store(h, c));
  }

  /** Self-verification: with the checksum in its zeroed field, pseudo-header and segment sum to 0xFFFF,
      on hosts of either byte order and for odd lengths too. */
  lemma {:induction false} SelfVerifies(h: Host, pseudo: seq<Byte>, seg: seq<Byte>, o: nat)
    requires |pseudo| % 2 == 0 && |pseudo| <= 40 && |seg| < 0x1_0000
    requires o % 2 == 0 && o + 2 <= |seg| && seg[o] == 0 && seg[o + 1] == 0
    ensures var c := Finish(WordSum(h, pseudo) + WordSum(h, seg));
            OnesSum(h, pseudo + WithChecksum(h, seg, o, c)) == 0xFFFF
  {
    hide WordSum, OnesSum, Finish, Norm, WithChecksum;
    var sum := WordSum(h, pseudo) + WordSum(h, seg);
    var c := Finish(sum);
    WordSumBound(h, pseudo);
    WordSumBound(h, seg);
    ChecksumCompletes(sum);
    StoringAdds(h, seg, o, c);
    WordSumAppend(h, pseudo, WithChecksum(h, seg, o, c));
    OnesSumIsNorm(h, pseudo + WithChecksum(h, seg, o, c));
  }
}
