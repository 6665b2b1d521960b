/** Bytes, and the C strings among them. */
module CBytes {

  type Byte = b: nat | b < 256

  const DOT: Byte := 46
  const ZERO: Byte := 48

  /** An address: the four numbers of its dotted form. */
  type Address = a: seq<Byte> | |a| == 4 witness [0, 0, 0, 0]

  lemma {:induction false} Regroup(a: seq<Byte>, b: seq<Byte>, c: seq<Byte>)
    ensures a + b + c == a + (b + c)
  {
  }

  /** The C string at the front of a buffer: up to the first zero. */
  function CString(s: seq<Byte>): seq<Byte>
  {
    if s == [] || s[0] == 0 then [] else [s[0]] + CString(s[1..])
  }

  lemma {:induction false} CStringPadded(s: seq<Byte>, text: seq<Byte>)
    requires text <= s && forall k :: |text| <= k < |s| ==> s[k] == 0
    ensures CString(s) == CString(text)
  {
    if text != [] && text[0] != 0 {
      assert s[0] == text[0];
      forall k | |text[1..]| <= k < |s[1..]| ensures s[1..][k] == 0 { assert s[k + 1] == 0; }
      CStringPadded(s[1..], text[1..]);
    }
  }

  lemma {:induction false} CStringWhole(s: seq<Byte>)
    requires 0 !in s
    ensures CString(s) == s
  {
    if s != [] {
      assert s[0] in s;
      CStringWhole(s[1..]);
    }
  }

  lemma {:induction false} CStringPrefix(s: seq<Byte>, n: nat)
    requires n < |s| && s[n] == 0 && forall k :: 0 <= k < n ==> s[k] != 0
    ensures CString(s) == s[..n]
  {
    if n > 0 {
      forall k | 0 <= k < n - 1 ensures s[1..][k] != 0 { assert s[k + 1] != 0; }
      CStringPrefix(s[1..], n - 1);
      assert s[..n] == [s[0]] + s[1..][..n - 1];
    }
  }
}
