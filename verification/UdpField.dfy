/** src/probe_modules/module_udp.c: the fields of a payload template and the lookup of a field by its name. */
module UdpField {

  import opened CBytes
  import opened Options

  const MAX_UDP_PAYLOAD_LEN: nat := 1472
  const EQUALS: Byte := 61

  datatype FieldType =
    | Data | SaddrN | SaddrA | DaddrN | DaddrA | SportN | SportA | DportN | DportA
    | RandByte | RandDigit | RandAlpha | RandAlphanum | Hex | UnixSec | UnixUsec

  datatype Field = Field(ftype: FieldType, length: nat, data: seq<Byte>)

  datatype Definition = Definition(name: string, ftype: FieldType, maxLength: nat)

  const DEFINITIONS: seq<Definition> := [
    Definition("SADDR_N", SaddrN, 4), Definition("SADDR", SaddrA, 15),
    Definition("DADDR_N", DaddrN, 4), Definition("DADDR", DaddrA, 15),
    Definition("SPORT_N", SportN, 2), Definition("SPORT", SportA, 5),
    Definition("DPORT_N", DportN, 2), Definition("DPORT", DportA, 5),
    Definition("RAND_BYTE", RandByte, 0), Definition("RAND_DIGIT", RandDigit, 0),
    Definition("RAND_ALPHA", RandAlpha, 0), Definition("RAND_ALPHANUM", RandAlphanum, 0),
    Definition("HEX", Hex, 0),
    Definition("UNIXTIME_SEC", UnixSec, 4), Definition("UNIXTIME_USEC", UnixUsec, 4)]

  /** The bytes that a field of this type may take, when they do not come with the field. */
  function OwnSize(t: FieldType): Option<nat>
  {
    match t
    case SaddrN => Some(4) case DaddrN => Some(4)
    case SaddrA => Some(15) case DaddrA => Some(15)
    case SportN => Some(2) case DportN => Some(2)
    case SportA => Some(5) case DportA => Some(5)
    case UnixSec => Some(4) case UnixUsec => Some(4)
    case _ => None
  }

  /** A field as the lookup makes it. */
  predicate ValidField(f: Field)
  {
    match OwnSize(f.ftype)
    case Some(n) => f.length == n && f.data == []
    case None => if f.ftype == Data || f.ftype == Hex then f.length == |f.data|
                 else f.data == [] && f.length <= MAX_UDP_PAYLOAD_LEN
  }

  /** The C library's number parsing: the whole of a length parameter, and a pair of hexadecimal digits at the
      front of a string. */
  datatype Parsers = Parsers(length: seq<Byte> -> Option<int>, pair: seq<Byte> -> Option<Byte>)

  /** Not a field, an exit with an error, or a field. */
  datatype Lookup = Unknown | Fatal | Known(field: Field)

  predicate SameText(s: seq<Byte>, name: string)
  {
    |s| == |name| && forall i :: 0 <= i < |s| ==> s[i] == name[i] as int
  }

  /** The position of the first equals sign, or the end. */
  function NameLength(v: seq<Byte>): (n: nat)
    ensures n <= |v| && (n < |v| ==> v[n] == EQUALS) && EQUALS !in v[..n]
  {
    if v == [] || v[0] == EQUALS then 0 else 1 + NameLength(v[1..])
  }

  /** The bytes of the pairs of digits from the i-th on. */
  function Pairs(ps: Parsers, param: seq<Byte>, i: nat): (r: Option<seq<Byte>>)
    requires i <= |param| / 2
    ensures r.Some? ==> |r.value| == |param| / 2 - i
    decreases |param| / 2 - i
  {
    if i == |param| / 2 then Some([])
    else
      match (ps.pair(param[2 * i..]), Pairs(ps, param, i + 1))
      case (Some(b), Some(rest)) => Some([b] + rest)
      case _ => None
  }

  function HexField(ps: Parsers, param: Option<seq<Byte>>): Lookup
  {
    match param
    case None => Fatal
    case Some(digits) =>
      match Pairs(ps, digits, 0)
      case None => Fatal
      case Some(bytes) => Known(Field(Hex, |bytes|, bytes))
  }

  /** The output length a parameter asks for; without one, zero. */
  function OutputLength(ps: Parsers, param: Option<seq<Byte>>): (n: Option<nat>)
    ensures n.Some? ==> n.value <= MAX_UDP_PAYLOAD_LEN
  {
    match param
    case None => Some(0)
    case Some(digits) =>
      if digits == [] then None
      else
        match ps.length(digits)
        case None => None
        case Some(n) => if 0 <= n <= MAX_UDP_PAYLOAD_LEN then Some(n) else None
  }

  function Defined(name: seq<Byte>, i: nat): (r: Option<Definition>)
    requires i <= |DEFINITIONS|
    ensures r.Some? <==> exists k :: i <= k < |DEFINITIONS| && SameText(name, DEFINITIONS[k].name)
    ensures r.Some? ==> r.value in DEFINITIONS && SameText(name, r.value.name)
    decreases |DEFINITIONS| - i
  {
    if i == |DEFINITIONS| then None
    else if SameText(name, DEFINITIONS[i].name) then Some(DEFINITIONS[i])
    else Defined(name, i + 1)
  }

  /** What a field specification means: a name and perhaps a parameter behind an equals sign. */
  function LookupOf(ps: Parsers, text: seq<Byte>): Lookup
  {
    var v := CString(text);
    var n := NameLength(v);
    var param := if n < |v| then Some(v[n + 1..]) else None;
    if SameText(v[..n], "HEX") then HexField(ps, param)
    else
      match (OutputLength(ps, param), Defined(v[..n], 0))
      case (None, _) => Fatal
      case (_, None) => Unknown
      case (Some(olen), Some(d)) => Known(Field(d.ftype, if d.maxLength != 0 then d.maxLength else olen, []))
  }

  lemma {:induction false} SameName(s: seq<Byte>, a: string, b: string)
    requires SameText(s, a) && SameText(s, b)
    ensures a == b
  {
    assert |a| == |b|;
    assert forall i :: 0 <= i < |a| ==> a[i] as int == s[i] == b[i] as int;
  }

  lemma {:induction false} NamesDiffer(i: nat, j: nat)
    requires i < |DEFINITIONS| && j < |DEFINITIONS| && DEFINITIONS[i].name == DEFINITIONS[j].name
    ensures i == j
  {
  }

  /** A name of the table finds its definition. */
  lemma {:induction false} NameFinds(name: seq<Byte>, k: nat)
    requires k < |DEFINITIONS| && SameText(name, DEFINITIONS[k].name)
    ensures Defined(name, 0) == Some(DEFINITIONS[k])
  {
    hide DEFINITIONS, SameText, Defined;
    var r := Defined(name, 0).value;
    var i :| 0 <= i < |DEFINITIONS| && r == DEFINITIONS[i];
    SameName(name, r.name, DEFINITIONS[k].name);
    NamesDiffer(i, k);
  }

  /** What each name stands for. */
  lemma {:induction false} NamesMean(name: seq<Byte>)
    ensures SameText(name, "SADDR_N") ==> Defined(name, 0) == Some(Definition("SADDR_N", SaddrN, 4))
    ensures SameText(name, "SADDR") ==> Defined(name, 0) == Some(Definition("SADDR", SaddrA, 15))
    ensures SameText(name, "DADDR_N") ==> Defined(name, 0) == Some(Definition("DADDR_N", DaddrN, 4))
    ensures SameText(name, "DADDR") ==> Defined(name, 0) == Some(Definition("DADDR", DaddrA, 15))
    ensures SameText(name, "SPORT_N") ==> Defined(name, 0) == Some(Definition("SPORT_N", SportN, 2))
    ensures SameText(name, "SPORT") ==> Defined(name, 0) == Some(Definition("SPORT", SportA, 5))
    ensures SameText(name, "DPORT_N") ==> Defined(name, 0) == Some(Definition("DPORT_N", DportN, 2))
    ensures SameText(name, "DPORT") ==> Defined(name, 0) == Some(Definition("DPORT", DportA, 5))
    ensures SameText(name, "RAND_BYTE") ==> Defined(name, 0) == Some(Definition("RAND_BYTE", RandByte, 0))
    ensures SameText(name, "RAND_DIGIT") ==> Defined(name, 0) == Some(Definition("RAND_DIGIT", RandDigit, 0))
    ensures SameText(name, "RAND_ALPHA") ==> Defined(name, 0) == Some(Definition("RAND_ALPHA", RandAlpha, 0))
    ensures SameText(name, "RAND_ALPHANUM") ==> Defined(name, 0) == Some(Definition("RAND_ALPHANUM", RandAlphanum, 0))
    ensures SameText(name, "UNIXTIME_SEC") ==> Defined(name, 0) == Some(Definition("UNIXTIME_SEC", UnixSec, 4))
    ensures SameText(name, "UNIXTIME_USEC") ==> Defined(name, 0) == Some(Definition("UNIXTIME_USEC", UnixUsec, 4))
  {
    hide SameText, Defined;
    forall k: nat | k < |DEFINITIONS| && SameText(name, DEFINITIONS[k].name)
      ensures Defined(name, 0) == Some(DEFINITIONS[k])
    {
      NameFinds(name, k);
    }
    assert |DEFINITIONS| == 15;
    assert DEFINITIONS[0].name == "SADDR_N" && DEFINITIONS[1].name == "SADDR" && DEFINITIONS[2].name == "DADDR_N";
    assert DEFINITIONS[3].name == "DADDR" && DEFINITIONS[4].name == "SPORT_N" && DEFINITIONS[5].name == "SPORT";
    assert DEFINITIONS[6].name == "DPORT_N" && DEFINITIONS[7].name == "DPORT" && DEFINITIONS[8].name == "RAND_BYTE";
    assert DEFINITIONS[9].name == "RAND_DIGIT" && DEFINITIONS[10].name == "RAND_ALPHA";
    assert DEFINITIONS[11].name == "RAND_ALPHANUM" && DEFINITIONS[13].name == "UNIXTIME_SEC";
    assert DEFINITIONS[14].name == "UNIXTIME_USEC";
  }

  /** The i-th pair of digits gives the i-th byte. */
  lemma {:induction false} PairAt(ps: Parsers, param: seq<Byte>, i: nat, k: nat)
    requires i <= k < |param| / 2 && Pairs(ps, param, i).Some?
    ensures ps.pair(param[2 * k..]) == Some(Pairs(ps, param, i).value[k - i])
    decreases k - i
  {
    if i < k { PairAt(ps, param, i + 1, k); }
  }

  lemma {:induction false} SplitAtEquals(name: seq<Byte>, param: seq<Byte>)
    requires EQUALS !in name && 0 !in name && 0 !in param
    ensures var text := name + [EQUALS] + param;
            CString(text) == text && NameLength(text) == |name| && text[..|name|] == name && text[|name| + 1..] == param
  {
    var text := name + [EQUALS] + param;
    CStringWhole(text);
    var n := NameLength(text);
    assert text[|name|] == EQUALS;
    assert forall i :: 0 <= i < |name| ==> text[i] == name[i];
  }

  /** A random field with a length: the name settles the kind, the parameter the number of characters. */
  lemma {:induction false} RandomLength(ps: Parsers, name: seq<Byte>, param: seq<Byte>, k: nat, n: nat)
    requires EQUALS !in name && 0 !in name && 0 !in param && param != [] && n <= MAX_UDP_PAYLOAD_LEN
    requires k < |DEFINITIONS| && SameText(name, DEFINITIONS[k].name) && DEFINITIONS[k].maxLength == 0
    requires DEFINITIONS[k].name != "HEX" && ps.length(param) == Some(n)
    ensures LookupOf(ps, name + [EQUALS] + param) == Known(Field(DEFINITIONS[k].ftype, n, []))
  {
    hide DEFINITIONS, CString, NameLength, SameText, Defined;
    SplitAtEquals(name, param);
    NameFinds(name, k);
    if SameText(name, "HEX") {
      SameName(name, "HEX", DEFINITIONS[k].name);
    }
  }

  /** A HEX field: byte i is the i-th pair of digits of the parameter. */
  lemma {:induction false} HexBytes(ps: Parsers, name: seq<Byte>, param: seq<Byte>, bytes: seq<Byte>)
    requires SameText(name, "HEX") && EQUALS !in name && 0 !in name && 0 !in param && |bytes| == |param| / 2
    requires forall i :: 0 <= i < |bytes| ==> ps.pair(param[2 * i..]) == Some(bytes[i])
    ensures LookupOf(ps, name + [EQUALS] + param) == Known(Field(Hex, |bytes|, bytes))
  {
    SplitAtEquals(name, param);
    PairsAre(ps, param, bytes, 0);
    hide CString, NameLength, SameText, Defined, Pairs;
    assert bytes[0..] == bytes;
  }

  lemma {:induction false} PairsAre(ps: Parsers, param: seq<Byte>, bytes: seq<Byte>, i: nat)
    requires |bytes| == |param| / 2 && i <= |bytes|
    requires forall k :: 0 <= k < |bytes| ==> ps.pair(param[2 * k..]) == Some(bytes[k])
    ensures Pairs(ps, param, i) == Some(bytes[i..])
    decreases |bytes| - i
  {
    if i < |bytes| {
      PairsAre(ps, param, bytes, i + 1);
      assert [bytes[i]] + bytes[i + 1..] == bytes[i..];
    }
  }

  /** Every definition but HEX has the size the builder uses. */
  lemma {:induction false} DefinitionsFit(k: nat)
    requires k < |DEFINITIONS|
    ensures var d := DEFINITIONS[k];
            match OwnSize(d.ftype)
            case Some(n) => d.maxLength == n && n != 0
            case None => d.maxLength == 0 && d.ftype != Data && (d.ftype == Hex ==> d.name == "HEX")
  {
  }

  /** A field found is a field the builder can lay out. */
  lemma {:induction false} LookupValid(ps: Parsers, text: seq<Byte>)
    requires LookupOf(ps, text).Known?
    ensures var f := LookupOf(ps, text).field; ValidField(f) && f.ftype != Data
  {
    hide DEFINITIONS, CString;
    var v := CString(text);
    var n := NameLength(v);
    if !SameText(v[..n], "HEX") {
      var d := Defined(v[..n], 0).value;
      var k :| 0 <= k < |DEFINITIONS| && d == DEFINITIONS[k];
      DefinitionsFit(k);
    }
  }

  function Before(front: seq<Byte>, rest: Option<seq<Byte>>): Option<seq<Byte>>
  {
    match rest
    case None => None
    case Some(back) => Some(front + back)
  }

  /** The loop over the digits of a HEX field. */
  method ReadPairs(ps: Parsers, param: seq<Byte>) returns (r: Option<seq<Byte>>)
    ensures r == Pairs(ps, param, 0)
  {
    var data: seq<Byte> := [];
    assert Pairs(ps, param, 0).Some? ==> [] + Pairs(ps, param, 0).value == Pairs(ps, param, 0).value;
    for i := 0 to |param| / 2
      invariant Before(data, Pairs(ps, param, i)) == Pairs(ps, param, 0)
    {
      var n := ps.pair(param[2 * i..]);
      if n.None? { return None; }
      if Pairs(ps, param, i + 1).Some? {
        assert data + ([n.value] + Pairs(ps, param, i + 1).value) == data + [n.value] + Pairs(ps, param, i + 1).value;
      }
      data := data + [n.value];
    }
    assert data + [] == data;
    return Some(data);
  }

  /** udp_template_field_lookup. */
  method FieldLookup(ps: Parsers, text: seq<Byte>) returns (r: Lookup)
    ensures r == LookupOf(ps, text)
  {
    hide DEFINITIONS, CString;
    var v := CString(text);
    var n := NameLength(v);
    var param := if n < |v| then Some(v[n + 1..]) else None;
    if SameText(v[..n], "HEX") {
      if param.None? { return Fatal; }
      var data := ReadPairs(ps, param.value);
      return if data.None? then Fatal else Known(Field(Hex, |data.value|, data.value));
    }
    var olen := OutputLength(ps, param);
    if olen.None? { return Fatal; }
    for k := 0 to |DEFINITIONS|
      invariant Defined(v[..n], k) == Defined(v[..n], 0)
    {
      var d := DEFINITIONS[k];
      if SameText(v[..n], d.name) {
        return Known(Field(d.ftype, if d.maxLength != 0 then d.maxLength else olen.value, []));
      }
    }
    return Unknown;
  }
}
