/** src/probe_modules/module_dns.c, get_name_helper and get_name: names in a response, with compression
    pointers, written into a bounded buffer. */
module DnsDecode {

  import opened CBytes
  import opened DnsName

  /** Bad stands for the zero the source returns on any failure. */
  datatype Name = Bad | Good(consumed: nat, text: seq<Byte>)

  function Dot(b: bool): seq<Byte>
  {
    if b then [DOT] else []
  }

  /** The offset a pointer gives: the low two bits of its first byte and its second byte. */
  function Offset(data: seq<Byte>): nat
    requires 2 <= |data|
  {
    var high: nat := data[0];
    high % 4 * 256 + data[1]
  }

  /** What get_name_helper writes and returns at a recursion level: nothing outside the input, at least one
      byte consumed, and never more text than there is room for. */
  function Decode(data: seq<Byte>, payload: seq<Byte>, room: nat, level: nat): (r: Name)
    ensures r.Good? ==> 1 <= r.consumed <= |data| && |r.text| <= room
    decreases MAX_LABEL_RECURSION + 1 - level, |data| + 1
  {
    if data == [] || room == 0 || payload == [] || level > MAX_LABEL_RECURSION then Bad
    else Labels(data, payload, room, level, 0)
  }

  /** Its loop, once `done` bytes are consumed. The loop is never left by running out of data. */
  function Labels(data: seq<Byte>, payload: seq<Byte>, room: nat, level: nat, done: nat): (r: Name)
    requires data != [] && level <= MAX_LABEL_RECURSION
    ensures r.Good? ==> done < r.consumed <= done + |data| && |r.text| <= room
    decreases MAX_LABEL_RECURSION + 1 - level, |data|
  {
    var byte := data[0];
    if byte >= 0xc0 then
      Pointer(data, payload, room, level, done)
    else if byte == 0 then
      Good(done + 1, [])
    else if byte + 1 > |data| - 1 then
      Bad
    else
      var dot := Dot(done > 0);
      if |dot| + byte > room then Bad
      else
        match Labels(data[1 + byte..], payload, room - |dot| - byte, level, done + 1 + byte)
        case Bad => Bad
        case Good(c, t) => Good(c, dot + data[1..1 + byte] + t)
  }

  /** A pointer ends the name: the rest is read elsewhere in the payload, one level deeper. */
  function Pointer(data: seq<Byte>, payload: seq<Byte>, room: nat, level: nat, done: nat): (r: Name)
    requires data != [] && data[0] >= 0xc0 && level <= MAX_LABEL_RECURSION
    ensures r.Good? ==> done < r.consumed <= done + |data| && |r.text| <= room
    decreases MAX_LABEL_RECURSION + 1 - level, |data|, 0
  {
    if |data| < 2 || Offset(data) >= |payload| then Bad
    else
      var dot := Dot(level > 0 || done > 0);
      if |dot| > room then Bad
      else
        match Decode(payload[Offset(data)..], payload, room - |dot|, level + 1)
        case Bad => Bad
        case Good(_, t) => Good(done + 2, dot + t)
  }

  /** How the loop reads a label. */
  lemma {:induction false} LabelAt(data: seq<Byte>, payload: seq<Byte>, room: nat, level: nat, done: nat)
    requires data != [] && 0 < data[0] < 0xc0 && level <= MAX_LABEL_RECURSION
    ensures Labels(data, payload, room, level, done) ==
            var n, dot := data[0], Dot(done > 0);
            if 1 + n >= |data| || |dot| + n > room then Bad
            else
              match Labels(data[1 + n..], payload, room - |dot| - n, level, done + 1 + n)
              case Bad => Bad
              case Good(c, t) => Good(c, dot + data[1..1 + n] + t)
  {
    hide Pointer, Decode;
  }

  /** How it follows a pointer. */
  lemma {:induction false} PointerAt(data: seq<Byte>, payload: seq<Byte>, room: nat, level: nat, done: nat)
    requires data != [] && data[0] >= 0xc0 && level <= MAX_LABEL_RECURSION
    ensures Labels(data, payload, room, level, done) ==
            var dot := Dot(level > 0 || done > 0);
            if |data| < 2 || Offset(data) >= |payload| || |dot| >= room || level == MAX_LABEL_RECURSION then Bad
            else
              match Labels(payload[Offset(data)..], payload, room - |dot|, level + 1, 0)
              case Bad => Bad
              case Good(_, t) => Good(done + 2, dot + t)
  {
    PointerBranch(data, payload, room, level, done);
    hide Offset, Labels, Decode;
    var dot := Dot(level > 0 || done > 0);
    if 2 <= |data| && Offset(data) < |payload| && |dot| <= room {
      DecodeIs(payload[Offset(data)..], payload, room - |dot|, level + 1);
    }
  }

  lemma {:induction false} PointerBranch(data: seq<Byte>, payload: seq<Byte>, room: nat, level: nat, done: nat)
    requires data != [] && data[0] >= 0xc0 && level <= MAX_LABEL_RECURSION
    ensures Labels(data, payload, room, level, done) == Pointer(data, payload, room, level, done)
  {
    hide Pointer, Decode;
  }

  lemma {:induction false} DecodeIs(data: seq<Byte>, payload: seq<Byte>, room: nat, level: nat)
    ensures Decode(data, payload, room, level) ==
            if data == [] || room == 0 || payload == [] || level > MAX_LABEL_RECURSION then Bad
            else Labels(data, payload, room, level, 0)
  {
    hide Labels;
  }

  // ---------- The round trip ----------

  /** Every label of d has at least one and at most n bytes. */
  predicate LabelsWithin(d: seq<Byte>, n: nat)
    decreases |d|
  {
    var k := FirstLabel(d);
    1 <= k <= n && (k < |d| ==> LabelsWithin(d[k + 1..], n))
  }

  /** One label in front: how the loop reads it. */
  lemma {:induction false} LabelStep(data: seq<Byte>, lab: seq<Byte>, rest: seq<Byte>, payload: seq<Byte>, room: nat,
                                     level: nat, done: nat)
    requires 1 <= |lab| < 0xc0 && rest != [] && level <= MAX_LABEL_RECURSION
    requires data == [|lab|] + lab + rest
    ensures Labels(data, payload, room, level, done) ==
            var dot := Dot(done > 0);
            if |dot| + |lab| > room then Bad
            else
              match Labels(rest, payload, room - |dot| - |lab|, level, done + 1 + |lab|)
              case Bad => Bad
              case Good(c, t) => Good(c, dot + lab + t)
  {
    hide Labels;
    assert data[1..1 + |lab|] == lab && data[1 + |lab|..] == rest;
    LabelAt(data, payload, room, level, done);
  }

  /** What follows the first label of an encoded name: the rest of the name, or the root. */
  function AfterFirst(d: seq<Byte>): (rest: seq<Byte>)
    ensures rest != []
  {
    if FirstLabel(d) == |d| then [0] else Encode(d[FirstLabel(d) + 1..])
  }

  lemma {:induction false} EncodeShape(d: seq<Byte>, tail: seq<Byte>)
    ensures Encode(d) + tail == [FirstLabel(d) % 256] + d[..FirstLabel(d)] + (AfterFirst(d) + tail)
  {
    hide FirstLabel;
    var k := FirstLabel(d);
    if k == |d| {
      assert Encode(d) == [k % 256] + d[..k] + [0];
    } else {
      assert Encode(d) == [k % 256] + d[..k] + Encode(d[k + 1..]);
    }
  }

  lemma {:induction false} SplitText(d: seq<Byte>, dot: seq<Byte>)
    ensures FirstLabel(d) == |d| ==> dot + d[..FirstLabel(d)] + [] == dot + d
    ensures FirstLabel(d) < |d| ==> dot + d[..FirstLabel(d)] + ([DOT] + d[FirstLabel(d) + 1..]) == dot + d
  {
    hide FirstLabel;
    var k := FirstLabel(d);
    if k < |d| {
      assert d == d[..k] + ([DOT] + d[k + 1..]);
    }
  }

  /** An encoded name, whatever bytes follow it, decodes to its text. */
  lemma {:induction false} EncodedDecodes(d: seq<Byte>, tail: seq<Byte>, payload: seq<Byte>, room: nat, level: nat,
                                          done: nat)
    requires LabelsWithin(d, 0xbf) && level <= MAX_LABEL_RECURSION && |Dot(done > 0)| + |d| <= room
    ensures Labels(Encode(d) + tail, payload, room, level, done) == Good(done + |d| + 2, Dot(done > 0) + d)
    decreases |d|
  {
    hide Pointer, Decode, Labels, EncodeOpen, Encode, FirstLabel;
    var k := FirstLabel(d);
    EncodeShape(d, tail);
    SplitText(d, Dot(done > 0));
    LabelStep(Encode(d) + tail, d[..k], AfterFirst(d) + tail, payload, room, level, done);
    if k == |d| {
      Root(AfterFirst(d) + tail, payload, room - |Dot(done > 0)| - k, level, done + 1 + k);
    } else {
      EncodedDecodes(d[k + 1..], tail, payload, room - |Dot(done > 0)| - k, level, done + 1 + k);
    }
  }

  lemma {:induction false} Root(data: seq<Byte>, payload: seq<Byte>, room: nat, level: nat, done: nat)
    requires data != [] && data[0] == 0 && level <= MAX_LABEL_RECURSION
    ensures Labels(data, payload, room, level, done) == Good(done + 1, [])
  {
    hide Pointer, Decode;
  }

  /** Once bytes are consumed, whatever follows but the root begins with a dot. */
  lemma {:induction false} StartsWithDot(data: seq<Byte>, payload: seq<Byte>, room: nat, level: nat, done: nat)
    requires data != [] && data[0] != 0 && level <= MAX_LABEL_RECURSION && done > 0
    ensures var r := Labels(data, payload, room, level, done);
            r.Good? ==> r.text != [] && r.text[0] == DOT
  {
    hide Decode;
  }

  /** A pointer consumes two bytes in all, and the root one. */
  lemma {:induction false} ShortEnds(data: seq<Byte>, payload: seq<Byte>, room: nat, level: nat, done: nat)
    requires data != [] && level <= MAX_LABEL_RECURSION
    ensures var r := Labels(data, payload, room, level, done);
            && (r.Good? && data[0] >= 0xc0 ==> r.consumed == done + 2)
            && (data[0] == 0 ==> r.Good? && r.consumed == done + 1)
  {
    hide Decode;
  }

  lemma {:induction false} SplitBack(d: seq<Byte>, k: nat, dot: seq<Byte>, t: seq<Byte>)
    requires k <= |d| && dot + d[..k] + t == dot + d
    ensures t == d[k..]
  {
    var n := |dot| + k;
    assert (dot + d[..k] + t)[n..] == t;
    assert (dot + d)[n..] == d[k..];
  }

  /** A label longer than a length byte can say is cut short, and the cut shows as a dot. */
  lemma {:induction false} LongLabelLost(d: seq<Byte>, tail: seq<Byte>, payload: seq<Byte>, room: nat, level: nat,
                                         done: nat, k: nat, byte: nat)
    requires 0 !in d && level <= MAX_LABEL_RECURSION
    requires k == FirstLabel(d) && byte == k % 256 && 1 <= byte < 0xc0 && byte < k
    ensures Labels(Encode(d) + tail, payload, room, level, done) != Good(done + |d| + 2, Dot(done > 0) + d)
  {
    hide Pointer, Decode, Labels, EncodeOpen, Encode, FirstLabel;
    var data := Encode(d) + tail;
    var rest := d[byte..k] + (AfterFirst(d) + tail);
    EncodeShape(d, tail);
    assert data == [byte] + d[..byte] + rest;
    LabelStep(data, d[..byte], rest, payload, room, level, done);
    if Labels(data, payload, room, level, done) == Good(done + |d| + 2, Dot(done > 0) + d) {
      var dot := Dot(done > 0);
      var r := Labels(rest, payload, room - |dot| - byte, level, done + 1 + byte);
      assert rest[0] == d[byte] && d[byte] != DOT;
      assert d[byte] in d;
      StartsWithDot(rest, payload, room - |dot| - byte, level, done + 1 + byte);
      SplitBack(d, byte, dot, r.text);
      assert false;
    }
  }

  lemma {:induction false} ReturnedOnlyIfWithin(d: seq<Byte>, tail: seq<Byte>, payload: seq<Byte>, room: nat,
                                                level: nat, done: nat)
    requires 0 !in d && level <= MAX_LABEL_RECURSION
    requires Labels(Encode(d) + tail, payload, room, level, done) == Good(done + |d| + 2, Dot(done > 0) + d)
    ensures LabelsWithin(d, 0xbf)
    decreases |d|
  {
    hide Pointer, Decode, Labels, EncodeOpen, Encode, FirstLabel;
    var k := FirstLabel(d);
    var data := Encode(d) + tail;
    EncodeShape(d, tail);
    assert data[0] == k % 256;
    ShortEnds(data, payload, room, level, done);
    if k % 256 < k {
      LongLabelLost(d, tail, payload, room, level, done, k, k % 256);
    } else if k < |d| {
      var dot := Dot(done > 0);
      LabelStep(data, d[..k], AfterFirst(d) + tail, payload, room, level, done);
      var r := Labels(AfterFirst(d) + tail, payload, room - |dot| - k, level, done + 1 + k);
      SplitBack(d, k, dot, r.text);
      assert d[k..] == [DOT] + d[k + 1..];
      ReturnedOnlyIfWithin(d[k + 1..], tail, payload, room - |dot| - k, level, done + 1 + k);
    }
  }

  /** The name read back from its own wire form is the text that was encoded, and all its bytes are consumed,
      exactly when every label has 1 to 191 bytes and the text fits. A pointer byte starts at 192. */
  lemma {:induction false} RoundTripIff(d: seq<Byte>, tail: seq<Byte>, payload: seq<Byte>, room: nat)
    requires 0 !in d && payload != [] && room > 0
    ensures Decode(Encode(d) + tail, payload, room, 0) == Good(|d| + 2, d) <==>
            LabelsWithin(d, 0xbf) && |d| <= room
  {
    hide Labels, Pointer, EncodeOpen, Encode, FirstLabel;
    assert Dot(false) + d == d;
    if LabelsWithin(d, 0xbf) && |d| <= room {
      EncodedDecodes(d, tail, payload, room, 0, 0);
    }
    if Decode(Encode(d) + tail, payload, room, 0) == Good(|d| + 2, d) {
      ReturnedOnlyIfWithin(d, tail, payload, room, 0, 0);
    }
  }
}
