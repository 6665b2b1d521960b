/** src/probe_modules/module_dns.c: the name reader over its output buffer. */
module DnsReader {

  import opened CBytes
  import opened DnsName
  import opened DnsDecode

  /** The text already written in front of what is still to come. */
  function Behind(written: seq<Byte>, r: Name): Name
  {
    match r
    case Bad => Bad
    case Good(c, t) => Good(c, written + t)
  }

  /** The buffer after a read at position `at`: the decoded text there and nothing changed elsewhere; after a
      failure, nothing changed outside the room. */
  ghost predicate Stored(r: Name, now: seq<Byte>, before: seq<Byte>, at: nat, room: nat)
    requires at + room <= |before|
  {
    && |now| == |before|
    && (forall k :: 0 <= k < |now| && (k < at || at + room <= k) ==> now[k] == before[k])
    && (r.Good? ==>
          && at + |r.text| <= |now|
          && now[at..at + |r.text|] == r.text
          && forall k :: at + |r.text| <= k < |now| ==> now[k] == before[k])
  }

  /** Where the loop stands: `written` lies before p, the rest of the buffer is as it was. */
  ghost predicate Written(now: seq<Byte>, before: seq<Byte>, at: nat, p: nat, written: seq<Byte>)
  {
    && |now| == |before| && at <= p <= |now|
    && now[at..p] == written
    && forall k :: 0 <= k < |now| && (k < at || p <= k) ==> now[k] == before[k]
  }

  lemma {:induction false} WrittenMore(now: seq<Byte>, next: seq<Byte>, before: seq<Byte>, at: nat, p: nat,
                                       written: seq<Byte>, more: seq<Byte>)
    requires Written(now, before, at, p, written) && p + |more| <= |now|
    requires next == now[..p] + more + now[p + |more|..]
    ensures Written(next, before, at, p + |more|, written + more)
  {
    assert next[at..p + |more|] == now[at..p] + more;
  }

  lemma {:induction false} StoredFromWritten(now: seq<Byte>, before: seq<Byte>, at: nat, p: nat, room: nat, r: Name)
    requires at + room <= |before| && at <= p <= at + room && r.Good?
    requires Written(now, before, at, p, r.text)
    ensures Stored(r, now, before, at, room)
  {
  }

  /** Copying bytes into the buffer at p. */
  method Copy(name: array<Byte>, p: nat, bytes: seq<Byte>)
    requires p + |bytes| <= name.Length
    modifies name
    ensures name[..] == old(name[..p]) + bytes + old(name[p + |bytes|..])
  {
    forall k | 0 <= k < |bytes| { name[p + k] := bytes[k]; }
  }

  lemma {:induction false} StoredBehind(now: seq<Byte>, mid: seq<Byte>, before: seq<Byte>, at: nat, p: nat, room: nat,
                                        written: seq<Byte>, r: Name)
    requires at + room <= |before| && at <= p <= at + room
    requires Written(mid, before, at, p, written)
    requires Stored(r, now, mid, p, at + room - p)
    ensures Stored(Behind(written, r), now, before, at, room)
  {
    if r.Good? {
      var n := |written| + |r.text|;
      assert now[at..p] == written;
      assert now[at..at + n] == now[at..p] + now[p..p + |r.text|];
    }
  }

  lemma {:induction false} WrittenNothing(before: seq<Byte>, at: nat)
    requires at <= |before|
    ensures Written(before, before, at, at, [])
  {
  }

  lemma {:induction false} BehindBehind(x: seq<Byte>, y: seq<Byte>, r: Name)
    ensures Behind(x, Behind(y, r)) == Behind(x + y, r)
  {
    if r.Good? { assert x + (y + r.text) == x + y + r.text; }
  }

  /** A pointer that can be followed puts a dot and what it leads to behind what is written. */
  lemma {:induction false} PointerIs(data: seq<Byte>, payload: seq<Byte>, room: nat, level: nat, done: nat)
    requires data != [] && data[0] >= 0xc0 && level <= MAX_LABEL_RECURSION
    ensures var dot, p := Dot(level > 0 || done > 0), Pointer(data, payload, room, level, done);
            if |data| < 2 || Offset(data) >= |payload| || |dot| > room then p == Bad
            else
              var r := Behind(dot, Decode(payload[Offset(data)..], payload, room - |dot|, level + 1));
              p.Good? == r.Good? && (p.Good? ==> p.text == r.text && p.consumed == done + 2)
  {
    hide Decode, Labels, Offset;
  }

  /** get_name_helper's pointer branch. */
  method ReadPointer(data: seq<Byte>, payload: seq<Byte>, name: array<Byte>, at: nat, room: nat, level: nat, done: nat)
    returns (consumed: nat)
    requires data != [] && data[0] >= 0xc0 && level <= MAX_LABEL_RECURSION && at + room <= name.Length
    modifies name
    ensures var r := Pointer(data, payload, room, level, done);
            && consumed == (if r.Good? then r.consumed else 0)
            && Stored(r, name[..], old(name[..]), at, room)
    decreases MAX_LABEL_RECURSION + 1 - level, |data|, 0
  {
    hide Decode, Labels, Written, Stored, Offset, Pointer;
    ghost var before := name[..];
    StoredBad(name[..], at, room);
    PointerIs(data, payload, room, level, done);
    if |data| < 2 { return 0; }
    var offset := Offset(data);
    if offset >= |payload| { return 0; }
    var p := at;
    WrittenNothing(before, at);
    var dot := Dot(level > 0 || done > 0);
    if |dot| > room { return 0; }
    Copy(name, p, dot);
    WrittenMore(before, name[..], before, at, p, [], dot);
    p := p + |dot|;
    assert [] + dot == dot;
    ghost var mid := name[..];
    var rec := GetNameHelper(payload[offset..], payload, name, p, room - |dot|, level + 1);
    ghost var r := Decode(payload[offset..], payload, room - |dot|, level + 1);
    StoredBehind(name[..], mid, before, at, p, room, dot, r);
    consumed := if rec == 0 then 0 else done + 2;
    StoredSame(Behind(dot, r), Pointer(data, payload, room, level, done), name[..], before, at, room);
  }

  lemma {:induction false} StoredBad(before: seq<Byte>, at: nat, room: nat)
    requires at + room <= |before|
    ensures Stored(Bad, before, before, at, room)
  {
  }

  lemma {:induction false} StoredSame(r: Name, r': Name, now: seq<Byte>, before: seq<Byte>, at: nat, room: nat)
    requires at + room <= |before| && Stored(r, now, before, at, room)
    requires r.Good? == r'.Good? && (r.Good? ==> r.text == r'.text)
    ensures Stored(r', now, before, at, room)
  {
  }

  lemma {:induction false} StoredBehindBad(mid: seq<Byte>, before: seq<Byte>, at: nat, p: nat, room: nat,
                                           written: seq<Byte>)
    requires at + room <= |before| && at <= p <= at + room
    requires Written(mid, before, at, p, written)
    ensures Stored(Bad, mid, before, at, room)
  {
  }

  /** Whether the label in front is all there, with a byte behind it, and fits. */
  predicate LabelFits(d: seq<Byte>, left: nat, done: nat)
    requires d != []
  {
    d[0] + 1 <= |d| - 1 && |Dot(done > 0)| + d[0] <= left
  }

  lemma {:induction false} LabelsCases(d: seq<Byte>, payload: seq<Byte>, left: nat, level: nat, done: nat)
    requires d != [] && level <= MAX_LABEL_RECURSION
    ensures var r := Labels(d, payload, left, level, done);
            if d[0] >= 0xc0 then r == Pointer(d, payload, left, level, done)
            else if d[0] == 0 then r == Good(done + 1, [])
            else if !LabelFits(d, left, done) then r == Bad
            else
              var n := |Dot(done > 0)| + d[0];
              r == Behind(Dot(done > 0) + d[1..1 + d[0]],
                          Labels(d[1 + d[0]..], payload, left - n, level, done + 1 + d[0]))
  {
    hide Pointer, Decode;
  }

  /** get_name_helper's label branch: the dot goes in before the length of the label is tested. */
  method ReadLabel(d: seq<Byte>, name: array<Byte>, at: nat, p: nat, left: nat, done: nat,
                   ghost before: seq<Byte>, ghost written: seq<Byte>) returns (ok: bool)
    requires d != [] && at <= p && p + left <= |before| && Written(name[..], before, at, p, written)
    modifies name
    ensures ok == LabelFits(d, left, done)
    ensures ok ==> var more := Dot(done > 0) + d[1..1 + d[0]];
                   Written(name[..], before, at, p + |more|, written + more)
    ensures !ok ==> Stored(Bad, name[..], before, at, p + left - at)
  {
    hide Written, Stored;
    ghost var mid := name[..];
    WrittenSize(mid, before, at, p, written);
    StoredBehindBad(mid, before, at, p, p + left - at, written);
    var byte := d[0];
    if byte + 1 > |d| - 1 { return false; }
    var dot := Dot(done > 0);
    if |dot| > left { return false; }
    Copy(name, p, dot);
    WrittenMore(mid, name[..], before, at, p, written, dot);
    ghost var dotted := name[..];
    StoredBehindBad(dotted, before, at, p + |dot|, p + left - at, written + dot);
    if byte > left - |dot| { return false; }
    Copy(name, p + |dot|, d[1..1 + byte]);
    WrittenMore(dotted, name[..], before, at, p + |dot|, written + dot, d[1..1 + byte]);
    assert written + dot + d[1..1 + byte] == written + (dot + d[1..1 + byte]);
    ok := true;
  }

  lemma {:induction false} WrittenSize(now: seq<Byte>, before: seq<Byte>, at: nat, p: nat, written: seq<Byte>)
    requires Written(now, before, at, p, written)
    ensures |now| == |before|
  {
  }

  /** get_name_helper: labels are copied one after another, a pointer or the root ends the name. */
  method GetNameHelper(data: seq<Byte>, payload: seq<Byte>, name: array<Byte>, at: nat, room: nat, level: nat)
    returns (consumed: nat)
    requires at + room <= name.Length
    modifies name
    ensures var r := Decode(data, payload, room, level);
            && consumed == (if r.Good? then r.consumed else 0)
            && Stored(r, name[..], old(name[..]), at, room)
    decreases MAX_LABEL_RECURSION + 1 - level, |data| + 1
  {
    hide Written, Stored, Labels, Pointer;
    ghost var before := name[..];
    WrittenNothing(before, at);
    StoredBad(before, at, room);
    if data == [] || room == 0 || payload == [] || level > MAX_LABEL_RECURSION { return 0; }
    var d := data;
    var p: nat, left: nat, done: nat := at, room, 0;
    ghost var written: seq<Byte> := [];
    while true
      invariant d != [] && |d| <= |data| && p + left == at + room && at <= p
      invariant Written(name[..], before, at, p, written)
      invariant Decode(data, payload, room, level) == Behind(written, Labels(d, payload, left, level, done))
      decreases |d|
    {
      LabelsCases(d, payload, left, level, done);
      ghost var mid := name[..];
      if d[0] >= 0xc0 {
        consumed := ReadPointer(d, payload, name, p, left, level, done);
        StoredBehind(name[..], mid, before, at, p, room, written, Pointer(d, payload, left, level, done));
        return;
      } else if d[0] == 0 {
        assert written + [] == written;
        StoredFromWritten(name[..], before, at, p, room, Good(done + 1, written));
        return done + 1;
      }
      var ok := ReadLabel(d, name, at, p, left, done, before, written);
      if !ok { return 0; }
      ghost var more := Dot(done > 0) + d[1..1 + d[0]];
      var n := |Dot(done > 0)| + d[0];
      BehindBehind(written, more, Labels(d[1 + d[0]..], payload, left - n, level, done + 1 + d[0]));
      written := written + more;
      p, left, done, d := p + n, left - n, done + 1 + d[0], d[1 + d[0]..];
    }
  }
}
