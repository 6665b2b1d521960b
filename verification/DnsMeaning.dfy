/** What a name in a message means, by section 3.1 and section 4.1.4 of RFC 1035, and when the decoder of
    src/probe_modules/module_dns.c returns it. */
module DnsMeaning {

  import opened CBytes
  import opened DnsName
  import opened DnsDecode

  /** Malformed, or the labels a name stands for and the bytes it takes where it begins. */
  datatype Wire = Malformed | Wire(consumed: nat, labels: seq<seq<Byte>>)

  /** The offset of a pointer has 14 bits. */
  function Target(data: seq<Byte>): nat
    requires 2 <= |data| && data[0] >= 0xc0
  {
    var high: nat := data[0];
    (high - 0xc0) * 0x100 + data[1]
  }

  /** Reading a name: a label has a length byte of 1 to 63, the root a zero, a pointer the two top bits set.
      At most `hops` pointers are followed, so that a loop of pointers has no meaning. */
  function Meaning(data: seq<Byte>, payload: seq<Byte>, hops: nat): (w: Wire)
    ensures w.Wire? ==> 1 <= w.consumed <= |data|
    decreases hops, |data|
  {
    if data == [] then Malformed
    else if data[0] == 0 then Wire(1, [])
    else if data[0] < 0x40 then
      var n := data[0];
      if n >= |data| - 1 then Malformed
      else
        match Meaning(data[1 + n..], payload, hops)
        case Malformed => Malformed
        case Wire(c, ls) => Wire(1 + n + c, [data[1..1 + n]] + ls)
    else if data[0] < 0xc0 || |data| < 2 || hops == 0 || Target(data) >= |payload| then Malformed
    else
      match Meaning(payload[Target(data)..], payload, hops - 1)
      case Malformed => Malformed
      case Wire(_, ls) => Wire(2, ls)
  }

  /** The same reading with the decoder's sizes: labels of up to 191 bytes and pointers of 10 bits. */
  function Heard(data: seq<Byte>, payload: seq<Byte>, hops: nat): (w: Wire)
    ensures w.Wire? ==> 1 <= w.consumed <= |data|
    decreases hops, |data|
  {
    if data == [] then Malformed
    else if data[0] == 0 then Wire(1, [])
    else if data[0] < 0xc0 then
      var n := data[0];
      if n >= |data| - 1 then Malformed
      else
        match Heard(data[1 + n..], payload, hops)
        case Malformed => Malformed
        case Wire(c, ls) => Wire(1 + n + c, [data[1..1 + n]] + ls)
    else if |data| < 2 || hops == 0 || Offset(data) >= |payload| then Malformed
    else
      match Heard(payload[Offset(data)..], payload, hops - 1)
      case Malformed => Malformed
      case Wire(_, ls) => Wire(2, ls)
  }

  /** Each label behind a dot. */
  function Dotted(ls: seq<seq<Byte>>): seq<Byte>
  {
    if ls == [] then [] else [DOT] + ls[0] + Dotted(ls[1..])
  }

  /** The text of a name: its labels with dots between them. */
  function Text(ls: seq<seq<Byte>>): seq<Byte>
  {
    if ls == [] then [] else ls[0] + Dotted(ls[1..])
  }

  /** Every pointer followed has an offset of at most 10 bits, as the decoder takes it. */
  predicate Near(data: seq<Byte>, payload: seq<Byte>, hops: nat)
    requires Meaning(data, payload, hops).Wire?
    decreases hops, |data|
  {
    if data[0] == 0 then true
    else if data[0] < 0x40 then Near(data[1 + data[0]..], payload, hops)
    else data[0] < 0xc4 && Near(payload[Target(data)..], payload, hops - 1)
  }

  /** No pointer leads straight to another pointer, and none behind a label leads straight to the root.
      `inside` says that a pointer led here, `after` that a label was read here before. */
  predicate Plain(data: seq<Byte>, payload: seq<Byte>, hops: nat, inside: bool, after: bool)
    requires Heard(data, payload, hops).Wire?
    decreases hops, |data|
  {
    if data[0] == 0 then true
    else if data[0] < 0xc0 then Plain(data[1 + data[0]..], payload, hops, inside, true)
    else
      && (inside ==> after)
      && (after ==> payload[Offset(data)] != 0)
      && Plain(payload[Offset(data)..], payload, hops - 1, true, false)
  }

  lemma {:induction false} NearOffset(data: seq<Byte>)
    requires 2 <= |data| && 0xc0 <= data[0] < 0xc4
    ensures Offset(data) == Target(data)
  {
  }

  /** Where every pointer followed is near, the decoder's sizes make no difference. */
  lemma {:induction false} NearHeard(data: seq<Byte>, payload: seq<Byte>, hops: nat)
    requires Meaning(data, payload, hops).Wire? && Near(data, payload, hops)
    ensures Heard(data, payload, hops) == Meaning(data, payload, hops)
    decreases hops, |data|
  {
    if 1 <= data[0] < 0x40 {
      NearHeard(data[1 + data[0]..], payload, hops);
    } else if data[0] != 0 {
      NearOffset(data);
      NearHeard(payload[Target(data)..], payload, hops - 1);
    }
  }

  /** The text the decoder owes for the labels ls, when `after` says that labels were written before them. */
  function Owed(ls: seq<seq<Byte>>, after: bool): seq<Byte>
  {
    if after then Dotted(ls) else Text(ls)
  }

  lemma {:induction false} OwedStep(lab: seq<Byte>, ls: seq<seq<Byte>>, after: bool)
    ensures Owed([lab] + ls, after) == Dot(after) + lab + Owed(ls, true)
  {
    assert ([lab] + ls)[1..] == ls;
  }

  lemma {:induction false} OwedAfter(ls: seq<seq<Byte>>)
    ensures Owed(ls, true) == if ls == [] then [] else [DOT] + Owed(ls, false)
  {
    if ls != [] {
      assert [DOT] + ls[0] + Dotted(ls[1..]) == [DOT] + (ls[0] + Dotted(ls[1..]));
    }
  }

  /** From any point of a name: on a plain path the decoder gives exactly what it owes, if there is room; and
      every departure from a plain path costs it at least one byte too many. */
  ghost predicate Tracks(data: seq<Byte>, payload: seq<Byte>, room: nat, level: nat, done: nat)
    requires data != [] && level <= MAX_LABEL_RECURSION
    requires Heard(data, payload, MAX_LABEL_RECURSION - level).Wire?
  {
    var w := Heard(data, payload, MAX_LABEL_RECURSION - level);
    var owed := Owed(w.labels, done > 0);
    var plain := Plain(data, payload, MAX_LABEL_RECURSION - level, level > 0, done > 0);
    var r := Labels(data, payload, room, level, done);
    && (plain && |owed| <= room && (room > 0 || level > 0 || done > 0) ==> r == Good(done + w.consumed, owed))
    && (r.Good? ==> |owed| <= |r.text|)
    && (r.Good? && !plain ==> |owed| < |r.text|)
  }

  lemma {:induction false} TracksLabel(data: seq<Byte>, payload: seq<Byte>, room: nat, level: nat, done: nat)
    requires data != [] && 1 <= data[0] < 0xc0 && level <= MAX_LABEL_RECURSION
    requires Heard(data, payload, MAX_LABEL_RECURSION - level).Wire?
    requires var n := data[0]; var dot := Dot(done > 0);
             |dot| + n <= room ==> Tracks(data[1 + n..], payload, room - |dot| - n, level, done + 1 + n)
    ensures Tracks(data, payload, room, level, done)
  {
    hide Labels, Dotted, Text, Owed;
    var n := data[0];
    var rest := data[1 + n..];
    assert data == [n] + data[1..1 + n] + rest;
    LabelStep(data, data[1..1 + n], rest, payload, room, level, done);
    OwedStep(data[1..1 + n], Heard(rest, payload, MAX_LABEL_RECURSION - level).labels, done > 0);
  }

  lemma {:induction false} TracksPointer(data: seq<Byte>, payload: seq<Byte>, room: nat, level: nat, done: nat)
    requires data != [] && data[0] >= 0xc0 && level < MAX_LABEL_RECURSION
    requires Heard(data, payload, MAX_LABEL_RECURSION - level).Wire?
    requires var dot := Dot(level > 0 || done > 0);
             |dot| < room ==> Tracks(payload[Offset(data)..], payload, room - |dot|, level + 1, 0)
    ensures Tracks(data, payload, room, level, done)
  {
    hide Labels, Dotted, Text, Owed;
    var target := payload[Offset(data)..];
    PointerAt(data, payload, room, level, done);
    var ls := Heard(target, payload, MAX_LABEL_RECURSION - level - 1).labels;
    OwedAfter(ls);
    NoLabelsEmpty(target, payload, MAX_LABEL_RECURSION - level - 1);
    assert level > 0 && done == 0 ==> !Plain(data, payload, MAX_LABEL_RECURSION - level, level > 0, done > 0);
    assert done > 0 && Plain(data, payload, MAX_LABEL_RECURSION - level, level > 0, done > 0)
      ==> Plain(target, payload, MAX_LABEL_RECURSION - level - 1, true, false) && 1 <= target[0] < 0xc0;
  }

  /** No labels means no text, and a first label means some. */
  lemma {:induction false} NoLabelsEmpty(data: seq<Byte>, payload: seq<Byte>, hops: nat)
    requires Heard(data, payload, hops).Wire?
    ensures var ls := Heard(data, payload, hops).labels;
            && (data[0] == 0 ==> ls == []) && (ls == [] ==> Owed(ls, false) == [])
            && (1 <= data[0] < 0xc0 ==> ls != [] && Owed(ls, false) != [])
  {
  }

  lemma {:induction false} TracksAlways(data: seq<Byte>, payload: seq<Byte>, room: nat, level: nat, done: nat)
    requires payload != [] && level <= MAX_LABEL_RECURSION && data != []
    requires Heard(data, payload, MAX_LABEL_RECURSION - level).Wire?
    ensures Tracks(data, payload, room, level, done)
    decreases MAX_LABEL_RECURSION - level, |data|
  {
    hide Tracks, Labels, Owed, Dotted, Text, Plain;
    if data[0] == 0 {
      TracksRoot(data, payload, room, level, done);
    } else if data[0] < 0xc0 {
      var n := data[0];
      var dot := Dot(done > 0);
      if |dot| + n <= room {
        TracksAlways(data[1 + n..], payload, room - |dot| - n, level, done + 1 + n);
      }
      TracksLabel(data, payload, room, level, done);
    } else {
      var dot := Dot(level > 0 || done > 0);
      if |dot| < room {
        TracksAlways(payload[Offset(data)..], payload, room - |dot|, level + 1, 0);
      }
      TracksPointer(data, payload, room, level, done);
    }
  }

  lemma {:induction false} TracksRoot(data: seq<Byte>, payload: seq<Byte>, room: nat, level: nat, done: nat)
    requires data != [] && data[0] == 0 && level <= MAX_LABEL_RECURSION
    requires Heard(data, payload, MAX_LABEL_RECURSION - level).Wire?
    ensures Tracks(data, payload, room, level, done)
  {
    hide Pointer;
  }

  // ---------- How many pointers a name follows ----------

  /** The pointers on the way to the end of a name. */
  function Pointers(data: seq<Byte>, payload: seq<Byte>, hops: nat): (n: nat)
    requires Heard(data, payload, hops).Wire?
    ensures n <= hops
    decreases hops, |data|
  {
    if data[0] == 0 then 0
    else if data[0] < 0xc0 then Pointers(data[1 + data[0]..], payload, hops)
    else 1 + Pointers(payload[Offset(data)..], payload, hops - 1)
  }

  /** Being ready to follow more pointers than a name has changes nothing. */
  lemma {:induction false} HopsToSpare(data: seq<Byte>, payload: seq<Byte>, hops: nat, n: nat)
    requires Heard(data, payload, hops).Wire? && Pointers(data, payload, hops) <= n
    ensures Heard(data, payload, n) == Heard(data, payload, hops)
    ensures forall inside, after ::
              Plain(data, payload, n, inside, after) == Plain(data, payload, hops, inside, after)
    decreases hops, |data|
  {
    hide Offset;
    if 1 <= data[0] < 0xc0 {
      HopsToSpare(data[1 + data[0]..], payload, hops, n);
    } else if data[0] != 0 {
      HopsToSpare(payload[Offset(data)..], payload, hops - 1, n - 1);
    }
  }

  /** Whatever is decoded is heard, with at most as many pointers as there are levels left. */
  lemma {:induction false} DecodedIsHeard(data: seq<Byte>, payload: seq<Byte>, room: nat, level: nat, done: nat)
    requires data != [] && level <= MAX_LABEL_RECURSION && Labels(data, payload, room, level, done).Good?
    ensures var h := Heard(data, payload, MAX_LABEL_RECURSION - level);
            h.Wire? && Labels(data, payload, room, level, done).consumed == done + h.consumed
    decreases MAX_LABEL_RECURSION - level, |data|
  {
    hide Labels, Offset;
    if data[0] == 0 {
      Root(data, payload, room, level, done);
    } else if data[0] < 0xc0 {
      LabelAt(data, payload, room, level, done);
      var n, dot := data[0], Dot(done > 0);
      DecodedIsHeard(data[1 + n..], payload, room - |dot| - n, level, done + 1 + n);
    } else {
      PointerAt(data, payload, room, level, done);
      var dot := Dot(level > 0 || done > 0);
      DecodedIsHeard(payload[Offset(data)..], payload, room - |dot|, level + 1, 0);
    }
  }

  /** A name with more pointers than there are levels is refused, even if it could be heard to its end. */
  lemma {:induction false} TooManyPointers(data: seq<Byte>, payload: seq<Byte>, hops: nat, room: nat)
    requires Heard(data, payload, hops).Wire? && Pointers(data, payload, hops) > MAX_LABEL_RECURSION
    ensures Decode(data, payload, room, 0) == Bad
  {
    hide Labels;
    if Decode(data, payload, room, 0).Good? {
      DecodedIsHeard(data, payload, room, 0, 0);
      HeardAgain(data, payload, MAX_LABEL_RECURSION, hops);
    }
  }

  lemma {:induction false} HeardAgain(data: seq<Byte>, payload: seq<Byte>, n: nat, hops: nat)
    requires Heard(data, payload, n).Wire? && Heard(data, payload, hops).Wire?
    ensures Pointers(data, payload, hops) == Pointers(data, payload, n) <= n
    decreases n, |data|
  {
    hide Offset;
    if 1 <= data[0] < 0xc0 {
      HeardAgain(data[1 + data[0]..], payload, n, hops);
    } else if data[0] != 0 {
      HeardAgain(payload[Offset(data)..], payload, n - 1, hops - 1);
    }
  }

  /** What the decoder makes of any bytes: nothing if it hears no name within ten pointers, and otherwise the text of
      what it hears, with the bytes that takes, exactly when the path is plain and the text fits. */
  lemma {:induction false} DecodesHeardIff(data: seq<Byte>, payload: seq<Byte>, room: nat)
    ensures match Heard(data, payload, MAX_LABEL_RECURSION)
            case Malformed => Decode(data, payload, room, 0) == Bad
            case Wire(c, ls) =>
              Decode(data, payload, room, 0) == Good(c, Text(ls)) <==>
              && payload != [] && room > 0
              && Plain(data, payload, MAX_LABEL_RECURSION, false, false) && |Text(ls)| <= room
  {
    hide Labels, Dotted, Text, Plain, Heard;
    if Decode(data, payload, room, 0) != Bad {
      DecodedIsHeard(data, payload, room, 0, 0);
    }
    if payload != [] && room > 0 && data != [] && Heard(data, payload, MAX_LABEL_RECURSION).Wire? {
      TracksAlways(data, payload, room, 0, 0);
    }
  }

  /** A meaningful name whose pointers are near, however many it follows, is decoded to its text, with the bytes it
      takes, exactly when it follows at most ten, its path is plain and the text fits. */
  lemma {:induction false} DecodesMeaningIff(data: seq<Byte>, payload: seq<Byte>, hops: nat, room: nat)
    requires Meaning(data, payload, hops).Wire? && Near(data, payload, hops)
    ensures Heard(data, payload, hops) == Meaning(data, payload, hops)
    ensures var w := Meaning(data, payload, hops);
            Decode(data, payload, room, 0) == Good(w.consumed, Text(w.labels)) <==>
            && payload != [] && room > 0 && Pointers(data, payload, hops) <= MAX_LABEL_RECURSION
            && Plain(data, payload, hops, false, false) && |Text(w.labels)| <= room
  {
    hide Decode, Dotted, Text, Plain, Pointers, Heard, Meaning, Near;
    NearHeard(data, payload, hops);
    DecodesHeardIff(data, payload, room);
    if Pointers(data, payload, hops) <= MAX_LABEL_RECURSION {
      HopsToSpare(data, payload, hops, MAX_LABEL_RECURSION);
    } else {
      TooManyPointers(data, payload, hops, room);
    }
  }

  /** In a message of at most 1024 bytes every pointer that leads somewhere is near. */
  lemma {:induction false} SmallPayloadNear(data: seq<Byte>, payload: seq<Byte>, hops: nat)
    requires |payload| <= 0x400 && Meaning(data, payload, hops).Wire?
    ensures Near(data, payload, hops)
    decreases hops, |data|
  {
    if 1 <= data[0] < 0x40 {
      SmallPayloadNear(data[1 + data[0]..], payload, hops);
    } else if data[0] != 0 {
      SmallPayloadNear(payload[Target(data)..], payload, hops - 1);
    }
  }

  /** In a larger message a pointer to byte 1024 is taken for one to byte 0. */
  lemma {:induction false} FarPointerMisread(front: seq<Byte>)
    requires |front| == 0x400 && front[0] == 0
    ensures var payload := front + [1, 97, 0];
            && Meaning([0xc4, 0], payload, MAX_LABEL_RECURSION) == Wire(2, [[97]])
            && Decode([0xc4, 0], payload, MAX_NAME_LENGTH - 1, 0) == Good(2, [])
  {
    var payload: seq<Byte> := front + [1, 97, 0];
    assert Target([0xc4, 0]) == 0x400 && payload[0x400..] == [1, 97, 0];
    assert [1, 97, 0][1..2] == [97] && [1, 97, 0][2..] == [0];
    assert Meaning([0], payload, 9) == Wire(1, []);
    assert Meaning([1, 97, 0], payload, 9) == Wire(3, [[97]]);
    assert Offset([0xc4, 0]) == 0 && payload[0..] == payload;
    Root(payload, payload, MAX_NAME_LENGTH - 1, 1, 0);
  }

  /** A pointer that leads to a pointer puts a dot in front of the name. */
  lemma {:induction false} PointerToPointerDot()
    ensures var payload := [1, 97, 0, 0xc0, 0];
            && Meaning([0xc0, 3], payload, MAX_LABEL_RECURSION) == Wire(2, [[97]])
            && Decode([0xc0, 3], payload, MAX_NAME_LENGTH - 1, 0) == Good(2, [DOT, 97])
  {
    hide Labels, Decode, Pointer;
    var payload: seq<Byte> := [1, 97, 0, 0xc0, 0];
    assert payload[3..] == [0xc0, 0] && payload[0..] == payload;
    assert payload[1..2] == [97] && payload[2..] == [0, 0xc0, 0];
    assert Meaning([0xc0, 3], payload, MAX_LABEL_RECURSION) == Wire(2, [[97]]) by {
      assert Meaning(payload[2..], payload, 8) == Wire(1, []);
      assert Meaning(payload, payload, 8) == Wire(3, [[97]]);
      assert Meaning([0xc0, 0], payload, 9) == Wire(2, [[97]]);
    }
    PointerTwice(payload);
  }

  lemma {:induction false} PointerTwice(payload: seq<Byte>)
    requires payload == [1, 97, 0, 0xc0, 0]
    ensures Decode([0xc0, 3], payload, MAX_NAME_LENGTH - 1, 0) == Good(2, [DOT, 97])
  {
    hide Labels, Pointer;
    assert payload[3..] == [0xc0, 0] && payload[0..] == payload && payload == [1] + [97] + payload[2..];
    Root(payload[2..], payload, MAX_NAME_LENGTH - 3, 2, 2);
    LabelStep(payload, [97], payload[2..], payload, MAX_NAME_LENGTH - 2, 2, 0);
    assert Offset([0xc0, 0]) == 0 && Offset([0xc0, 3]) == 3;
    PointerAt([0xc0, 0], payload, MAX_NAME_LENGTH - 1, 1, 0);
    PointerAt([0xc0, 3], payload, MAX_NAME_LENGTH - 1, 0, 0);
  }

  /** The labels of a text. */
  function Split(d: seq<Byte>): seq<seq<Byte>>
    decreases |d|
  {
    var k := FirstLabel(d);
    [d[..k]] + if k == |d| then [] else Split(d[k + 1..])
  }

  lemma {:induction false} DottedCons(lab: seq<Byte>, ls: seq<seq<Byte>>)
    ensures Dotted([lab] + ls) == [DOT] + lab + Dotted(ls)
  {
    assert ([lab] + ls)[1..] == ls;
  }

  lemma {:induction false} DottedIsText(ls: seq<seq<Byte>>)
    requires ls != []
    ensures Dotted(ls) == [DOT] + Text(ls) && Text(ls) == Dotted(ls)[1..]
  {
    hide Dotted;
    assert ls == [ls[0]] + ls[1..];
    DottedCons(ls[0], ls[1..]);
    assert [DOT] + ls[0] + Dotted(ls[1..]) == [DOT] + (ls[0] + Dotted(ls[1..]));
  }

  lemma {:induction false} DottedAppend(x: seq<seq<Byte>>, y: seq<seq<Byte>>)
    ensures Dotted(x + y) == Dotted(x) + Dotted(y)
  {
    hide Dotted;
    if x == [] {
      assert x + y == y;
      DottedNone();
    } else {
      DottedAppend(x[1..], y);
      assert x == [x[0]] + x[1..] && x + y == [x[0]] + (x[1..] + y);
      DottedCons(x[0], x[1..]);
      DottedCons(x[0], x[1..] + y);
      Regroup([DOT] + x[0], Dotted(x[1..]), Dotted(y));
    }
  }

  lemma {:induction false} SplitDotted(d: seq<Byte>)
    ensures Dotted(Split(d)) == [DOT] + d
    decreases |d|
  {
    hide FirstLabel, Dotted;
    var k := FirstLabel(d);
    SplitText(d, [DOT]);
    if k == |d| {
      DottedCons(d[..k], []);
      assert Dotted([]) == [] by { DottedNone(); }
    } else {
      SplitDotted(d[k + 1..]);
      DottedCons(d[..k], Split(d[k + 1..]));
    }
  }

  lemma {:induction false} DottedNone()
    ensures Dotted([]) == []
  {
  }

  /** Splitting a text and joining its labels gives the text back. */
  lemma {:induction false} SplitIsText(d: seq<Byte>)
    ensures Text(Split(d)) == d
  {
    hide Dotted, Text;
    SplitDotted(d);
    DottedIsText(Split(d));
  }

  lemma {:induction false} MeansLabel(data: seq<Byte>, lab: seq<Byte>, rest: seq<Byte>, payload: seq<Byte>, hops: nat)
    requires 1 <= |lab| < 0x40 && data == [|lab|] + lab + rest
    requires Meaning(rest, payload, hops).Wire? && Heard(rest, payload, hops).Wire?
    ensures var w := Meaning(rest, payload, hops);
            Meaning(data, payload, hops) == Wire(1 + |lab| + w.consumed, [lab] + w.labels)
    ensures Near(data, payload, hops) == Near(rest, payload, hops) && Heard(data, payload, hops).Wire?
    ensures forall inside, after ::
              Plain(data, payload, hops, inside, after) == Plain(rest, payload, hops, inside, true)
  {
    assert data[0] == |lab| && data[1..1 + |lab|] == lab && data[1 + |lab|..] == rest;
  }

  /** The wire form of a text means its labels, when they are of lawful size, and its path is plain. */
  lemma {:induction false} EncodedMeans(d: seq<Byte>, tail: seq<Byte>, payload: seq<Byte>, hops: nat, inside: bool,
                                        after: bool)
    requires LabelsWithin(d, 0x3f)
    ensures Meaning(Encode(d) + tail, payload, hops) == Wire(|d| + 2, Split(d))
    ensures Near(Encode(d) + tail, payload, hops) && Heard(Encode(d) + tail, payload, hops).Wire?
    ensures Plain(Encode(d) + tail, payload, hops, inside, after)
    decreases |d|
  {
    hide FirstLabel, EncodeOpen, Encode;
    var k := FirstLabel(d);
    var rest := AfterFirst(d) + tail;
    EncodeShape(d, tail);
    if k < |d| {
      EncodedMeans(d[k + 1..], tail, payload, hops, inside, true);
    }
    MeansLabel(Encode(d) + tail, d[..k], rest, payload, hops);
  }

  /** The two bytes of a pointer to an offset below 1024. */
  function PointerTo(off: nat): (p: seq<Byte>)
    requires off < 0x400
    ensures |p| == 2 && 0xc0 <= p[0] < 0xc4 && Target(p) == off
  {
    [0xc0 + off / 0x100, off % 0x100]
  }

  lemma {:induction false} EncodeOpenShape(a: seq<Byte>, x: seq<Byte>)
    requires LabelsWithin(a, 0x3f)
    ensures var k := FirstLabel(a);
            EncodeOpen(a) + x == [k] + a[..k] + (if k == |a| then x else EncodeOpen(a[k + 1..]) + x)
  {
    var k := FirstLabel(a);
    FirstWithin(a);
    EncodeOpenIs(a);
    hide FirstLabel, EncodeOpen, LabelsWithin;
    if k < |a| {
      Regroup([k] + a[..k], EncodeOpen(a[k + 1..]), x);
    }
  }

  lemma {:induction false} FirstWithin(a: seq<Byte>)
    requires LabelsWithin(a, 0x3f)
    ensures 1 <= FirstLabel(a) <= 0x3f && FirstLabel(a) % 256 == FirstLabel(a)
  {
    hide FirstLabel;
  }

  lemma {:induction false} EncodeOpenIs(a: seq<Byte>)
    ensures var k := FirstLabel(a);
            EncodeOpen(a) == if k == |a| then [k % 256] + a[..k] else [k % 256] + a[..k] + EncodeOpen(a[k + 1..])
  {
    hide FirstLabel;
  }

  /** The labels of a, then a pointer to where the payload holds b. */
  lemma {:induction false} CompressedMeans(a: seq<Byte>, b: seq<Byte>, off: nat, x: seq<Byte>, tail: seq<Byte>,
                                           payload: seq<Byte>, hops: nat)
    requires LabelsWithin(a, 0x3f) && LabelsWithin(b, 0x3f) && hops > 0
    requires off < 0x400 && off < |payload| && payload[off..] == Encode(b) + tail
    requires 2 <= |x| && x[..2] == PointerTo(off)
    ensures Meaning(EncodeOpen(a) + x, payload, hops) == Wire(|a| + 3, Split(a) + Split(b))
    ensures Near(EncodeOpen(a) + x, payload, hops) && Heard(EncodeOpen(a) + x, payload, hops).Wire?
    ensures forall after :: Plain(EncodeOpen(a) + x, payload, hops, false, after)
    decreases |a|
  {
    hide FirstLabel, EncodeOpen, Encode, PointerTo, Meaning, Near, Plain, Heard;
    var k := FirstLabel(a);
    var rest := if k == |a| then x else EncodeOpen(a[k + 1..]) + x;
    EncodeOpenShape(a, x);
    if k < |a| {
      CompressedMeans(a[k + 1..], b, off, x, tail, payload, hops);
      assert Split(a) + Split(b) == [a[..k]] + (Split(a[k + 1..]) + Split(b));
    } else {
      PointerMeans(b, off, x, tail, payload, hops);
    }
    MeansLabel(EncodeOpen(a) + x, a[..k], rest, payload, hops);
  }

  lemma {:induction false} PointerMeans(b: seq<Byte>, off: nat, x: seq<Byte>, tail: seq<Byte>, payload: seq<Byte>,
                                        hops: nat)
    requires LabelsWithin(b, 0x3f) && hops > 0
    requires off < 0x400 && off < |payload| && payload[off..] == Encode(b) + tail
    requires 2 <= |x| && x[..2] == PointerTo(off)
    ensures Meaning(x, payload, hops) == Wire(2, Split(b)) && Near(x, payload, hops)
    ensures Heard(x, payload, hops).Wire?
    ensures Plain(x, payload, hops, false, true) && Plain(x, payload, hops, false, false)
  {
    hide FirstLabel, EncodeOpen, Encode, PointerTo;
    EncodedMeans(b, tail, payload, hops - 1, true, false);
    assert x[0] == x[..2][0] && x[1] == x[..2][1];
    assert Target(x) == Target(PointerTo(off)) == off;
    NearOffset(x);
    EncodeShape(b, tail);
    assert payload[off] == payload[off..][0];
  }

  lemma {:induction false} JoinedText(a: seq<Byte>, b: seq<Byte>)
    ensures Text(Split(a) + Split(b)) == a + [DOT] + b
  {
    hide Dotted, Text, FirstLabel;
    DottedAppend(Split(a), Split(b));
    SplitDotted(a);
    SplitDotted(b);
    DottedIsText(Split(a) + Split(b));
    assert ([DOT] + a + ([DOT] + b))[1..] == a + [DOT] + b;
  }

  /** The labels written out in front of a pointer, if any. */
  function Front(a: seq<Byte>): seq<Byte>
  {
    if a == [] then [] else EncodeOpen(a)
  }

  function Joined(a: seq<Byte>, b: seq<Byte>): seq<Byte>
  {
    if a == [] then b else a + [DOT] + b
  }

  /** A name that ends in a pointer to the wire form of b, or is such a pointer, decodes to the whole name, in the
      bytes of its own labels and the pointer. */
  lemma {:induction false} CompressedDecodes(a: seq<Byte>, b: seq<Byte>, off: nat, x: seq<Byte>, tail: seq<Byte>,
                                             payload: seq<Byte>, room: nat)
    requires (a == [] || LabelsWithin(a, 0x3f)) && LabelsWithin(b, 0x3f) && |Joined(a, b)| <= room
    requires off < 0x400 && off < |payload| && payload[off..] == Encode(b) + tail
    requires 2 <= |x| && x[..2] == PointerTo(off)
    ensures Decode(Front(a) + x, payload, room, 0) == Good(if a == [] then 2 else |a| + 3, Joined(a, b))
  {
    FrontIs(a, b, x);
    Limits();
    hide *;
    NameIsLong(b);
    if a == [] {
      PointerMeans(b, off, x, tail, payload, 1);
      SplitIsText(b);
    } else {
      CompressedMeans(a, b, off, x, tail, payload, 1);
      JoinedText(a, b);
    }
    DecodesMeaningIff(Front(a) + x, payload, 1, room);
  }

  lemma {:induction false} FrontIs(a: seq<Byte>, b: seq<Byte>, x: seq<Byte>)
    ensures Front(a) + x == if a == [] then x else EncodeOpen(a) + x
    ensures Joined(a, b) == if a == [] then b else a + [DOT] + b
  {
  }

  lemma {:induction false} NameIsLong(b: seq<Byte>)
    requires LabelsWithin(b, 0x3f)
    ensures b != []
  {
  }

  lemma {:induction false} Limits()
    ensures MAX_LABEL_RECURSION == 10
  {
  }
}
