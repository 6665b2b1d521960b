/** src/probe_modules/module_dns.c, dns_process_packet: the sections are read with a payload length that counts the UDP
    header, so that pointers reach eight bytes behind the datagram. What these bytes can change. */
module DnsExtent {

  import opened CBytes
  import opened DnsName
  import opened DnsDecode
  import opened DnsResponse

  const HEADER: nat := 12
  const UDP_HEADER: nat := 8

  lemma {:induction false} LabelMore(data: seq<Byte>, ext: seq<Byte>, n: nat)
    requires 1 + n < |data|
    ensures (data + ext)[1..1 + n] == data[1..1 + n] && (data + ext)[1 + n..] == data[1 + n..] + ext
  {
  }

  lemma {:induction false} TargetMore(message: seq<Byte>, beyond: seq<Byte>, off: nat)
    requires off < |message|
    ensures (message + beyond)[off..] == message[off..] + beyond
  {
  }

  lemma {:induction false} OffsetMore(data: seq<Byte>, ext: seq<Byte>)
    requires 2 <= |data|
    ensures Offset(data + ext) == Offset(data)
  {
  }

  /** A name that can be read is read the same whatever bytes follow the place it stands at and the message. */
  lemma {:induction false} LabelsStay(data: seq<Byte>, ext: seq<Byte>, message: seq<Byte>, beyond: seq<Byte>, room: nat,
                                      level: nat, done: nat)
    requires data != [] && level <= MAX_LABEL_RECURSION && Labels(data, message, room, level, done).Good?
    ensures Labels(data + ext, message + beyond, room, level, done) == Labels(data, message, room, level, done)
    decreases MAX_LABEL_RECURSION - level, |data|
  {
    hide Labels, Offset;
    if data[0] == 0 {
      Root(data, message, room, level, done);
      Root(data + ext, message + beyond, room, level, done);
    } else if data[0] < 0xc0 {
      var n := data[0];
      LabelAt(data, message, room, level, done);
      LabelAt(data + ext, message + beyond, room, level, done);
      LabelMore(data, ext, n);
      LabelsStay(data[1 + n..], ext, message, beyond, room - |Dot(done > 0)| - n, level, done + 1 + n);
    } else {
      PointerAt(data, message, room, level, done);
      PointerAt(data + ext, message + beyond, room, level, done);
      OffsetMore(data, ext);
      var off := Offset(data);
      TargetMore(message, beyond, off);
      LabelsStay(message[off..], beyond, message, beyond, room - |Dot(level > 0 || done > 0)|, level + 1, 0);
    }
  }

  lemma {:induction false} NameStays(data: seq<Byte>, message: seq<Byte>, beyond: seq<Byte>, room: nat)
    requires Decode(data, message, room, 0).Good?
    ensures Decode(data, message + beyond, room, 0) == Decode(data, message, room, 0)
  {
    hide Labels;
    LabelsStay(data, [], message, beyond, room, 0, 0);
    assert data + [] == data;
  }

  /** The reader agrees with one that stays in the datagram exactly when that one can read the name, or neither can. */
  lemma {:induction false} NameStaysIff(data: seq<Byte>, message: seq<Byte>, beyond: seq<Byte>, room: nat)
    ensures Decode(data, message + beyond, room, 0) == Decode(data, message, room, 0) <==>
            Decode(data, message, room, 0).Good? || Decode(data, message + beyond, room, 0) == Bad
  {
    hide Decode;
    if Decode(data, message, room, 0).Good? {
      NameStays(data, message, beyond, room);
    }
  }

  lemma {:induction false} RecordStays(kind: Kind, data: seq<Byte>, message: seq<Byte>, beyond: seq<Byte>)
    requires Parse(kind, data, message).Step?
    ensures Parse(kind, data, message + beyond) == Parse(kind, data, message)
  {
    hide Decode;
    NameStays(data, message, beyond, MAX_NAME_LENGTH - 1);
  }

  lemma {:induction false} ChainStays(kind: Kind, data: seq<Byte>, message: seq<Byte>, beyond: seq<Byte>,
                                      records: seq<Record>, rest: seq<Byte>)
    requires Chain(kind, data, message, records, rest)
    ensures Chain(kind, data, message + beyond, records, rest)
    decreases |records|
  {
    hide Parse;
    if records != [] {
      RecordStays(kind, data, message, beyond);
      ChainStays(kind, data[Parse(kind, data, message).size..], message, beyond, records[1..], rest);
    }
  }

  /** Sections that lie in the message lie there for the reader too. */
  lemma {:induction false} LayoutStays(data: seq<Byte>, message: seq<Byte>, beyond: seq<Byte>, s: Sections,
                                       rest: seq<Byte>)
    requires Layout(data, message, s, rest)
    ensures Layout(data, message + beyond, s, rest)
  {
    hide Chain;
    var d1, d2, d3 :|
      && Chain(Question, data, message, s.questions, d1) && Chain(Answer, d1, message, s.answers, d2)
      && Chain(Answer, d2, message, s.authorities, d3) && Chain(Answer, d3, message, s.additionals, rest);
    ChainStays(Question, data, message, beyond, s.questions, d1);
    ChainStays(Answer, d1, message, beyond, s.answers, d2);
    ChainStays(Answer, d2, message, beyond, s.authorities, d3);
    ChainStays(Answer, d3, message, beyond, s.additionals, rest);
  }

  /** The four counts of the header. */
  function CountsOf(message: seq<Byte>): Counts
    requires HEADER <= |message|
  {
    Counts(Word(message, 4), Word(message, 6), Word(message, 8), Word(message, 10))
  }

  /** dns_process_packet on a validated response: a response that is complete within its datagram is reported as it
      stands, without error, whatever bytes follow the datagram. */
  method ProcessPacket(message: seq<Byte>, beyond: seq<Byte>)
    returns (err: bool, unconsumed: nat, s: Sections)
    requires HEADER <= |message| && |beyond| == UDP_HEADER
    ensures unconsumed <= |message| - HEADER
    ensures Layout(message[HEADER..], message + beyond, s, message[|message| - unconsumed..])
    ensures !err <==> Complete(s, CountsOf(message)) && unconsumed == 0
    ensures forall whole :: Complete(whole, CountsOf(message)) && Layout(message[HEADER..], message, whole, []) ==>
                              !err && s == whole
  {
    hide Layout, Word;
    var data := message[HEADER..];
    err, unconsumed, s := ProcessSections(data, message + beyond, CountsOf(message));
    assert data[|data| - unconsumed..] == message[|message| - unconsumed..];
    forall whole | Complete(whole, CountsOf(message)) && Layout(data, message, whole, []) ensures !err && s == whole {
      LayoutStays(data, message, beyond, whole, []);
    }
  }

  // ---------- A whole message ----------

  predicate CountsFit(s: Sections)
  {
    && |s.questions| < 0x1_0000 && |s.answers| < 0x1_0000
    && |s.authorities| < 0x1_0000 && |s.additionals| < 0x1_0000
  }

  /** A response as section 4.1 of RFC 1035 lays it out: the identifier and the flags, the numbers of questions,
      answers, authorities and additionals, and the four sections. */
  function WriteMessage(head: seq<Byte>, s: Sections): seq<Byte>
    requires |head| == 4 && CountsFit(s) && AllWritable(s)
  {
    head + Bytes(|s.questions|) + Bytes(|s.answers|) + Bytes(|s.authorities|) + Bytes(|s.additionals|) +
    WriteSections(s)
  }

  /** The counts of the header are the sizes of the sections, each in its place. */
  lemma {:induction false} HeaderCounts(head: seq<Byte>, s: Sections)
    requires |head| == 4 && CountsFit(s) && AllWritable(s)
    ensures var m := WriteMessage(head, s);
            HEADER <= |m| && m[HEADER..] == WriteSections(s) && Complete(s, CountsOf(m))
  {
    var m := WriteMessage(head, s);
    var q, an, au, ad := Bytes(|s.questions|), Bytes(|s.answers|), Bytes(|s.authorities|), Bytes(|s.additionals|);
    var body := WriteSections(s);
    hide Word, Bytes, WriteSections, AllWritable;
    WordBytes(head + q + an + au, |s.additionals|, body);
    Regroup(head + q + an + au, ad, body);
    WordBytes(head + q + an, |s.authorities|, ad + body);
    Regroup(head + q + an, au, ad + body);
    WordBytes(head + q, |s.answers|, au + (ad + body));
    Regroup(head + q, an, au + (ad + body));
    WordBytes(head, |s.questions|, an + (au + (ad + body)));
    Behind(head + q + an + au + ad, body);
  }

  lemma {:induction false} Behind(front: seq<Byte>, back: seq<Byte>)
    ensures (front + back)[|front|..] == back
  {
  }

  /** A whole response written is read back whole: every record in the section it was written to, without error and
      with nothing left, whatever follows the datagram. */
  method ReadBack(head: seq<Byte>, s: Sections, beyond: seq<Byte>) returns (err: bool, unconsumed: nat, read: Sections)
    requires |head| == 4 && CountsFit(s) && AllWritable(s) && |beyond| == UDP_HEADER
    ensures !err && unconsumed == 0 && read == s
  {
    hide WriteMessage, WriteSections, CountsOf, Complete, Layout, AllWritable, CountsFit;
    var message := WriteMessage(head, s);
    HeaderCounts(head, s);
    ResponseRoundTrip(s, message);
    err, unconsumed, read := ProcessPacket(message, beyond);
  }

  /** A question and an answer in a packet: the name a, type 1, class 3, 300 seconds, the data 192.0.2.7. */
  lemma {:induction false} RecordBytes(payload: seq<Byte>)
    requires payload != []
    ensures Parse(Question, [1, 97, 0, 0, 1, 0, 3], payload) == Step(Record([97], 1, 3, 0, []), 7)
    ensures Parse(Answer, [1, 97, 0, 0, 1, 0, 3, 0, 0, 1, 44, 0, 4, 192, 0, 2, 7], payload) ==
            Step(Record([97], 1, 3, 300, [192, 0, 2, 7]), 17)
  {
    var question: seq<Byte> := [1, 97, 0, 0, 1, 0, 3];
    var answer: seq<Byte> := [1, 97, 0, 0, 1, 0, 3, 0, 0, 1, 44, 0, 4, 192, 0, 2, 7];
    NameOfOne(question, payload);
    NameOfOne(answer, payload);
    hide Decode;
    assert answer[13..17] == [192, 0, 2, 7];
    assert CString([97]) == [97] by { assert [97][1..] == []; }
  }

  lemma {:induction false} NameOfOne(data: seq<Byte>, payload: seq<Byte>)
    requires payload != [] && 3 <= |data| && data[0] == 1 && data[1] == 97 && data[2] == 0
    ensures Decode(data, payload, MAX_NAME_LENGTH - 1, 0) == Good(3, [97])
  {
    hide Labels;
    LabelAt(data, payload, MAX_NAME_LENGTH - 1, 0, 0);
    Root(data[2..], payload, MAX_NAME_LENGTH - 2, 0, 2);
    DecodeIs(data, payload, MAX_NAME_LENGTH - 1, 0);
    assert data[1..2] == [97];
  }

  /** Without that a pointer just behind the datagram takes its name from there: the same message, two different
      names. */
  lemma {:induction false} NameFromBeyond(message: seq<Byte>, data: seq<Byte>)
    requires |message| == 18 && data == [0xc0, 18]
    ensures Decode(data, message, MAX_NAME_LENGTH - 1, 0) == Bad
    ensures Decode(data, message + [1, 97, 0, 0, 0, 0, 0, 0], MAX_NAME_LENGTH - 1, 0) == Good(2, [97])
    ensures Decode(data, message + [0, 0, 0, 0, 0, 0, 0, 0], MAX_NAME_LENGTH - 1, 0) == Good(2, [])
  {
    assert Offset(data) == 18;
    hide Labels, Offset, Pointer;
    var zeros: seq<Byte> := [0, 0, 0, 0, 0, 0, 0, 0];
    var named: seq<Byte> := [1, 97, 0, 0, 0, 0, 0, 0];
    PointerAt(data, message, MAX_NAME_LENGTH - 1, 0, 0);
    PointerAt(data, message + zeros, MAX_NAME_LENGTH - 1, 0, 0);
    PointerAt(data, message + named, MAX_NAME_LENGTH - 1, 0, 0);
    assert (message + zeros)[18..] == zeros && (message + named)[18..] == named;
    Root(zeros, message + zeros, MAX_NAME_LENGTH - 1, 1, 0);
    assert named[1..2] == [97] && named[2..] == [0, 0, 0, 0, 0, 0];
    LabelAt(named, message + named, MAX_NAME_LENGTH - 1, 1, 0);
    Root(named[2..], message + named, MAX_NAME_LENGTH - 2, 1, 2);
  }
}
