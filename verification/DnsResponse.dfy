/** src/probe_modules/module_dns.c: the questions, answers, authorities and additionals of a response. */
module DnsResponse {

  import opened CBytes
  import opened DnsName
  import opened DnsDecode
  import opened DnsReader

  datatype Kind = Question | Answer

  /** A record as it is reported: its name, the fields of its fixed tail and its data. A question has neither a
      time to live nor data. */
  datatype Record = Record(name: seq<Byte>, rtype: nat, class_: nat, ttl: nat, rdata: seq<Byte>)

  /** A record at the front of the data and the bytes it takes, or an error. */
  datatype Step = Failed | Step(record: Record, size: nat)

  function Word(data: seq<Byte>, i: nat): (w: nat)
    requires i + 2 <= |data|
    ensures w < 0x1_0000
  {
    var high: nat := data[i];
    high * 0x100 + data[i + 1]
  }

  const QUESTION_TAIL: nat := 4
  const ANSWER_TAIL: nat := 10

  function TailSize(kind: Kind): nat
  {
    if kind == Question then QUESTION_TAIL else ANSWER_TAIL
  }

  /** One record: a name, the fixed tail, and for an answer as many bytes of data as the tail says. */
  function Parse(kind: Kind, data: seq<Byte>, payload: seq<Byte>): (s: Step)
    ensures s.Step? ==> 1 + TailSize(kind) <= s.size <= |data|
  {
    match Decode(data, payload, MAX_NAME_LENGTH - 1, 0)
    case Bad => Failed
    case Good(c, name) =>
      if c + TailSize(kind) > |data| then Failed
      else if kind == Question then
        Step(Record(CString(name), Word(data, c), Word(data, c + 2), 0, []), c + QUESTION_TAIL)
      else
        var rdlength := Word(data, c + 8);
        var end := c + ANSWER_TAIL + rdlength;
        if end > |data| then Failed
        else
          Step(Record(CString(name), Word(data, c), Word(data, c + 2), Word(data, c + 4) * 0x1_0000 + Word(data, c + 6),
                      data[c + ANSWER_TAIL..end]), end)
  }

  /** The records lie one behind the other from the start of the data, and `rest` is what follows the last. */
  predicate Chain(kind: Kind, data: seq<Byte>, payload: seq<Byte>, records: seq<Record>, rest: seq<Byte>)
    decreases |records|
  {
    if records == [] then rest == data
    else
      match Parse(kind, data, payload)
      case Failed => false
      case Step(record, size) => record == records[0] && Chain(kind, data[size..], payload, records[1..], rest)
  }

  predicate Suffix(rest: seq<Byte>, data: seq<Byte>)
  {
    |rest| <= |data| && rest == data[|data| - |rest|..]
  }

  lemma {:induction false} SuffixTransitive(a: seq<Byte>, b: seq<Byte>, c: seq<Byte>)
    requires Suffix(a, b) && Suffix(b, c)
    ensures Suffix(a, c)
  {
    assert b[|b| - |a|..] == c[|c| - |b|..][|b| - |a|..] == c[|c| - |a|..];
  }

  /** Nothing is skipped and nothing read twice: what is left is the end of the data, and every record took at
      least the bytes of its tail and one more. */
  lemma {:induction false} ChainAdvances(kind: Kind, data: seq<Byte>, payload: seq<Byte>, records: seq<Record>,
                                         rest: seq<Byte>)
    requires Chain(kind, data, payload, records, rest)
    ensures Suffix(rest, data)
    ensures kind == Question ==> 5 * |records| + |rest| <= |data|
    ensures kind == Answer ==> 11 * |records| + |rest| <= |data|
    decreases |records|
  {
    hide Parse, Suffix;
    if records == [] {
      assert Suffix(rest, data) by { SuffixWhole(data); }
    } else {
      var size := Parse(kind, data, payload).size;
      ParseFits(kind, data, payload);
      ChainAdvances(kind, data[size..], payload, records[1..], rest);
      SuffixDrop(data, size);
      SuffixTransitive(rest, data[size..], data);
    }
  }

  lemma {:induction false} SuffixWhole(data: seq<Byte>)
    ensures Suffix(data, data)
  {
  }

  lemma {:induction false} SuffixIs(rest: seq<Byte>, data: seq<Byte>)
    requires Suffix(rest, data)
    ensures |rest| <= |data| && rest == data[|data| - |rest|..]
  {
  }

  lemma {:induction false} SuffixDrop(data: seq<Byte>, n: nat)
    requires n <= |data|
    ensures Suffix(data[n..], data)
  {
  }

  /** The records in front of the data are settled by their number. */
  lemma {:induction false} ChainUnique(kind: Kind, data: seq<Byte>, payload: seq<Byte>, r1: seq<Record>,
                                       rest1: seq<Byte>, r2: seq<Record>, rest2: seq<Byte>)
    requires Chain(kind, data, payload, r1, rest1) && Chain(kind, data, payload, r2, rest2) && |r1| == |r2|
    ensures r1 == r2 && rest1 == rest2
    decreases |r1|
  {
    if r1 != [] {
      var size := Parse(kind, data, payload).size;
      ChainUnique(kind, data[size..], payload, r1[1..], rest1, r2[1..], rest2);
      assert r1 == [r1[0]] + r1[1..] && r2 == [r2[0]] + r2[1..];
    }
  }

  lemma {:induction false} ChainAppend(kind: Kind, data: seq<Byte>, payload: seq<Byte>, records: seq<Record>,
                                       mid: seq<Byte>, record: Record, size: nat)
    requires Chain(kind, data, payload, records, mid) && Parse(kind, mid, payload) == Step(record, size)
    ensures Chain(kind, data, payload, records + [record], mid[size..])
    decreases |records|
  {
    hide Parse;
    if records == [] {
      assert Chain(kind, mid[size..], payload, [], mid[size..]);
      assert [record][1..] == [];
    } else {
      var n := Parse(kind, data, payload).size;
      ParseFits(kind, data, payload);
      ChainAppend(kind, data[n..], payload, records[1..], mid, record, size);
      assert (records + [record])[1..] == records[1..] + [record];
    }
  }

  lemma {:induction false} ParseFits(kind: Kind, data: seq<Byte>, payload: seq<Byte>)
    ensures var s := Parse(kind, data, payload); s.Step? ==> 1 + TailSize(kind) <= s.size <= |data|
  {
  }

  lemma {:induction false} ChainSplit(kind: Kind, data: seq<Byte>, payload: seq<Byte>, records: seq<Record>,
                                      rest: seq<Byte>, n: nat) returns (mid: seq<Byte>)
    requires Chain(kind, data, payload, records, rest) && n <= |records|
    ensures Chain(kind, data, payload, records[..n], mid) && Chain(kind, mid, payload, records[n..], rest)
    decreases |records|
  {
    hide Parse;
    if n == 0 {
      mid := data;
      assert records[..0] == [] && records[0..] == records;
    } else {
      ParseFits(kind, data, payload);
      mid := ChainSplit(kind, data[Parse(kind, data, payload).size..], payload, records[1..], rest, n - 1);
      assert records[..n][1..] == records[1..][..n - 1] && records[n..] == records[1..][n - 1..];
    }
  }

  /** A walk that stops early stops at the same record as any other. */
  lemma {:induction false} NoShortStop(kind: Kind, data: seq<Byte>, payload: seq<Byte>, short: seq<Record>,
                                       mid: seq<Byte>, records: seq<Record>, rest: seq<Byte>)
    requires Chain(kind, data, payload, short, mid) && Chain(kind, data, payload, records, rest)
    requires |short| < |records|
    ensures Parse(kind, mid, payload).Step?
  {
    hide Parse;
    var m := ChainSplit(kind, data, payload, records, rest, |short|);
    ChainUnique(kind, data, payload, short, mid, records[..|short|], m);
  }

  /** get_name: a buffer of zeros with room for all but its last byte. */
  method GetName(data: seq<Byte>, payload: seq<Byte>) returns (name: array<Byte>, consumed: nat)
    ensures fresh(name) && name.Length == MAX_NAME_LENGTH && name[MAX_NAME_LENGTH - 1] == 0
    ensures match Decode(data, payload, MAX_NAME_LENGTH - 1, 0)
            case Bad => consumed == 0
            case Good(c, text) =>
              consumed == c && name[..|text|] == text && forall k :: |text| <= k < name.Length ==> name[k] == 0
  {
    hide Decode;
    name := new Byte[MAX_NAME_LENGTH](_ => 0);
    ghost var before := name[..];
    consumed := GetNameHelper(data, payload, name, 0, MAX_NAME_LENGTH - 1, 0);
    ghost var r := Decode(data, payload, MAX_NAME_LENGTH - 1, 0);
    assert Stored(r, name[..], before, 0, MAX_NAME_LENGTH - 1);
    assert name[..][MAX_NAME_LENGTH - 1] == before[MAX_NAME_LENGTH - 1];
    if r.Good? {
      assert name[..|r.text|] == name[..][0..0 + |r.text|];
      forall k | |r.text| <= k < name.Length ensures name[k] == 0 {
        assert name[..][k] == before[k];
      }
    }
  }

  /** The name as it is reported: the buffer up to its first zero. */
  method NameString(name: array<Byte>) returns (s: seq<Byte>)
    requires name.Length == MAX_NAME_LENGTH && name[MAX_NAME_LENGTH - 1] == 0
    ensures s == CString(name[..])
  {
    var n := 0;
    while name[n] != 0
      invariant n < MAX_NAME_LENGTH && forall k :: 0 <= k < n ==> name[k] != 0
      decreases MAX_NAME_LENGTH - n
    {
      n := n + 1;
    }
    CStringPrefix(name[..], n);
    s := name[..n];
    assert s == name[..][..n];
  }

  /** process_response_question and process_response_answer: one record, and the cursor moved behind it. The
      cursor does not move on an error. */
  method Process(kind: Kind, data: seq<Byte>, payload: seq<Byte>)
    returns (err: bool, rest: seq<Byte>, records: seq<Record>)
    ensures match Parse(kind, data, payload)
            case Failed => err && rest == data && records == []
            case Step(record, size) => !err && rest == data[size..] && records == [record]
  {
    hide Decode, CString, Word;
    err, rest, records := true, data, [];
    var buffer, c := GetName(data, payload);
    if c == 0 { return; }
    ghost var r := Decode(data, payload, MAX_NAME_LENGTH - 1, 0);
    CStringPadded(buffer[..], r.text);
    var name := NameString(buffer);
    if c + TailSize(kind) > |data| { return; }
    var rtype := Word(data, c);
    var class_ := Word(data, c + 2);
    if kind == Question {
      rest, records := data[c + QUESTION_TAIL..], [Record(name, rtype, class_, 0, [])];
      return false, rest, records;
    }
    var ttl := Word(data, c + 4) * 0x1_0000 + Word(data, c + 6);
    var rdlength := Word(data, c + 8);
    var end := c + ANSWER_TAIL + rdlength;
    if end > |data| { return; }
    rest, records := data[end..], [Record(name, rtype, class_, ttl, data[c + ANSWER_TAIL..end])];
    return false, rest, records;
  }

  /** One section: up to `count` records, stopping at the first that fails. */
  method Section(kind: Kind, data: seq<Byte>, payload: seq<Byte>, count: nat, before: bool)
    returns (err: bool, rest: seq<Byte>, records: seq<Record>)
    ensures Chain(kind, data, payload, records, rest)
    ensures before ==> err && records == []
    ensures !before ==> |records| <= count && (err <==> |records| < count)
    ensures !before && err ==> Parse(kind, rest, payload).Failed?
    ensures forall full, end :: !before && |full| == count && Chain(kind, data, payload, full, end) ==>
                                !err && full == records && end == rest
  {
    hide Parse;
    err, rest, records := before, data, [];
    var i := 0;
    while i < count && !err
      invariant Chain(kind, data, payload, records, rest)
      invariant i <= count && (before ==> err && records == [])
      invariant !before ==> (if err then |records| < count && Parse(kind, rest, payload).Failed? else |records| == i)
    {
      ghost var mid := rest;
      ghost var was := records;
      var one: seq<Record>;
      ParseFits(kind, mid, payload);
      err, rest, one := Process(kind, rest, payload);
      records := records + one;
      if err {
        assert records == was;
      } else {
        ChainAppend(kind, data, payload, was, mid, one[0], Parse(kind, mid, payload).size);
      }
      i := i + 1;
    }
    forall full, end | !before && |full| == count && Chain(kind, data, payload, full, end)
      ensures !err && full == records && end == rest
    {
      if err { NoShortStop(kind, data, payload, records, rest, full, end); }
      ChainUnique(kind, data, payload, full, end, records, rest);
    }
  }

  datatype Counts = Counts(questions: nat, answers: nat, authorities: nat, additionals: nat)

  datatype Sections = Sections(questions: seq<Record>, answers: seq<Record>, authorities: seq<Record>,
                               additionals: seq<Record>)

  /** The four sections lie one behind the other, and `rest` is what follows them. */
  ghost predicate Layout(data: seq<Byte>, payload: seq<Byte>, s: Sections, rest: seq<Byte>)
  {
    exists d1, d2, d3 ::
      && Chain(Question, data, payload, s.questions, d1) && Chain(Answer, d1, payload, s.answers, d2)
      && Chain(Answer, d2, payload, s.authorities, d3) && Chain(Answer, d3, payload, s.additionals, rest)
  }

  predicate Complete(s: Sections, counts: Counts)
  {
    && |s.questions| == counts.questions && |s.answers| == counts.answers
    && |s.authorities| == counts.authorities && |s.additionals| == counts.additionals
  }

  /** dns_process_packet, the hierarchical part: everything reported is laid out in order, and the response is
      without error exactly when every section is complete and every byte is consumed. */
  method ProcessSections(data: seq<Byte>, payload: seq<Byte>, counts: Counts)
    returns (err: bool, unconsumed: nat, s: Sections)
    ensures unconsumed <= |data| && Layout(data, payload, s, data[|data| - unconsumed..])
    ensures !err <==> Complete(s, counts) && unconsumed == 0
    ensures forall whole :: Complete(whole, counts) && Layout(data, payload, whole, []) ==> !err && s == whole
  {
    hide Chain, Parse, Suffix;
    var d1, d2, d3, rest: seq<Byte>;
    var q, an, au, ad: seq<Record>;
    err, d1, q := Section(Question, data, payload, counts.questions, false);
    err, d2, an := Section(Answer, d1, payload, counts.answers, err);
    err, d3, au := Section(Answer, d2, payload, counts.authorities, err);
    err, rest, ad := Section(Answer, d3, payload, counts.additionals, err);
    s := Sections(q, an, au, ad);
    unconsumed := |rest|;
    ChainAdvances(Question, data, payload, q, d1);
    ChainAdvances(Answer, d1, payload, an, d2);
    ChainAdvances(Answer, d2, payload, au, d3);
    ChainAdvances(Answer, d3, payload, ad, rest);
    SuffixTransitive(rest, d3, d2);
    SuffixTransitive(rest, d2, d1);
    SuffixTransitive(rest, d1, data);
    SuffixIs(rest, data);
    if unconsumed != 0 { err := true; }
  }

  // ---------- Writing records ----------

  function Bytes(w: nat): (b: seq<Byte>)
    requires w < 0x1_0000
    ensures |b| == 2
  {
    [w / 0x100, w % 0x100]
  }

  lemma {:induction false} WordBytes(front: seq<Byte>, w: nat, back: seq<Byte>)
    requires w < 0x1_0000
    ensures Word(front + Bytes(w) + back, |front|) == w
  {
    var s := front + Bytes(w) + back;
    assert s[|front|] == Bytes(w)[0] && s[|front| + 1] == Bytes(w)[1];
  }

  /** What fits the fields of a record and reads back as a name. */
  predicate Writable(kind: Kind, r: Record)
  {
    && LabelsWithin(r.name, 0xbf) && 0 !in r.name && |r.name| < MAX_NAME_LENGTH
    && r.rtype < 0x1_0000 && r.class_ < 0x1_0000 && r.ttl < 0x1_0000_0000 && |r.rdata| < 0x1_0000
    && (kind == Question ==> r.ttl == 0 && r.rdata == [])
  }

  function Tail(kind: Kind, r: Record): (t: seq<Byte>)
    requires Writable(kind, r)
    ensures |t| == TailSize(kind) + |r.rdata|
  {
    Bytes(r.rtype) + Bytes(r.class_) +
    if kind == Question then []
    else Bytes(r.ttl / 0x1_0000) + Bytes(r.ttl % 0x1_0000) + Bytes(|r.rdata|) + r.rdata
  }

  /** A record on the wire, its name uncompressed. */
  function Write(kind: Kind, r: Record): seq<Byte>
    requires Writable(kind, r)
  {
    Encode(r.name) + Tail(kind, r)
  }

  lemma {:induction false} TailWords(kind: Kind, r: Record, front: seq<Byte>, back: seq<Byte>)
    requires Writable(kind, r)
    ensures var s := front + Tail(kind, r) + back; var c := |front|;
            && Word(s, c) == r.rtype && Word(s, c + 2) == r.class_
            && (kind == Answer ==>
                  && Word(s, c + 4) == r.ttl / 0x1_0000 && Word(s, c + 6) == r.ttl % 0x1_0000
                  && Word(s, c + 8) == |r.rdata| && s[c + ANSWER_TAIL..c + ANSWER_TAIL + |r.rdata|] == r.rdata)
  {
    hide Word, Bytes, LabelsWithin;
    var s := front + Tail(kind, r) + back;
    var t := Tail(kind, r);
    assert s == front + Bytes(r.rtype) + (t[2..] + back);
    WordBytes(front, r.rtype, t[2..] + back);
    assert s == (front + t[..2]) + Bytes(r.class_) + (t[4..] + back);
    WordBytes(front + t[..2], r.class_, t[4..] + back);
    if kind == Answer {
      AnswerWords(r, front, back, t, s);
    }
  }

  lemma {:induction false} AnswerWords(r: Record, front: seq<Byte>, back: seq<Byte>, t: seq<Byte>, s: seq<Byte>)
    requires Writable(Answer, r) && t == Tail(Answer, r) && s == front + t + back
    ensures var c := |front|;
            && Word(s, c + 4) == r.ttl / 0x1_0000 && Word(s, c + 6) == r.ttl % 0x1_0000
            && Word(s, c + 8) == |r.rdata| && s[c + ANSWER_TAIL..c + ANSWER_TAIL + |r.rdata|] == r.rdata
  {
    hide Word, Bytes, LabelsWithin;
    assert s == (front + t[..4]) + Bytes(r.ttl / 0x1_0000) + (t[6..] + back);
    WordBytes(front + t[..4], r.ttl / 0x1_0000, t[6..] + back);
    assert s == (front + t[..6]) + Bytes(r.ttl % 0x1_0000) + (t[8..] + back);
    WordBytes(front + t[..6], r.ttl % 0x1_0000, t[8..] + back);
    assert s == (front + t[..8]) + Bytes(|r.rdata|) + (t[10..] + back);
    WordBytes(front + t[..8], |r.rdata|, t[10..] + back);
    assert t[10..] == r.rdata;
  }

  /** A record written is the record read, whatever follows it. */
  lemma {:induction false} ParseWritten(kind: Kind, r: Record, back: seq<Byte>, payload: seq<Byte>)
    requires Writable(kind, r) && payload != []
    ensures Parse(kind, Write(kind, r) + back, payload) == Step(r, |Write(kind, r)|)
  {
    hide Decode, Encode, Tail, Word, CString, LabelsWithin;
    var data := Write(kind, r) + back;
    var q := Encode(r.name);
    assert data == q + (Tail(kind, r) + back) == q + Tail(kind, r) + back;
    RoundTripIff(r.name, Tail(kind, r) + back, payload, MAX_NAME_LENGTH - 1);
    CStringWhole(r.name);
    TailWords(kind, r, q, back);
  }

  function WriteAll(kind: Kind, rs: seq<Record>): seq<Byte>
    requires forall r :: r in rs ==> Writable(kind, r)
  {
    if rs == [] then [] else Write(kind, rs[0]) + WriteAll(kind, rs[1..])
  }

  lemma {:induction false} SectionRoundTrip(kind: Kind, rs: seq<Record>, back: seq<Byte>, payload: seq<Byte>)
    requires (forall r :: r in rs ==> Writable(kind, r)) && payload != []
    ensures Chain(kind, WriteAll(kind, rs) + back, payload, rs, back)
  {
    hide Parse, Write, Writable;
    if rs == [] {
      assert WriteAll(kind, rs) + back == back;
    } else {
      var data := WriteAll(kind, rs) + back;
      var next := WriteAll(kind, rs[1..]) + back;
      assert data == Write(kind, rs[0]) + next;
      ParseWritten(kind, rs[0], next, payload);
      assert data[|Write(kind, rs[0])|..] == next;
      SectionRoundTrip(kind, rs[1..], back, payload);
    }
  }

  predicate AllWritable(s: Sections)
  {
    && (forall r :: r in s.questions ==> Writable(Question, r))
    && (forall r :: r in s.answers ==> Writable(Answer, r))
    && (forall r :: r in s.authorities ==> Writable(Answer, r))
    && (forall r :: r in s.additionals ==> Writable(Answer, r))
  }

  function WriteSections(s: Sections): seq<Byte>
    requires AllWritable(s)
  {
    WriteAll(Question, s.questions) +
    (WriteAll(Answer, s.answers) + (WriteAll(Answer, s.authorities) + (WriteAll(Answer, s.additionals) + [])))
  }

  /** The sections written one behind the other lie there to be read, with nothing left over; by the contract of
      ProcessSections they are what is reported, without error. */
  lemma {:induction false} ResponseRoundTrip(s: Sections, payload: seq<Byte>)
    requires AllWritable(s) && payload != []
    ensures Layout(WriteSections(s), payload, s, [])
  {
    hide Chain, Writable, WriteAll;
    var d3 := WriteAll(Answer, s.additionals) + [];
    var d2 := WriteAll(Answer, s.authorities) + d3;
    var d1 := WriteAll(Answer, s.answers) + d2;
    SectionRoundTrip(Answer, s.additionals, [], payload);
    SectionRoundTrip(Answer, s.authorities, d3, payload);
    SectionRoundTrip(Answer, s.answers, d2, payload);
    SectionRoundTrip(Question, s.questions, d1, payload);
  }
}
