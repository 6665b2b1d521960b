/** src/probe_modules/module_udp.c, udp_template_load: a template split into literal data and fields. */
module UdpLoad {

  import opened CBytes
  import opened Options
  import opened UdpField

  const DOLLAR: Byte := 36
  const LBRACE: Byte := 123
  const RBRACE: Byte := 125

  /** A stretch of the template and what it became: data as it stands, or a field. */
  datatype Part = Literal(bytes: seq<Byte>) | Variable(bytes: seq<Byte>, field: Field)

  function FieldOf(part: Part): Field
  {
    match part
    case Literal(bytes) => Field(Data, |bytes|, bytes)
    case Variable(_, field) => field
  }

  function FieldsOf(parts: seq<Part>): (fs: seq<Field>)
    ensures |fs| == |parts|
  {
    if parts == [] then [] else [FieldOf(parts[0])] + FieldsOf(parts[1..])
  }

  function Source(parts: seq<Part>): seq<Byte>
  {
    if parts == [] then [] else parts[0].bytes + Source(parts[1..])
  }

  /** The largest payload the fields can make. */
  function MaxLength(fields: seq<Field>): nat
  {
    if fields == [] then 0 else fields[0].length + MaxLength(fields[1..])
  }

  /** The scanner's marks: the last dollar and left brace that may begin a field. */
  datatype Marks = Marks(dollar: Option<nat>, lbrack: Option<nat>)

  const NO_MARKS: Marks := Marks(None, None)

  /** The scanner between two bytes: data begins at s, the next byte is at p. */
  predicate Cursor(buf: seq<Byte>, s: nat, p: nat, m: Marks)
  {
    && s <= p <= |buf|
    && (m.lbrack.Some? ==> m.dollar.Some? && m.dollar.value < m.lbrack.value < p && buf[m.lbrack.value] == LBRACE)
    && (m.dollar.Some? ==> s <= m.dollar.value < p && buf[m.dollar.value] == DOLLAR)
  }

  function Lead(buf: seq<Byte>, s: nat, e: nat): seq<Part>
    requires s <= e <= |buf|
  {
    if s < e then [Literal(buf[s..e])] else []
  }

  function Prepend(front: seq<Part>, rest: Option<seq<Part>>): Option<seq<Part>>
  {
    match rest
    case None => None
    case Some(back) => Some(front + back)
  }

  /** What the scanner makes of the rest of the template; None where a field specification ends the program. */
  function Scan(ps: Parsers, buf: seq<Byte>, s: nat, p: nat, m: Marks): (r: Option<seq<Part>>)
    requires Cursor(buf, s, p, m)
    decreases |buf| - p
  {
    if p == |buf| then Some(Lead(buf, s, p))
    else if buf[p] == RBRACE && m.lbrack.Some? then
      var lead := Lead(buf, s, m.dollar.value);
      match LookupOf(ps, buf[m.lbrack.value + 1..p])
      case Fatal => None
      case Unknown => Prepend(lead, Scan(ps, buf, m.dollar.value, p + 1, NO_MARKS))
      case Known(f) => Prepend(lead + [Variable(buf[m.dollar.value..p + 1], f)], Scan(ps, buf, p + 1, p + 1, NO_MARKS))
    else Scan(ps, buf, s, p + 1, Moved(buf, p, m))
  }

  /** The marks after a byte that completes no field. */
  function Moved(buf: seq<Byte>, p: nat, m: Marks): Marks
    requires p < |buf|
  {
    if m.lbrack.Some? then m
    else if buf[p] == DOLLAR then m.(dollar := Some(p))
    else if buf[p] == LBRACE then (if m.dollar.Some? then m.(lbrack := Some(p)) else m)
    else if buf[p] == RBRACE then m
    else NO_MARKS
  }

  lemma {:induction false} SourceCons(x: seq<Part>)
    ensures Source(x) == if x == [] then [] else x[0].bytes + Source(x[1..])
  {
  }

  lemma {:induction false} SourceAppend(x: seq<Part>, y: seq<Part>)
    ensures Source(x + y) == Source(x) + Source(y)
  {
    hide Source;
    SourceCons(x);
    SourceCons(x + y);
    if x == [] {
      assert x + y == y;
      assert [] + Source(y) == Source(y);
    } else {
      SourceAppend(x[1..], y);
      assert (x + y)[0] == x[0] && (x + y)[1..] == x[1..] + y;
      Regroup(x[0].bytes, Source(x[1..]), Source(y));
    }
  }

  lemma {:induction false} LeadSource(buf: seq<Byte>, s: nat, e: nat)
    requires s <= e <= |buf|
    ensures Source(Lead(buf, s, e)) == buf[s..e]
  {
    if s < e {
      assert [Literal(buf[s..e])][1..] == [];
      assert buf[s..e] + [] == buf[s..e];
    }
  }

  lemma {:induction false} OneSource(part: Part)
    ensures Source([part]) == part.bytes
  {
    assert [part][1..] == [];
    assert part.bytes + [] == part.bytes;
  }

  /** Data and fields together are the template, in its order and without a gap. */
  lemma {:induction false} ScanPartitions(ps: Parsers, buf: seq<Byte>, s: nat, p: nat, m: Marks)
    requires Cursor(buf, s, p, m)
    ensures var r := Scan(ps, buf, s, p, m); r.Some? ==> Source(r.value) == buf[s..]
    decreases |buf| - p
  {
    hide Source, Lead, LookupOf;
    if p == |buf| {
      LeadSource(buf, s, p);
      assert buf[s..p] == buf[s..];
    } else if buf[p] == RBRACE && m.lbrack.Some? {
      var d := m.dollar.value;
      LeadSource(buf, s, d);
      match LookupOf(ps, buf[m.lbrack.value + 1..p])
      case Fatal =>
      case Unknown =>
        ScanPartitions(ps, buf, d, p + 1, NO_MARKS);
        var back := Scan(ps, buf, d, p + 1, NO_MARKS);
        if back.Some? {
          SourceAppend(Lead(buf, s, d), back.value);
          assert buf[s..d] + buf[d..] == buf[s..];
        }
      case Known(f) =>
        ScanPartitions(ps, buf, p + 1, p + 1, NO_MARKS);
        var back := Scan(ps, buf, p + 1, p + 1, NO_MARKS);
        var v := Variable(buf[d..p + 1], f);
        if back.Some? {
          OneSource(v);
          SourceAppend(Lead(buf, s, d), [v]);
          SourceAppend(Lead(buf, s, d) + [v], back.value);
          assert buf[s..d] + buf[d..p + 1] + buf[p + 1..] == buf[s..];
        }
    } else {
      ScanPartitions(ps, buf, s, p + 1, Moved(buf, p, m));
    }
  }

  /** A stretch that became a field: it runs from a dollar to a right brace, and what lies between one of its left
      braces and its end names the field. */
  ghost predicate Named(ps: Parsers, part: Part)
  {
    match part
    case Literal(bytes) => bytes != []
    case Variable(bytes, field) =>
      && |bytes| >= 3 && bytes[0] == DOLLAR && bytes[|bytes| - 1] == RBRACE
      && exists j :: 0 < j < |bytes| - 1 && bytes[j] == LBRACE
                     && LookupOf(ps, bytes[j + 1..|bytes| - 1]) == Known(field)
  }

  ghost predicate AllNamed(ps: Parsers, parts: seq<Part>)
  {
    forall i :: 0 <= i < |parts| ==> Named(ps, parts[i])
  }

  lemma {:induction false} VariableNamed(ps: Parsers, buf: seq<Byte>, d: nat, l: nat, p: nat, f: Field)
    requires d < l < p < |buf| && buf[d] == DOLLAR && buf[l] == LBRACE && buf[p] == RBRACE
    requires LookupOf(ps, buf[l + 1..p]) == Known(f)
    ensures Named(ps, Variable(buf[d..p + 1], f))
  {
    hide LookupOf;
    var bytes := buf[d..p + 1];
    var j := l - d;
    assert bytes[j] == LBRACE && bytes[j + 1..|bytes| - 1] == buf[l + 1..p];
  }

  lemma {:induction false} ScanNamed(ps: Parsers, buf: seq<Byte>, s: nat, p: nat, m: Marks)
    requires Cursor(buf, s, p, m)
    ensures var r := Scan(ps, buf, s, p, m);
            r.Some? ==> AllNamed(ps, r.value)
    decreases |buf| - p
  {
    hide Named, LookupOf;
    if p == |buf| {
      LeadNamed(ps, buf, s, p);
    } else if buf[p] == RBRACE && m.lbrack.Some? {
      var d := m.dollar.value;
      LeadNamed(ps, buf, s, d);
      match LookupOf(ps, buf[m.lbrack.value + 1..p])
      case Fatal =>
      case Unknown => ScanNamed(ps, buf, d, p + 1, NO_MARKS);
      case Known(f) =>
        VariableNamed(ps, buf, d, m.lbrack.value, p, f);
        ScanNamed(ps, buf, p + 1, p + 1, NO_MARKS);
    } else {
      assert Scan(ps, buf, s, p, m) == Scan(ps, buf, s, p + 1, Moved(buf, p, m));
      ScanNamed(ps, buf, s, p + 1, Moved(buf, p, m));
    }
  }

  lemma {:induction false} LeadNamed(ps: Parsers, buf: seq<Byte>, s: nat, e: nat)
    requires s <= e <= |buf|
    ensures AllNamed(ps, Lead(buf, s, e))
  {
  }

  // ---------- A template put together part by part is taken apart again ----------

  function Specifier(name: seq<Byte>): seq<Byte>
  {
    [DOLLAR, LBRACE] + name + [RBRACE]
  }

  /** A part as a writer of templates would put it: data without a dollar, or a specifier that names its field. */
  ghost predicate Plain(ps: Parsers, part: Part)
  {
    match part
    case Literal(bytes) => bytes != [] && DOLLAR !in bytes
    case Variable(bytes, field) =>
      exists name :: RBRACE !in name && bytes == Specifier(name) && LookupOf(ps, name) == Known(field)
  }

  /** Plain parts, no two stretches of data side by side. */
  ghost predicate Canonical(ps: Parsers, parts: seq<Part>)
  {
    && (forall i :: 0 <= i < |parts| ==> Plain(ps, parts[i]))
    && (forall i :: 0 <= i < |parts| - 1 ==> parts[i].Literal? ==> parts[i + 1].Variable?)
  }

  /** Data without a dollar leaves no mark. */
  lemma {:induction false} ScanData(ps: Parsers, buf: seq<Byte>, s: nat, p: nat, e: nat)
    requires s <= p <= e <= |buf| && DOLLAR !in buf[p..e]
    ensures Scan(ps, buf, s, p, NO_MARKS) == Scan(ps, buf, s, e, NO_MARKS)
    decreases e - p
  {
    hide LookupOf;
    if p < e {
      assert buf[p] == buf[p..e][0] && buf[p + 1..e] == buf[p..e][1..];
      ScanData(ps, buf, s, p + 1, e);
    }
  }

  /** Inside a specifier nothing but a right brace counts. */
  lemma {:induction false} ScanName(ps: Parsers, buf: seq<Byte>, s: nat, p: nat, e: nat, m: Marks)
    requires Cursor(buf, s, p, m) && m.lbrack.Some? && p <= e <= |buf| && RBRACE !in buf[p..e]
    ensures Scan(ps, buf, s, p, m) == Scan(ps, buf, s, e, m)
    decreases e - p
  {
    hide LookupOf;
    if p < e {
      assert buf[p] == buf[p..e][0] && buf[p + 1..e] == buf[p..e][1..];
      ScanName(ps, buf, s, p + 1, e, m);
    }
  }

  /** A specifier at p, with data from s before it. */
  lemma {:induction false} ScanSpecifier(ps: Parsers, buf: seq<Byte>, s: nat, p: nat, name: seq<Byte>, f: Field)
    requires s <= p && p + |name| + 3 <= |buf| && buf[p..p + |name| + 3] == Specifier(name)
    requires RBRACE !in name && LookupOf(ps, name) == Known(f)
    ensures var e := p + |name| + 3;
            Scan(ps, buf, s, p, NO_MARKS) ==
            Prepend(Lead(buf, s, p) + [Variable(Specifier(name), f)], Scan(ps, buf, e, e, NO_MARKS))
  {
    hide LookupOf, Lead;
    var n := |name|;
    var b := buf[p..p + n + 3];
    assert buf[p] == b[0] && buf[p + 1] == b[1] && buf[p + 2 + n] == b[n + 2];
    assert buf[p + 2..p + 2 + n] == b[2..2 + n] == name;
    var m := Marks(Some(p), Some(p + 1));
    assert Scan(ps, buf, s, p, NO_MARKS) == Scan(ps, buf, s, p + 1, Marks(Some(p), None));
    assert Scan(ps, buf, s, p + 1, Marks(Some(p), None)) == Scan(ps, buf, s, p + 2, m);
    ScanName(ps, buf, s, p + 2, p + 2 + n, m);
  }

  /** From the start of a part on, the parts come back. */
  lemma {:induction false} ScanCanonical(ps: Parsers, parts: seq<Part>, front: seq<Byte>)
    requires Canonical(ps, parts)
    ensures var p := |front|; Scan(ps, front + Source(parts), p, p, NO_MARKS) == Some(parts)
    decreases |parts|
  {
    hide LookupOf, Lead, Scan;
    var buf := front + Source(parts);
    var p := |front|;
    if parts == [] {
      ScanEnd(ps, buf, p);
    } else if parts[0].Variable? {
      CanonicalTail(ps, parts);
      ScanCanonical(ps, parts[1..], front + parts[0].bytes);
      Regroup(front, parts[0].bytes, Source(parts[1..]));
      assert Plain(ps, parts[0]);
      SpecifierFirst(ps, buf, p, p, parts[0]);
      LeadNone(buf, p);
      assert parts == [] + [parts[0]] + parts[1..];
    } else {
      var e := p + |parts[0].bytes|;
      assert Plain(ps, parts[0]);
      assert buf[p..e] == parts[0].bytes;
      ScanData(ps, buf, p, p, e);
      LeadSome(buf, p, e);
      CanonicalTail(ps, parts);
      if |parts| == 1 {
        OneSource(parts[0]);
        assert parts == [parts[0]] && e == |buf|;
        ScanAtEnd(ps, buf, p);
      } else {
        var rest := parts[2..];
        assert parts[1..][1..] == rest;
        CanonicalTail(ps, parts[1..]);
        var x := parts[0].bytes;
        var y := parts[1].bytes;
        ScanCanonical(ps, rest, front + x + y);
        assert Source(parts) == x + (y + Source(rest));
        Regroup(front, x, y + Source(rest));
        Regroup(front + x, y, Source(rest));
        assert Plain(ps, parts[1]);
        SpecifierFirst(ps, buf, p, e, parts[1]);
        assert parts == [parts[0]] + [parts[1]] + rest;
      }
    }
  }

  lemma {:induction false} CanonicalTail(ps: Parsers, parts: seq<Part>)
    requires Canonical(ps, parts) && parts != []
    ensures Canonical(ps, parts[1..])
  {
    hide Plain;
    forall i | 0 <= i < |parts[1..]| ensures Plain(ps, parts[1..][i]) { assert Plain(ps, parts[i + 1]); }
    forall i | 0 <= i < |parts[1..]| - 1 && parts[1..][i].Literal? ensures parts[1..][i + 1].Variable? {
      assert parts[i + 1].Literal? ==> parts[i + 1 + 1].Variable?;
    }
  }

  lemma {:induction false} ScanEnd(ps: Parsers, buf: seq<Byte>, p: nat)
    requires p == |buf|
    ensures Scan(ps, buf, p, p, NO_MARKS) == Some([])
  {
  }

  lemma {:induction false} ScanAtEnd(ps: Parsers, buf: seq<Byte>, s: nat)
    requires s <= |buf|
    ensures Scan(ps, buf, s, |buf|, NO_MARKS) == Some(Lead(buf, s, |buf|))
  {
  }

  lemma {:induction false} LeadNone(buf: seq<Byte>, p: nat)
    requires p <= |buf|
    ensures Lead(buf, p, p) == []
  {
  }

  lemma {:induction false} LeadSome(buf: seq<Byte>, s: nat, e: nat)
    requires s < e <= |buf|
    ensures Lead(buf, s, e) == [Literal(buf[s..e])]
  {
  }

  lemma {:induction false} SpecifierFirst(ps: Parsers, buf: seq<Byte>, s: nat, p: nat, v: Part)
    requires s <= p && v.Variable? && Plain(ps, v) && p + |v.bytes| <= |buf| && buf[p..p + |v.bytes|] == v.bytes
    ensures var e := p + |v.bytes|;
            Scan(ps, buf, s, p, NO_MARKS) == Prepend(Lead(buf, s, p) + [v], Scan(ps, buf, e, e, NO_MARKS))
  {
    hide LookupOf, Lead, Scan;
    var name :| RBRACE !in name && v.bytes == Specifier(name) && LookupOf(ps, name) == Known(v.field);
    ScanSpecifier(ps, buf, s, p, name, v.field);
  }

  /** Loading the text of canonical parts gives the parts. */
  lemma {:induction false} LoadRoundTrip(ps: Parsers, parts: seq<Part>)
    requires Canonical(ps, parts)
    ensures Scan(ps, Source(parts), 0, 0, NO_MARKS) == Some(parts)
  {
    ScanCanonical(ps, parts, []);
    assert [] + Source(parts) == Source(parts);
  }

  // ---------- The loader ----------

  lemma {:induction false} FieldsAppend(parts: seq<Part>, part: Part)
    ensures FieldsOf(parts + [part]) == FieldsOf(parts) + [FieldOf(part)]
  {
    if parts == [] {
      assert [part][1..] == [];
    } else {
      FieldsAppend(parts[1..], part);
      assert (parts + [part])[1..] == parts[1..] + [part];
    }
  }

  lemma {:induction false} MaxAppend(fs: seq<Field>, f: Field)
    ensures MaxLength(fs + [f]) == MaxLength(fs) + f.length
  {
    if fs == [] {
      assert [f][1..] == [];
    } else {
      MaxAppend(fs[1..], f);
      assert (fs + [f])[1..] == fs[1..] + [f];
    }
  }

  lemma {:induction false} PrependTwice(x: seq<Part>, y: seq<Part>, r: Option<seq<Part>>)
    ensures Prepend(x, Prepend(y, r)) == Prepend(x + y, r)
  {
    if r.Some? { assert x + (y + r.value) == x + y + r.value; }
  }

  /** The fields made so far, and the sum the loader keeps of their lengths. */
  ghost predicate Made(parts: seq<Part>, fields: seq<Field>, maxLength: nat)
  {
    fields == FieldsOf(parts) && maxLength == MaxLength(fields)
  }

  /** Adding the data between s and e, if there is any. */
  method AddData(buf: seq<Byte>, s: nat, e: nat, fields: seq<Field>, maxLength: nat, ghost parts: seq<Part>)
    returns (fields': seq<Field>, maxLength': nat)
    requires s <= e <= |buf| && Made(parts, fields, maxLength)
    ensures Made(parts + Lead(buf, s, e), fields', maxLength')
  {
    fields', maxLength' := fields, maxLength;
    var tlen := e - s;
    if tlen > 0 {
      FieldsAppend(parts, Literal(buf[s..e]));
      MaxAppend(fields, Field(Data, tlen, buf[s..e]));
      fields', maxLength' := fields + [Field(Data, tlen, buf[s..e])], maxLength + tlen;
    } else {
      assert parts + [] == parts;
    }
  }

  /** udp_template_load. Not ok stands for the exit on a malformed field specification. */
  method Load(ps: Parsers, buf: seq<Byte>) returns (ok: bool, fields: seq<Field>, maxLength: nat,
              ghost parts: seq<Part>)
    ensures ok <==> Scan(ps, buf, 0, 0, NO_MARKS).Some?
    ensures ok ==> Scan(ps, buf, 0, 0, NO_MARKS) == Some(parts) && Source(parts) == buf && AllNamed(ps, parts)
    ensures ok ==> fields == FieldsOf(parts) && maxLength == MaxLength(fields)
  {
    hide Scan, LookupOf, Lead, Named, Made, FieldsOf, MaxLength, Source;
    ScanPartitions(ps, buf, 0, 0, NO_MARKS);
    ScanNamed(ps, buf, 0, 0, NO_MARKS);
    assert buf[0..] == buf;
    ghost var whole := Scan(ps, buf, 0, 0, NO_MARKS);
    fields, maxLength, parts := [], 0, [];
    MadeNothing();
    var s: nat, p: nat := 0, 0;
    var dollar: Option<nat>, lbrack: Option<nat> := None, None;
    assert whole.Some? ==> [] + whole.value == whole.value;
    while p < |buf|
      invariant Cursor(buf, s, p, Marks(dollar, lbrack)) && Made(parts, fields, maxLength)
      invariant Prepend(parts, Scan(ps, buf, s, p, Marks(dollar, lbrack))) == whole
    {
      ScanStep(ps, buf, s, p, Marks(dollar, lbrack));
      if buf[p] == DOLLAR {
        if (dollar.Some? && lbrack.None?) || dollar.None? { dollar := Some(p); }
      } else if buf[p] == LBRACE {
        if dollar.Some? && lbrack.None? { lbrack := Some(p); }
      } else if buf[p] != RBRACE {
        if !(dollar.Some? && lbrack.Some?) { dollar, lbrack := None, None; }
      } else if dollar.Some? && lbrack.Some? {
        var d := dollar.value;
        ghost var lead := Lead(buf, s, d);
        fields, maxLength := AddData(buf, s, d, fields, maxLength, parts);
        var c := FieldLookup(ps, buf[lbrack.value + 1..p]);
        match c {
          case Fatal => return false, [], 0, [];
          case Unknown =>
            PrependTwice(parts, lead, Scan(ps, buf, d, p + 1, NO_MARKS));
            parts := parts + lead;
            s := d;
          case Known(f) =>
            ghost var v := Variable(buf[d..p + 1], f);
            PrependTwice(parts, lead + [v], Scan(ps, buf, p + 1, p + 1, NO_MARKS));
            MadeField(parts + lead, fields, maxLength, v);
            assert parts + (lead + [v]) == parts + lead + [v];
            parts := parts + lead + [v];
            fields, maxLength := fields + [f], maxLength + f.length;
            s := p + 1;
        }
        dollar, lbrack := None, None;
      }
      p := p + 1;
    }
    fields, maxLength := AddData(buf, s, p, fields, maxLength, parts);
    ScanStop(ps, buf, s, p, Marks(dollar, lbrack));
    parts := parts + Lead(buf, s, p);
    MadeAll(parts, fields, maxLength);
    ok := true;
  }

  lemma {:induction false} ScanStop(ps: Parsers, buf: seq<Byte>, s: nat, p: nat, m: Marks)
    requires Cursor(buf, s, p, m) && p == |buf|
    ensures Scan(ps, buf, s, p, m) == Some(Lead(buf, s, p))
  {
  }

  lemma {:induction false} ScanStep(ps: Parsers, buf: seq<Byte>, s: nat, p: nat, m: Marks)
    requires Cursor(buf, s, p, m) && p < |buf|
    ensures if buf[p] == RBRACE && m.lbrack.Some? then
              match LookupOf(ps, buf[m.lbrack.value + 1..p])
              case Fatal => Scan(ps, buf, s, p, m) == None
              case Unknown => Scan(ps, buf, s, p, m) ==
                              Prepend(Lead(buf, s, m.dollar.value), Scan(ps, buf, m.dollar.value, p + 1, NO_MARKS))
              case Known(f) => Scan(ps, buf, s, p, m) ==
                               Prepend(Lead(buf, s, m.dollar.value) + [Variable(buf[m.dollar.value..p + 1], f)],
                                       Scan(ps, buf, p + 1, p + 1, NO_MARKS))
            else Scan(ps, buf, s, p, m) == Scan(ps, buf, s, p + 1, Moved(buf, p, m))
  {
    hide LookupOf, Lead;
  }

  lemma {:induction false} MadeNothing()
    ensures Made([], [], 0)
  {
  }

  lemma {:induction false} MadeField(parts: seq<Part>, fields: seq<Field>, maxLength: nat, v: Part)
    requires Made(parts, fields, maxLength) && v.Variable?
    ensures Made(parts + [v], fields + [v.field], maxLength + v.field.length)
  {
    FieldsAppend(parts, v);
    MaxAppend(fields, v.field);
  }

  lemma {:induction false} MadeAll(parts: seq<Part>, fields: seq<Field>, maxLength: nat)
    requires Made(parts, fields, maxLength)
    ensures fields == FieldsOf(parts) && maxLength == MaxLength(fields)
  {
  }

  lemma {:induction false} PartValid(ps: Parsers, part: Part)
    requires Named(ps, part)
    ensures ValidField(FieldOf(part))
  {
    hide LookupOf;
    match part
    case Literal(bytes) =>
    case Variable(bytes, field) =>
      var j :| 0 < j < |bytes| - 1 && bytes[j] == LBRACE && LookupOf(ps, bytes[j + 1..|bytes| - 1]) == Known(field);
      LookupValid(ps, bytes[j + 1..|bytes| - 1]);
  }

  /** Every field of a loaded template can be laid out by the builder. */
  lemma {:induction false} FieldsValid(ps: Parsers, parts: seq<Part>)
    requires AllNamed(ps, parts)
    ensures forall f :: f in FieldsOf(parts) ==> ValidField(f)
  {
    hide Named, ValidField, FieldOf;
    if parts != [] {
      PartValid(ps, parts[0]);
      assert forall i :: 0 <= i < |parts[1..]| ==> parts[1..][i] == parts[i + 1];
      FieldsValid(ps, parts[1..]);
    }
  }
}
