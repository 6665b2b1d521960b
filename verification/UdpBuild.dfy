/** src/probe_modules/module_udp.c, udp_template_build: a payload laid out from the fields of a template. */
module UdpBuild {

  import opened CBytes
  import opened Options
  import opened UdpField
  import opened UdpLoad

  type Port = p: nat | p < 0x1_0000

  /** What the headers and the clock hold when a payload is built. */
  datatype Context = Context(src: Address, dst: Address, sport: Port, dport: Port, sec: nat, usec: nat)

  function Decimal(n: nat): (d: seq<Byte>)
    ensures 1 <= |d|
  {
    if n < 10 then [ZERO + n] else Decimal(n / 10) + [ZERO + n % 10]
  }

  lemma {:induction false} DecimalSize(n: nat)
    ensures n < 10 ==> |Decimal(n)| == 1
    ensures n < 100 ==> |Decimal(n)| <= 2
    ensures n < 1000 ==> |Decimal(n)| <= 3
    ensures n < 10000 ==> |Decimal(n)| <= 4
    ensures n < 100000 ==> |Decimal(n)| <= 5
  {
    if n >= 10 { DecimalSize(n / 10); }
  }

  /** The number a string of digits stands for. */
  function ReadDecimal(s: seq<Byte>): int
  {
    if s == [] then 0 else 10 * ReadDecimal(s[..|s| - 1]) + (s[|s| - 1] - ZERO)
  }

  /** The text form of a number is made of digits, has no leading zero, and reads back as the number. */
  lemma {:induction false} DecimalReads(n: nat)
    ensures ReadDecimal(Decimal(n)) == n
    ensures forall k :: 0 <= k < |Decimal(n)| ==> ZERO <= Decimal(n)[k] <= ZERO + 9
    ensures n > 0 ==> Decimal(n)[0] != ZERO
  {
    var s := Decimal(n);
    if n < 10 {
      assert s[..0] == [];
    } else {
      DecimalReads(n / 10);
      assert s[..|s| - 1] == Decimal(n / 10);
    }
  }

  function AddressText(a: Address): (t: seq<Byte>)
  {
    Decimal(a[0]) + [DOT] + Decimal(a[1]) + [DOT] + Decimal(a[2]) + [DOT] + Decimal(a[3])
  }

  function PortBytes(p: Port): (b: seq<Byte>)
    ensures |b| == 2
  {
    [p / 0x100, p % 0x100]
  }

  /** The low 32 bits of a number, high byte first. */
  function WordBytes(n: nat): (b: seq<Byte>)
    ensures |b| == 4
  {
    [n / 0x100_0000 % 0x100, n / 0x1_0000 % 0x100, n / 0x100 % 0x100, n % 0x100]
  }

  /** The character set of a random field. */
  predicate Random(t: FieldType)
  {
    t == RandByte || t == RandDigit || t == RandAlpha || t == RandAlphanum
  }

  function SetSize(t: FieldType): nat
    requires Random(t)
  {
    if t == RandDigit then 10 else if t == RandAlpha then 52 else if t == RandAlphanum then 62 else 256
  }

  /** The k-th character of the set. */
  function Glyph(t: FieldType, k: nat): Byte
    requires Random(t) && k < SetSize(t)
  {
    if t == RandDigit then ZERO + k
    else if t == RandAlpha then Letter(k)
    else if t == RandAlphanum then (if k < 52 then Letter(k) else ZERO + (k - 52))
    else (k + 1) % 256
  }

  function Character(t: FieldType, word: nat): Byte
    requires Random(t)
  {
    Glyph(t, word % 0x1_0000_0000 % SetSize(t))
  }

  function Letter(k: nat): Byte
    requires k < 52
  {
    if k < 26 then 97 + k else 65 + (k - 26)
  }

  /** n characters from the generator, whose next output is the w-th. */
  function RandomBytes(t: FieldType, words: nat -> nat, w: nat, n: nat): (b: seq<Byte>)
    requires Random(t)
    ensures |b| == n
    decreases n
  {
    if n == 0 then [] else [Character(t, words(w))] + RandomBytes(t, words, w + 1, n - 1)
  }

  /** Numbers in network byte order read back as the numbers. */
  lemma {:induction false} BytesRead(p: Port, n: nat)
    ensures Place(PortBytes(p)[0], 0x100) + Place(PortBytes(p)[1], 1) == p
    ensures var b := WordBytes(n);
            Place(b[0], 0x100_0000) + Place(b[1], 0x1_0000) + Place(b[2], 0x100) + Place(b[3], 1) == n % 0x1_0000_0000
  {
    var x := n / 0x100;
    var y := x / 0x100;
    var z := y / 0x100;
    assert n / 0x1_0000 == y && n / 0x100_0000 == z;
    assert n == 0x100 * x + n % 0x100 && x == 0x100 * y + x % 0x100 && y == 0x100 * z + y % 0x100;
    assert n % 0x1_0000_0000 == 0x100_0000 * (z % 0x100) + 0x1_0000 * (y % 0x100) + 0x100 * (x % 0x100) + n % 0x100;
  }

  function Place(b: Byte, weight: nat): nat
  {
    var n: nat := b;
    weight * n
  }

  /** What one field puts into the payload. */
  function Output(f: Field, c: Context, words: nat -> nat, w: nat): seq<Byte>
  {
    match f.ftype
    case Data => f.data
    case Hex => f.data
    case SaddrN => c.src
    case SaddrA => AddressText(c.src)
    case DaddrN => c.dst
    case DaddrA => AddressText(c.dst)
    case SportN => PortBytes(c.sport)
    case SportA => Decimal(c.sport)
    case DportN => PortBytes(c.dport)
    case DportA => Decimal(c.dport)
    case UnixSec => WordBytes(c.sec)
    case UnixUsec => WordBytes(c.usec)
    case _ => RandomBytes(f.ftype, words, w, f.length)
  }

  // ---------- What a receiver reads ----------

  /** The number of a dotted text's first part ends at its first dot, or with the text. */
  function FirstDot(t: seq<Byte>): (k: nat)
    ensures k <= |t| && DOT !in t[..k] && (k < |t| ==> t[k] == DOT)
  {
    if t == [] || t[0] == DOT then 0 else 1 + FirstDot(t[1..])
  }

  /** The numbers between the dots. */
  function Numbers(t: seq<Byte>): seq<int>
    decreases |t|
  {
    var k := FirstDot(t);
    [ReadDecimal(t[..k])] + if k == |t| then [] else Numbers(t[k + 1..])
  }

  lemma {:induction false} FirstDotOf(d: seq<Byte>, rest: seq<Byte>)
    requires DOT !in d
    ensures FirstDot(d) == |d| && FirstDot(d + [DOT] + rest) == |d|
  {
    var t := d + [DOT] + rest;
    var k := FirstDot(t);
    assert t[|d|] == DOT;
    assert forall i :: 0 <= i < |d| ==> t[i] == d[i];
  }

  lemma {:induction false} NumbersNext(n: nat, rest: seq<Byte>)
    ensures Numbers(Decimal(n)) == [n]
    ensures Numbers(Decimal(n) + [DOT] + rest) == [n] + Numbers(rest)
  {
    hide Decimal, ReadDecimal, FirstDot;
    var d := Decimal(n);
    DecimalReads(n);
    FirstDotOf(d, rest);
    assert d[..|d|] == d;
    var t := d + [DOT] + rest;
    assert t[..|d|] == d && t[|d| + 1..] == rest;
  }

  /** The text of an address reads as its four numbers. */
  lemma {:induction false} AddressReads(a: Address)
    ensures Numbers(AddressText(a)) == [a[0], a[1], a[2], a[3]]
  {
    hide Decimal, Numbers;
    var t3 := Decimal(a[3]);
    var t2 := Decimal(a[2]) + [DOT] + t3;
    var t1 := Decimal(a[1]) + [DOT] + t2;
    NumbersNext(a[3], []);
    NumbersNext(a[2], t3);
    NumbersNext(a[1], t2);
    NumbersNext(a[0], t1);
    assert AddressText(a) == Decimal(a[0]) + [DOT] + t1;
  }

  /** Decimal digits without a leading zero that stand for n. */
  ghost predicate ReadsAs(d: seq<Byte>, n: nat)
  {
    && d != [] && (forall k :: 0 <= k < |d| ==> ZERO <= d[k] <= ZERO + 9) && (n > 0 ==> d[0] != ZERO)
    && ReadDecimal(d) == n
  }

  /** The number in the first n bytes, high byte first. */
  function BigEndian(b: seq<Byte>): nat
  {
    if b == [] then 0 else 0x100 * BigEndian(b[..|b| - 1]) + Place(b[|b| - 1], 1)
  }

  lemma {:induction false} BigEndianReads(p: Port, n: nat)
    ensures BigEndian(PortBytes(p)) == p && BigEndian(WordBytes(n)) == n % 0x1_0000_0000
  {
    var b, c := PortBytes(p), WordBytes(n);
    BytesRead(p, n);
    assert b[..1] == [b[0]] && [b[0]][..0] == [];
    assert c[..3] == [c[0], c[1], c[2]] && [c[0], c[1], c[2]][..2] == [c[0], c[1]];
    assert [c[0], c[1]][..1] == [c[0]] && [c[0]][..0] == [];
    hide PortBytes, WordBytes;
    assert BigEndian([c[0]]) == Place(c[0], 1) && BigEndian([b[0]]) == Place(b[0], 1);
    assert BigEndian([c[0], c[1]]) == 0x100 * Place(c[0], 1) + Place(c[1], 1);
    assert BigEndian([c[0], c[1], c[2]]) == 0x100 * BigEndian([c[0], c[1]]) + Place(c[2], 1);
  }

  predicate IsDigit(b: Byte) { 48 <= b <= 57 }

  predicate IsLetter(b: Byte) { 65 <= b <= 90 || 97 <= b <= 122 }

  /** The characters a random field may show. */
  predicate InSet(t: FieldType, b: Byte)
  {
    && (t == RandDigit ==> IsDigit(b)) && (t == RandAlpha ==> IsLetter(b))
    && (t == RandAlphanum ==> IsDigit(b) || IsLetter(b))
  }

  /** Every residue has a character of its own, and it is in the set. */
  lemma {:induction false} GlyphsDiffer(t: FieldType, k: nat, m: nat)
    requires Random(t) && k < SetSize(t) && m < SetSize(t)
    ensures InSet(t, Glyph(t, k)) && (Glyph(t, k) == Glyph(t, m) <==> k == m)
  {
  }

  /** What a receiver reads off the bytes of a field: the source or target of the packet, the time, random characters
      of the right kind, or the bytes of the template. */
  ghost predicate Shows(f: Field, c: Context, piece: seq<Byte>)
  {
    match f.ftype
    case Data => piece == f.data
    case Hex => piece == f.data
    case SaddrN => |piece| == 4 && forall k :: 0 <= k < 4 ==> piece[k] == c.src[k]
    case DaddrN => |piece| == 4 && forall k :: 0 <= k < 4 ==> piece[k] == c.dst[k]
    case SaddrA => Numbers(piece) == [c.src[0], c.src[1], c.src[2], c.src[3]]
    case DaddrA => Numbers(piece) == [c.dst[0], c.dst[1], c.dst[2], c.dst[3]]
    case SportN => |piece| == 2 && BigEndian(piece) == c.sport
    case DportN => |piece| == 2 && BigEndian(piece) == c.dport
    case SportA => ReadsAs(piece, c.sport)
    case DportA => ReadsAs(piece, c.dport)
    case UnixSec => |piece| == 4 && BigEndian(piece) == c.sec % 0x1_0000_0000
    case UnixUsec => |piece| == 4 && BigEndian(piece) == c.usec % 0x1_0000_0000
    case _ => |piece| == f.length && forall k :: 0 <= k < |piece| ==> InSet(f.ftype, piece[k])
  }

  lemma {:induction false} OutputShows(f: Field, c: Context, words: nat -> nat, w: nat)
    ensures Shows(f, c, Output(f, c, words, w))
  {
    hide Numbers, AddressText, Decimal, ReadDecimal, BigEndian, PortBytes, WordBytes, RandomBytes, InSet, Character;
    BigEndianReads(c.sport, c.sec);
    BigEndianReads(c.dport, c.usec);
    DecimalReads(c.sport);
    DecimalReads(c.dport);
    AddressReads(c.src);
    AddressReads(c.dst);
    if Random(f.ftype) {
      forall k: nat | k < f.length ensures InSet(f.ftype, RandomBytes(f.ftype, words, w, f.length)[k]) {
        RandomAt(f.ftype, words, w, f.length, k);
        WordsReduced(f.ftype, words(w + k));
      }
    }
  }

  lemma {:induction false} WordsReduced(t: FieldType, word: nat)
    requires Random(t)
    ensures InSet(t, Character(t, word))
  {
    var k := word % 0x1_0000_0000 % SetSize(t);
    GlyphsDiffer(t, k, k);
  }

  /** The payload is the bytes of the fields in order, each of which shows what its field asks for. */
  ghost predicate Carries(fields: seq<Field>, c: Context, payload: seq<Byte>)
  {
    if fields == [] then payload == []
    else
      exists k :: 0 <= k <= |payload| && Shows(fields[0], c, payload[..k]) && Carries(fields[1..], c, payload[k..])
  }

  lemma {:induction false} OutputsCarry(fields: seq<Field>, c: Context, words: nat -> nat, w: nat)
    ensures Carries(fields, c, Outputs(fields, c, words, w))
  {
    hide Output, Shows, Draws;
    if fields != [] {
      var one := Output(fields[0], c, words, w);
      var rest := Outputs(fields[1..], c, words, w + Draws(fields[0]));
      OutputShows(fields[0], c, words, w);
      OutputsCarry(fields[1..], c, words, w + Draws(fields[0]));
      var payload := one + rest;
      assert payload[..|one|] == one && payload[|one|..] == rest;
    }
  }

  /** How many random words it draws. */
  function Draws(f: Field): nat
  {
    if Random(f.ftype) then f.length else 0
  }

  /** The text forms may be shorter than the room they are given. */
  predicate Textual(t: FieldType)
  {
    t == SaddrA || t == DaddrA || t == SportA || t == DportA
  }

  /** The field's data is as long as the field says. */
  predicate Backed(f: Field)
  {
    f.ftype == Data || f.ftype == Hex ==> |f.data| == f.length
  }

  /** The bytes the builder wants to see free for a field: its length, and what its type may take. */
  function Need(f: Field): nat
  {
    match OwnSize(f.ftype)
    case None => f.length
    case Some(own) => if own > f.length then own else f.length
  }

  lemma {:induction false} OutputFits(f: Field, c: Context, words: nat -> nat, w: nat)
    requires Backed(f)
    ensures var n := |Output(f, c, words, w)|; n <= Need(f) && (ValidField(f) && !Textual(f.ftype) ==> n == f.length)
    ensures ValidField(f) ==> Need(f) == f.length
  {
    match f.ftype
    case SaddrA => AddressSize(c.src);
    case DaddrA => AddressSize(c.dst);
    case SportA => DecimalSize(c.sport);
    case DportA => DecimalSize(c.dport);
    case _ =>
  }

  lemma {:induction false} AddressSize(a: Address)
    ensures |AddressText(a)| <= 15
  {
    DecimalSize(a[0]);
    DecimalSize(a[1]);
    DecimalSize(a[2]);
    DecimalSize(a[3]);
  }

  predicate AllValid(fields: seq<Field>)
  {
    forall f :: f in fields ==> ValidField(f)
  }

  predicate AllBacked(fields: seq<Field>)
  {
    forall f :: f in fields ==> Backed(f)
  }

  /** Everything the fields put out, one behind the other. */
  function Outputs(fields: seq<Field>, c: Context, words: nat -> nat, w: nat): seq<Byte>
  {
    if fields == [] then []
    else Output(fields[0], c, words, w) + Outputs(fields[1..], c, words, w + Draws(fields[0]))
  }

  /** Whether every field finds room at its turn, from position `at` of a buffer of len bytes: the bytes it needs
      must leave a byte over. */
  predicate Room(fields: seq<Field>, c: Context, words: nat -> nat, w: nat, at: nat, len: nat)
  {
    fields != [] ==>
      && at + Need(fields[0]) < len
      && Room(fields[1..], c, words, w + Draws(fields[0]), at + |Output(fields[0], c, words, w)|, len)
  }

  lemma {:induction false} ValidIsBacked(fields: seq<Field>)
    requires AllValid(fields)
    ensures AllBacked(fields)
  {
  }

  lemma {:induction false} OutputsFit(fields: seq<Field>, c: Context, words: nat -> nat, w: nat)
    requires AllValid(fields) && AllBacked(fields)
    ensures |Outputs(fields, c, words, w)| <= MaxLength(fields)
    ensures (forall f :: f in fields ==> !Textual(f.ftype)) ==> |Outputs(fields, c, words, w)| == MaxLength(fields)
  {
    hide Output, ValidField, Textual;
    if fields != [] {
      OutputFits(fields[0], c, words, w);
      OutputsFit(fields[1..], c, words, w + Draws(fields[0]));
    }
  }

  /** Room for the largest payload is room enough; without text forms it is also needed. */
  lemma {:induction false} RoomByLength(fields: seq<Field>, c: Context, words: nat -> nat, w: nat, at: nat, len: nat)
    requires AllValid(fields) && AllBacked(fields)
    ensures at + MaxLength(fields) < len ==> Room(fields, c, words, w, at, len)
    ensures Room(fields, c, words, w, at, len) && fields != [] ==> at + |Outputs(fields, c, words, w)| < len
    ensures (forall f :: f in fields ==> !Textual(f.ftype)) && fields != [] ==>
              (Room(fields, c, words, w, at, len) <==> at + MaxLength(fields) < len)
    decreases |fields|
  {
    hide Output, ValidField, Textual;
    if fields != [] {
      var out := Output(fields[0], c, words, w);
      OutputFits(fields[0], c, words, w);
      RoomByLength(fields[1..], c, words, w + Draws(fields[0]), at + |out|, len);
    }
  }

  /** The bytes at a position replaced by others. */
  ghost predicate Replaced(now: seq<Byte>, next: seq<Byte>, at: nat, more: seq<Byte>)
  {
    at + |more| <= |now| && next == now[..at] + more + now[at + |more|..]
  }

  /** udp_random_bytes: the characters go to the buffer one by one. */
  method PutRandom(out: array<Byte>, at: nat, n: nat, t: FieldType, words: nat -> nat, w: nat)
    requires at + n <= out.Length && Random(t)
    modifies out
    ensures Replaced(old(out[..]), out[..], at, RandomBytes(t, words, w, n))
  {
    hide Character, RandomBytes;
    ghost var before := out[..];
    ghost var all := RandomBytes(t, words, w, n);
    for i := 0 to n
      invariant forall k :: 0 <= k < i ==> out[at + k] == all[k]
      invariant forall k :: 0 <= k < out.Length && (k < at || at + i <= k) ==> out[k] == before[k]
    {
      RandomAt(t, words, w, n, i);
      out[at + i] := Character(t, words(w + i));
    }
    assert out[..] == before[..at] + all + before[at + n..];
  }

  lemma {:induction false} RandomAt(t: FieldType, words: nat -> nat, w: nat, n: nat, i: nat)
    requires Random(t) && i < n
    ensures RandomBytes(t, words, w, n)[i] == Character(t, words(w + i))
    decreases n
  {
    hide Character;
    if i > 0 { RandomAt(t, words, w + 1, n - 1, i - 1); }
  }

  method Put(out: array<Byte>, at: nat, bytes: seq<Byte>)
    requires at + |bytes| <= out.Length
    modifies out
    ensures Replaced(old(out[..]), out[..], at, bytes)
  {
    forall k | 0 <= k < |bytes| { out[at + k] := bytes[k]; }
  }

  /** The buffer holds the payload so far and is unchanged from there on. */
  ghost predicate Holds(now: seq<Byte>, before: seq<Byte>, payload: seq<Byte>)
  {
    |payload| <= |before| && now == payload + before[|payload|..]
  }

  lemma {:induction false} HoldsMore(now: seq<Byte>, next: seq<Byte>, before: seq<Byte>, payload: seq<Byte>,
                                     more: seq<Byte>)
    requires Holds(now, before, payload) && |payload| + |more| <= |now|
    requires Replaced(now, next, |payload|, more)
    ensures Holds(next, before, payload + more)
  {
  }

  /** One field of udp_template_build's loop: refused where the buffer could be filled up. */
  method PutField(f: Field, out: array<Byte>, p: nat, len: nat, c: Context, words: nat -> nat,
                  w: nat) returns (ok: bool)
    requires Backed(f) && len <= out.Length
    modifies out
    ensures ok <==> p + Need(f) < len
    ensures !ok ==> out[..] == old(out[..])
    ensures ok ==> var more := Output(f, c, words, w);
                   p + |more| < len && Replaced(old(out[..]), out[..], p, more)
  {
    hide ValidField, OwnSize, Need, RandomBytes, Replaced;
    NeedIs(f);
    OutputFits(f, c, words, w);
    if p + f.length >= len { return false; }
    var own := OwnSize(f.ftype);
    if own.Some? && p + own.value >= len { return false; }
    if Random(f.ftype) {
      PutRandom(out, p, f.length, f.ftype, words, w);
    } else {
      Put(out, p, Output(f, c, words, w));
    }
    ok := true;
  }

  /** Half way: the payload of the first x fields is laid out, and the others decide the rest. */
  ghost predicate Progress(fields: seq<Field>, c: Context, words: nat -> nat, len: nat, x: nat, w: nat,
                           payload: seq<Byte>)
    requires x <= |fields|
  {
    && Room(fields, c, words, 0, 0, len) == Room(fields[x..], c, words, w, |payload|, len)
    && payload + Outputs(fields[x..], c, words, w) == Outputs(fields, c, words, 0)
  }

  lemma {:induction false} ProgressStart(fields: seq<Field>, c: Context, words: nat -> nat, len: nat)
    ensures Progress(fields, c, words, len, 0, 0, [])
  {
    hide Room, Outputs;
    assert fields[0..] == fields;
    assert [] + Outputs(fields, c, words, 0) == Outputs(fields, c, words, 0);
  }

  lemma {:induction false} ProgressStep(fields: seq<Field>, c: Context, words: nat -> nat, len: nat, x: nat, w: nat,
                                        payload: seq<Byte>)
    requires x < |fields| && Progress(fields, c, words, len, x, w, payload)
    ensures var f := fields[x];
            if |payload| + Need(f) < len then
              Progress(fields, c, words, len, x + 1, w + Draws(f), payload + Output(f, c, words, w))
            else !Room(fields, c, words, 0, 0, len)
  {
    hide Room, Outputs, Output, Need, Draws;
    RoomStep(fields[x..], c, words, w, |payload|, len);
    assert fields[x..][1..] == fields[x + 1..];
    Regroup(payload, Output(fields[x], c, words, w), Outputs(fields[x + 1..], c, words, w + Draws(fields[x])));
  }

  lemma {:induction false} ProgressEnd(fields: seq<Field>, c: Context, words: nat -> nat, len: nat, w: nat,
                                       payload: seq<Byte>)
    requires Progress(fields, c, words, len, |fields|, w, payload)
    ensures Room(fields, c, words, 0, 0, len) && payload == Outputs(fields, c, words, 0)
  {
    assert fields[|fields|..] == [];
    RoomEnd(c, words, w, |payload|, len);
    hide Room, Outputs;
    assert payload + [] == payload;
  }

  /** udp_template_build: the length of the payload laid out in `out`, or zero where a field finds no room. */
  method Build(fields: seq<Field>, out: array<Byte>, len: nat, c: Context, words: nat -> nat) returns (n: nat)
    requires AllBacked(fields) && len <= out.Length
    modifies out
    ensures Room(fields, c, words, 0, 0, len) ==>
              n == |Outputs(fields, c, words, 0)| && Holds(out[..], old(out[..]), Outputs(fields, c, words, 0))
    ensures Room(fields, c, words, 0, 0, len) ==> n <= out.Length && Carries(fields, c, out[..n])
    ensures !Room(fields, c, words, 0, 0, len) ==> n == 0
    ensures n > 0 ==> n < len
    ensures forall k :: len <= k < out.Length ==> out[k] == old(out[k])
  {
    hide Output, Room, Outputs, Need, Holds, Progress, Backed, Replaced, Carries;
    ghost var before := out[..];
    ghost var payload: seq<Byte> := [];
    HoldsNothing(before);
    ProgressStart(fields, c, words, len);
    var p: nat, w: nat := 0, 0;
    for x := 0 to |fields|
      invariant p == |payload| && (p < len || p == 0)
      invariant Holds(out[..], before, payload)
      invariant Progress(fields, c, words, len, x, w, payload)
    {
      ghost var now := out[..];
      HoldsBeyond(now, before, payload, len);
      ProgressStep(fields, c, words, len, x, w, payload);
      var ok := PutField(fields[x], out, p, len, c, words, w);
      if !ok { return 0; }
      HoldsMore(now, out[..], before, payload, Output(fields[x], c, words, w));
      payload := payload + Output(fields[x], c, words, w);
      p, w := p + |Output(fields[x], c, words, w)|, w + Draws(fields[x]);
    }
    n := p;
    ProgressEnd(fields, c, words, len, w, payload);
    HoldsBeyond(out[..], before, payload, len);
    HoldsFront(out[..], before, payload);
    OutputsCarry(fields, c, words, 0);
  }

  lemma {:induction false} HoldsFront(now: seq<Byte>, before: seq<Byte>, payload: seq<Byte>)
    requires Holds(now, before, payload)
    ensures |payload| <= |now| && now[..|payload|] == payload
  {
  }

  lemma {:induction false} HoldsNothing(before: seq<Byte>)
    ensures Holds(before, before, [])
  {
  }

  lemma {:induction false} HoldsBeyond(now: seq<Byte>, before: seq<Byte>, payload: seq<Byte>, len: nat)
    requires Holds(now, before, payload) && |payload| <= len
    ensures |now| == |before| && forall k :: len <= k < |now| ==> now[k] == before[k]
  {
  }

  lemma {:induction false} RoomEnd(c: Context, words: nat -> nat, w: nat, at: nat, len: nat)
    ensures Room([], c, words, w, at, len) && Outputs([], c, words, w) == []
  {
  }

  lemma {:induction false} NeedIs(f: Field)
    ensures f.length <= Need(f) && (OwnSize(f.ftype).Some? ==> OwnSize(f.ftype).value <= Need(f))
    ensures Need(f) == f.length || (OwnSize(f.ftype).Some? && Need(f) == OwnSize(f.ftype).value)
  {
  }

  lemma {:induction false} RoomStep(fields: seq<Field>, c: Context, words: nat -> nat, w: nat, at: nat, len: nat)
    requires fields != []
    ensures Room(fields, c, words, w, at, len) <==>
              && at + Need(fields[0]) < len
              && Room(fields[1..], c, words, w + Draws(fields[0]), at + |Output(fields[0], c, words, w)|, len)
    ensures Outputs(fields, c, words, w) ==
            Output(fields[0], c, words, w) + Outputs(fields[1..], c, words, w + Draws(fields[0]))
  {
  }

  // ---------- From template to payload ----------

  /** A loaded template: the payload never exceeds the length the loader announces, and fits whenever that does. */
  lemma {:induction false} LoadedBuilds(ps: Parsers, buf: seq<Byte>, parts: seq<Part>, c: Context, words: nat -> nat,
                                        w: nat, len: nat)
    requires Scan(ps, buf, 0, 0, NO_MARKS) == Some(parts)
    ensures var fields := FieldsOf(parts);
            && AllBacked(fields) && |Outputs(fields, c, words, w)| <= MaxLength(fields)
            && (MaxLength(fields) < len ==> Room(fields, c, words, w, 0, len))
            && (Room(fields, c, words, w, 0, len) && fields != [] ==> |Outputs(fields, c, words, w)| < len)
  {
    hide Scan, Outputs, Room, MaxLength, FieldsOf, ValidField;
    var fields := FieldsOf(parts);
    ScanNamed(ps, buf, 0, 0, NO_MARKS);
    FieldsValid(ps, parts);
    ValidIsBacked(fields);
    OutputsFit(fields, c, words, w);
    RoomByLength(fields, c, words, w, 0, len);
  }

  lemma {:induction false} LiteralOutputs(parts: seq<Part>, c: Context, words: nat -> nat, w: nat)
    requires forall i :: 0 <= i < |parts| ==> parts[i].Literal?
    ensures var fields := FieldsOf(parts);
            && AllValid(fields) && AllBacked(fields) && (forall f :: f in fields ==> !Textual(f.ftype))
            && Outputs(fields, c, words, w) == Source(parts) && MaxLength(fields) == |Source(parts)|
  {
    if parts != [] {
      LiteralOutputs(parts[1..], c, words, w);
      assert FieldsOf(parts)[1..] == FieldsOf(parts[1..]);
    }
  }

  /** A template in which no field is recognised is sent as it stands, exactly when it leaves a byte of the buffer
      over, or is empty. */
  lemma {:induction false} PlainTemplate(ps: Parsers, buf: seq<Byte>, parts: seq<Part>, c: Context, words: nat -> nat,
                                         w: nat, len: nat)
    requires Scan(ps, buf, 0, 0, NO_MARKS) == Some(parts)
    requires forall i :: 0 <= i < |parts| ==> parts[i].Literal?
    ensures Outputs(FieldsOf(parts), c, words, w) == buf
    ensures Room(FieldsOf(parts), c, words, w, 0, len) <==> buf == [] || |buf| < len
  {
    hide Scan, Outputs, MaxLength, ValidField, Named;
    ScanPartitions(ps, buf, 0, 0, NO_MARKS);
    assert buf[0..] == buf;
    LiteralOutputs(parts, c, words, w);
    RoomByLength(FieldsOf(parts), c, words, w, 0, len);
    if buf == [] {
      ScanEmpty(ps);
    }
  }

  lemma {:induction false} ScanEmpty(ps: Parsers)
    ensures Scan(ps, [], 0, 0, NO_MARKS) == Some([])
  {
  }
}
