/** lib/blocklist.c: which addresses a scan may probe, built from allow and block prefixes. */
module Blocklist {
  import opened Bits
  import opened ConstraintTree
  import opened ConstraintRank
  import opened ConstraintHistory
  import opened Options
  import C = Constraint

  const DISALLOWED: nat := 0
  const ALLOWED: nat := 1

  datatype Cidr = Cidr(addr: nat, len: nat)

  predicate ValidCidr(c: Cidr)
  {
    c.addr < TWO_32 && c.len <= 32
  }

  /** What parsing one list entry can yield. A host name resolves to any number of addresses. */
  datatype Entry =
    | Ipv6
    | BadPrefixLength
    | Unresolved
    | Prefix(cidr: Cidr)
    | Hosts(addrs: seq<nat>, len: nat)

  /** Address a lies in the prefix. */
  predicate Holds(c: Cidr, address: nat)
  {
    c.len <= 32 && Contains(c.addr, c.len, address)
  }

  /** What a user means by an entry: the addresses of its prefix, or of the prefix of that length around each address
      of the host. */
  ghost predicate EntryHolds(e: Entry, address: nat)
  {
    match e
    case Prefix(c) => Holds(c, address)
    case Hosts(addrs, len) => exists k :: 0 <= k < |addrs| && Holds(Cidr(addrs[k], len), address)
    case _ => false
  }

  ghost predicate SomeEntryHolds(es: seq<Entry>, address: nat)
  {
    exists i :: 0 <= i < |es| && EntryHolds(es[i], address)
  }

  predicate ValidEntry(e: Entry)
  {
    match e
    case Prefix(c) => ValidCidr(c)
    case Hosts(addrs, len) => len <= 32 && forall k :: 0 <= k < |addrs| ==> addrs[k] < TWO_32
    case _ => true
  }

  /** The prefixes an entry contributes. */
  function Cidrs(e: Entry): seq<Cidr>
  {
    match e
    case Prefix(c) => [c]
    case Hosts(addrs, len) => HostCidrs(addrs, len)
    case _ => []
  }

  function HostCidrs(addrs: seq<nat>, len: nat): (cs: seq<Cidr>)
    ensures |cs| == |addrs| && forall k :: 0 <= k < |addrs| ==> cs[k] == Cidr(addrs[k], len)
  {
    if addrs == [] then [] else HostCidrs(addrs[..|addrs| - 1], len) + [Cidr(addrs[|addrs| - 1], len)]
  }

  /** The entry ends the program: a bad length always, an unusable host unless told to ignore it. */
  predicate Fatal(e: Entry, ignoreInvalid: bool)
  {
    e.BadPrefixLength? || (!ignoreInvalid && (e.Unresolved? || (e.Hosts? && e.addrs == [])))
  }

  function AllCidrs(es: seq<Entry>): seq<Cidr>
  {
    if es == [] then [] else AllCidrs(es[..|es| - 1]) + Cidrs(es[|es| - 1])
  }

  function Paints(cs: seq<Cidr>, value: nat): seq<Paint>
  {
    if cs == [] then []
    else Paints(cs[..|cs| - 1], value) + [Paint(cs[|cs| - 1].addr, cs[|cs| - 1].len, value)]
  }

  ghost predicate CoveredBy(cs: seq<Cidr>, address: nat)
  {
    exists i :: 0 <= i < |cs| && Holds(cs[i], address)
  }

  lemma {:induction false} AllCidrsSnoc(es: seq<Entry>, i: nat)
    requires i < |es|
    ensures AllCidrs(es[..i + 1]) == AllCidrs(es[..i]) + Cidrs(es[i])
  {
    assert es[..i + 1][..i] == es[..i];
  }

  lemma {:induction false} AllCidrsNext(es: seq<Entry>, e: Entry)
    ensures AllCidrs(es + [e]) == AllCidrs(es) + Cidrs(e)
  {
    hide Cidrs;
    assert (es + [e])[..|es|] == es;
  }

  lemma {:induction false} AllCidrsAppend(x: seq<Entry>, y: seq<Entry>)
    ensures AllCidrs(x + y) == AllCidrs(x) + AllCidrs(y)
  {
    if y == [] {
      assert x + y == x;
    } else {
      hide AllCidrs, Cidrs;
      var n := |y| - 1;
      AllCidrsAppend(x, y[..n]);
      AllCidrsNext(x + y[..n], y[n]);
      AllCidrsNext(y[..n], y[n]);
      LastEntry(x, y);
      Chained(AllCidrs(x), AllCidrs(y[..n]), Cidrs(y[n]));
    }
  }

  lemma {:induction false} LastEntry(x: seq<Entry>, y: seq<Entry>)
    requires y != []
    ensures x + y == x + y[..|y| - 1] + [y[|y| - 1]] && y == y[..|y| - 1] + [y[|y| - 1]]
  {
  }

  lemma {:induction false} Chained(a: seq<Cidr>, b: seq<Cidr>, c: seq<Cidr>)
    ensures a + b + c == a + (b + c)
  {
  }

  /** The prefixes of an entry cover what the entry means. */
  lemma {:induction false} CidrsMeaning(e: Entry, a: nat)
    ensures CoveredBy(Cidrs(e), a) <==> EntryHolds(e, a)
  {
    hide Holds;
    match e
    case Prefix(c) => assert Cidrs(e)[0] == c;
    case Hosts(addrs, len) =>
      if EntryHolds(e, a) {
        var k :| 0 <= k < |addrs| && Holds(Cidr(addrs[k], len), a);
        assert Cidrs(e)[k] == Cidr(addrs[k], len);
      }
    case _ =>
  }

  lemma {:induction false} CoveredAppend(x: seq<Cidr>, y: seq<Cidr>, a: nat)
    ensures CoveredBy(x + y, a) <==> CoveredBy(x, a) || CoveredBy(y, a)
  {
    hide Holds;
    var cs := x + y;
    assert forall i :: 0 <= i < |x| ==> cs[i] == x[i];
    assert forall i :: 0 <= i < |y| ==> cs[|x| + i] == y[i];
  }

  /** The prefixes of a list cover exactly the addresses that some entry of the list means. */
  lemma {:induction false} AllCidrsMeaning(es: seq<Entry>, a: nat)
    ensures CoveredBy(AllCidrs(es), a) <==> SomeEntryHolds(es, a)
  {
    hide EntryHolds, CoveredBy, Cidrs;
    if es == [] {
      NothingCovered(a);
    } else {
      var n := |es| - 1;
      AllCidrsMeaning(es[..n], a);
      CoveredAppend(AllCidrs(es[..n]), Cidrs(es[n]), a);
      CidrsMeaning(es[n], a);
      assert forall i :: 0 <= i < n ==> es[..n][i] == es[i];
    }
  }

  lemma {:induction false} AllCidrsValid(es: seq<Entry>)
    requires forall i :: 0 <= i < |es| ==> ValidEntry(es[i])
    ensures forall i :: 0 <= i < |AllCidrs(es)| ==> ValidCidr(AllCidrs(es)[i])
  {
    if es != [] {
      AllCidrsValid(es[..|es| - 1]);
    }
  }

  /** Painting one colour last: covered addresses get it, the others keep what was below. */
  lemma {:induction false} TopmostOneColour(init: nat, ps: seq<Paint>, cs: seq<Cidr>, value: nat, a: nat)
    requires AllValid(ps) && forall i :: 0 <= i < |cs| ==> ValidCidr(cs[i])
    ensures AllValid(ps + Paints(cs, value))
    ensures Topmost(init, ps + Paints(cs, value), a) ==
            if CoveredBy(cs, a) then value else Topmost(init, ps, a)
  {
    hide Topmost, CoveredBy, Holds, Contains, ValidCidr;
    var all := ps + Paints(cs, value);
    if cs == [] {
      assert all == ps;
      NothingCovered(a);
    } else {
      var last, rest := cs[|cs| - 1], cs[..|cs| - 1];
      TopmostOneColour(init, ps, rest, value, a);
      assert cs == rest + [last];
      CoveredSnoc(rest, last, a);
      assert all == ps + Paints(rest, value) + [Paint(last.addr, last.len, value)];
      TopmostSnoc(init, ps + Paints(rest, value), last, value, a);
    }
  }

  lemma {:induction false} NothingCovered(a: nat)
    ensures !CoveredBy([], a)
  {
  }

  lemma {:induction false} CoveredSnoc(rest: seq<Cidr>, last: Cidr, a: nat)
    ensures CoveredBy(rest + [last], a) <==> CoveredBy(rest, a) || Holds(last, a)
  {
    hide Holds;
    var cs := rest + [last];
    assert cs[|rest|] == last;
    if CoveredBy(rest, a) {
      var i :| 0 <= i < |rest| && Holds(rest[i], a);
      assert cs[i] == rest[i];
    }
  }

  lemma {:induction false} TopmostSnoc(init: nat, ps: seq<Paint>, c: Cidr, value: nat, a: nat)
    requires AllValid(ps) && ValidCidr(c)
    ensures AllValid(ps + [Paint(c.addr, c.len, value)])
    ensures Topmost(init, ps + [Paint(c.addr, c.len, value)], a) == if Holds(c, a) then value else Topmost(init, ps, a)
  {
    hide Contains;
    var all := ps + [Paint(c.addr, c.len, value)];
    assert all[..|all| - 1] == ps;
  }

  /** The four sources of a blocklist_init call; a missing file is None. */
  datatype Lists = Lists(allowFile: Option<seq<Entry>>, allowEntries: seq<Entry>,
                         blockFile: Option<seq<Entry>>, blockEntries: seq<Entry>)
  {
    /** All entries of the allowlist, and of the blocklist, in the order they are read. */
    function Allow(): seq<Entry> { Both(allowFile, allowEntries) }

    function Block(): seq<Entry> { Both(blockFile, blockEntries) }

    predicate HasAllowlist() { allowFile.Some? || allowEntries != [] }

    predicate Valid()
    {
      && (allowFile.Some? ==> AllEntriesValid(allowFile.value)) && AllEntriesValid(allowEntries)
      && (blockFile.Some? ==> AllEntriesValid(blockFile.value)) && AllEntriesValid(blockEntries)
    }

    /** Some entry of one of the four sources ends the program. */
    ghost predicate AnyFatal(ignoreInvalid: bool)
    {
      || (allowFile.Some? && SomeFatal(allowFile.value, ignoreInvalid)) || SomeFatal(allowEntries, ignoreInvalid)
      || (blockFile.Some? && SomeFatal(blockFile.value, ignoreInvalid)) || SomeFatal(blockEntries, ignoreInvalid)
    }

    /** The promise to the user: if there is an allowlist, some entry of its file or of the command line means the
        address; no entry of the blocklist, file or command line, means it; and it is not 0.0.0.0. */
    ghost predicate Permits(address: nat)
    {
      && (allowFile.Some? || allowEntries != [] ==>
            (allowFile.Some? && SomeEntryHolds(allowFile.value, address)) || SomeEntryHolds(allowEntries, address))
      && !(blockFile.Some? && SomeEntryHolds(blockFile.value, address))
      && !SomeEntryHolds(blockEntries, address)
      && address != 0
    }

    /** Every paint of the initialisation, in order. */
    function History(): seq<Paint>
    {
      Paints(AllCidrs(Allow()), ALLOWED) + Paints(AllCidrs(Block()), DISALLOWED) + [Paint(0, 32, DISALLOWED)]
    }

    function InitialValue(): nat { if HasAllowlist() then DISALLOWED else ALLOWED }

    /** The initialisation order makes the topmost colour the promised one. */
    lemma {:induction false} HistoryMeaning(address: nat)
      requires Valid() && address < TWO_32
      ensures AllValid(History())
      ensures Topmost(InitialValue(), History(), address) == if Permits(address) then ALLOWED else DISALLOWED
    {
      hide Topmost, SomeEntryHolds, ValidEntry, AllCidrs, CoveredBy, Paints;
      BothValid(allowFile, allowEntries);
      BothValid(blockFile, blockEntries);
      AllCidrsValid(Allow());
      AllCidrsValid(Block());
      BothMeaning(allowFile, allowEntries, address);
      BothMeaning(blockFile, blockEntries, address);
      TwoColours(InitialValue(), AllCidrs(Allow()), AllCidrs(Block()), address);
    }
  }

  predicate AllEntriesValid(es: seq<Entry>)
  {
    forall i :: 0 <= i < |es| ==> ValidEntry(es[i])
  }

  ghost predicate SomeFatal(es: seq<Entry>, ignoreInvalid: bool)
  {
    exists i :: 0 <= i < |es| && Fatal(es[i], ignoreInvalid)
  }

  /** The entries of a file, if there is one, and of the command line. */
  function Both(file: Option<seq<Entry>>, entries: seq<Entry>): seq<Entry>
  {
    (if file.Some? then file.value else []) + entries
  }

  lemma {:induction false} BothValid(file: Option<seq<Entry>>, entries: seq<Entry>)
    requires (file.Some? ==> AllEntriesValid(file.value)) && AllEntriesValid(entries)
    ensures AllEntriesValid(Both(file, entries))
  {
    hide ValidEntry;
  }

  lemma {:induction false} BothMeaning(file: Option<seq<Entry>>, entries: seq<Entry>, a: nat)
    ensures CoveredBy(AllCidrs(Both(file, entries)), a) <==>
            (file.Some? && SomeEntryHolds(file.value, a)) || SomeEntryHolds(entries, a)
  {
    hide EntryHolds, CoveredBy, AllCidrs;
    var all := Both(file, entries);
    AllCidrsMeaning(all, a);
    if file.Some? {
      var n := |file.value|;
      assert forall i :: 0 <= i < n ==> all[i] == file.value[i];
      assert forall i :: 0 <= i < |entries| ==> all[n + i] == entries[i];
    } else {
      assert all == entries;
    }
  }

  lemma {:induction false} TwoColours(init: nat, a: seq<Cidr>, b: seq<Cidr>, address: nat)
    requires forall i :: 0 <= i < |a| ==> ValidCidr(a[i])
    requires forall i :: 0 <= i < |b| ==> ValidCidr(b[i])
    ensures var ps := Paints(a, ALLOWED) + Paints(b, DISALLOWED) + [Paint(0, 32, DISALLOWED)];
            AllValid(ps) &&
            Topmost(init, ps, address) ==
            if address == 0 || CoveredBy(b, address) then DISALLOWED
            else if CoveredBy(a, address) then ALLOWED else init
  {
    var ps := Paints(a, ALLOWED);
    var qs := ps + Paints(b, DISALLOWED);
    assert [] + ps == ps;
    TopmostOneColour(init, [], a, ALLOWED, address);
    TopmostOneColour(init, ps, b, DISALLOWED, address);
    assert (qs + [Paint(0, 32, DISALLOWED)])[..|qs|] == qs;
    assert Contains(0, 32, address) <==> address == 0;
  }

  /** From tree t to tree u exactly the addresses the entry means have changed to the value. */
  ghost predicate Recoloured(t: Tree, u: Tree, e: Entry, value: nat)
  {
    && DepthAtMost(t, 32) && DepthAtMost(u, 32)
    && forall a: nat :: a < P2(32) ==> At(u, 32, a) == if EntryHolds(e, a) then value else At(t, 32, a)
  }

  lemma {:induction false} CidrsIs(e: Entry)
    requires ValidEntry(e)
    ensures forall i :: 0 <= i < |Cidrs(e)| ==> ValidCidr(Cidrs(e)[i])
    ensures Cidrs(e) == match e
                        case Prefix(c) => [c]
                        case Hosts(addrs, len) => HostCidrs(addrs, len)
                        case _ => []
  {
  }

  /** Painting the prefixes of an entry recolours what the entry means. */
  lemma {:induction false} PaintedEntry(init: nat, ps: seq<Paint>, e: Entry, value: nat)
    requires AllValid(ps) && ValidEntry(e)
    ensures Recoloured(Build(init, ps), Build(init, ps + Paints(Cidrs(e), value)), e, value)
  {
    CidrsIs(e);
    hide Build, Topmost, At, P2, EntryHolds, Cidrs, Paints, CoveredBy, ValidCidr;
    var after := ps + Paints(Cidrs(e), value);
    PaintedAt(init, ps, e, value, 0);
    forall a: nat | a < P2(32)
      ensures At(Build(init, after), 32, a) == if EntryHolds(e, a) then value else At(Build(init, ps), 32, a)
    {
      PaintedAt(init, ps, e, value, a);
    }
  }

  lemma {:induction false} PaintedAt(init: nat, ps: seq<Paint>, e: Entry, value: nat, a: nat)
    requires AllValid(ps) && ValidEntry(e) && a < P2(32)
    ensures var t, u := Build(init, ps), Build(init, ps + Paints(Cidrs(e), value));
            && DepthAtMost(t, 32) && DepthAtMost(u, 32)
            && At(u, 32, a) == if EntryHolds(e, a) then value else At(t, 32, a)
  {
    CidrsIs(e);
    hide Build, Topmost, At, P2, EntryHolds, Cidrs, Paints, CoveredBy, ValidCidr;
    TopmostOneColour(init, ps, Cidrs(e), value, a);
    CidrsMeaning(e, a);
    LastPaintWins(init, ps, a);
    LastPaintWins(init, ps + Paints(Cidrs(e), value), a);
  }

  class Blocklist {
    const con: C.Constraint
    var blocked: seq<Cidr>
    var allowed: seq<Cidr>
    ghost var init: nat
    ghost var history: seq<Paint>

    ghost var Repr: set<object>

    ghost predicate Valid()
      reads this, Repr
    {
      && this in Repr && con in Repr && con.radix in Repr && con.root in Repr && con.root.Repr <= Repr
      && con.Valid() && AllValid(history) && con.Tree() == Build(init, history)
    }

    constructor (value: nat)
      ensures Valid() && fresh(Repr) && init == value && history == []
      ensures blocked == [] && allowed == []
    {
      con := new C.Constraint(value);
      blocked, allowed, init, history := [], [], value, [];
      new;
      Repr := {this} + con.Footprint();
    }

    /** _add_constraint */
    method AddConstraint(c: Cidr, value: nat)
      requires Valid() && ValidCidr(c) && (value == ALLOWED || value == DISALLOWED)
      modifies Repr
      ensures Valid() && fresh(Repr - old(Repr))
      ensures init == old(init) && history == old(history) + [Paint(c.addr, c.len, value)]
      ensures allowed == if value == ALLOWED then old(allowed) + [c] else old(allowed)
      ensures blocked == if value == DISALLOWED then old(blocked) + [c] else old(blocked)
    {
      con.Set(c.addr, c.len, value);
      history := history + [Paint(c.addr, c.len, value)];
      Repr := Repr + con.Footprint();
      if value == ALLOWED {
        allowed := allowed + [c];
      } else {
        blocked := blocked + [c];
      }
    }

    /** Adds prefixes one after another. */
    method AddAll(cs: seq<Cidr>, value: nat)
      requires Valid() && (value == ALLOWED || value == DISALLOWED)
      requires forall i :: 0 <= i < |cs| ==> ValidCidr(cs[i])
      modifies Repr
      ensures Valid() && fresh(Repr - old(Repr)) && init == old(init)
      ensures history == old(history) + Paints(cs, value)
    {
      hide *;
      PaintsNil(cs, value);
      for i := 0 to |cs|
        invariant Valid() && fresh(Repr - old(Repr)) && init == old(init)
        invariant history == old(history) + Paints(cs[..i], value)
      {
        AddConstraint(cs[i], value);
        PaintsSnoc(cs[..i], cs[i], value);
        assert cs[..i + 1] == cs[..i] + [cs[i]];
      }
      assert cs[..|cs|] == cs;
    }

    /** init_from_string: afterwards the addresses the entry means have the value, and the others keep theirs. */
    method InitFromString(e: Entry, value: nat) returns (ret: int, fatal: bool)
      requires Valid() && ValidEntry(e) && (value == ALLOWED || value == DISALLOWED)
      modifies Repr
      ensures Valid() && fresh(Repr - old(Repr)) && init == old(init)
      ensures history == old(history) + Paints(Cidrs(e), value)
      ensures Recoloured(old(con.Tree()), con.Tree(), e, value)
      ensures fatal <==> e.BadPrefixLength?
      ensures ret == if e.BadPrefixLength? || e.Unresolved? || (e.Hosts? && e.addrs == []) then -1 else 0
    {
      hide C.Constraint.Valid, Build, Recoloured, Paints, Cidrs, HostCidrs, ValidEntry;
      PaintedEntry(init, history, e, value);
      CidrsIs(e);
      ret, fatal := -1, false;
      match e {
        case Ipv6 =>
          AddAll([], value);
          ret := 0;
        case BadPrefixLength =>
          AddAll([], value);
          fatal := true;
        case Unresolved =>
          AddAll([], value);
        case Hosts(addrs, len) =>
          if addrs != [] {
            ret := 0;
          }
          AddAll(HostCidrs(addrs, len), value);
        case Prefix(c) =>
          AddAll([c], value);
          ret := 0;
      }
    }

    /** One step of the loops over a file or an array of entries. */
    method InitEntry(e: Entry, value: nat, ignoreInvalid: bool) returns (fatal: bool)
      requires Valid() && ValidEntry(e) && (value == ALLOWED || value == DISALLOWED)
      modifies Repr
      ensures Valid() && fresh(Repr - old(Repr)) && init == old(init)
      ensures history == old(history) + Paints(Cidrs(e), value)
      ensures fatal <==> Fatal(e, ignoreInvalid)
    {
      var ret, abort := InitFromString(e, value);
      fatal := abort || (ret != 0 && !ignoreInvalid);
    }

    /** The last steps of blocklist_init: block 0.0.0.0, paint, count. */
    method Finish(ghost lists: Lists) returns (n: nat)
      requires Valid() && init == lists.InitialValue()
      requires history == Paints(AllCidrs(lists.Allow()), ALLOWED) + Paints(AllCidrs(lists.Block()), DISALLOWED)
      modifies Repr
      ensures Valid() && fresh(Repr - old(Repr)) && con.painted && con.paintValue == ALLOWED
      ensures con.Tree() == Build(lists.InitialValue(), lists.History())
      ensures n == |Addresses(con.Tree(), 32, ALLOWED)|
    {
      AddConstraint(Cidr(0, 32), DISALLOWED);
      con.PaintValue(ALLOWED);
      n := con.CountIps(ALLOWED);
    }

    /** blocklist_is_allowed: on an initialised blocklist, the promise to the user. */
    method IsAllowed(address: nat, ghost lists: Lists) returns (ok: bool)
      requires Valid() && lists.Valid() && address < P2(32)
      requires con.Tree() == Build(lists.InitialValue(), lists.History())
      ensures ok <==> lists.Permits(address)
    {
      hide C.Constraint.Valid, Build, Topmost, Contains, P2;
      WordSizes();
      lists.HistoryMeaning(address);
      LastPaintWins(lists.InitialValue(), lists.History(), address);
      var v := con.LookupIp(address);
      ok := v == ALLOWED;
    }

    /** init_from_file and init_from_array: every entry in order, until one is fatal. */
    method InitFromEntries(es: seq<Entry>, value: nat, ignoreInvalid: bool) returns (fatal: bool)
      requires Valid() && AllEntriesValid(es) && (value == ALLOWED || value == DISALLOWED)
      modifies Repr
      ensures Valid() && fresh(Repr - old(Repr)) && init == old(init)
      ensures fatal <==> SomeFatal(es, ignoreInvalid)
      ensures !fatal ==> history == old(history) + Paints(AllCidrs(es), value)
    {
      hide *;
      ghost var before := history;
      EntriesAre(es, ignoreInvalid);
      PaintsOfNoEntry(es, value);
      for i := 0 to |es|
        invariant Valid() && fresh(Repr - old(Repr)) && init == old(init)
        invariant history == before + Paints(AllCidrs(es[..i]), value)
        invariant forall j :: 0 <= j < i ==> !Fatal(es[j], ignoreInvalid)
      {
        fatal := InitEntry(es[i], value, ignoreInvalid);
        if fatal {
          return;
        }
        PaintsOfNextEntry(es, i, value);
      }
      assert es[..|es|] == es;
      return false;
    }
  }

  datatype Outcome = Aborted | Empty | Ready(count: nat)

  /** One half of blocklist_init: a file, if there is one, and then the entries of the command line. */
  method InitBoth(b: Blocklist, file: Option<seq<Entry>>, entries: seq<Entry>, value: nat, ignoreInvalid: bool)
    returns (fatal: bool)
    requires b.Valid() && (value == ALLOWED || value == DISALLOWED)
    requires (file.Some? ==> AllEntriesValid(file.value)) && AllEntriesValid(entries)
    modifies b.Repr
    ensures b.Valid() && fresh(b.Repr - old(b.Repr)) && b.init == old(b.init)
    ensures fatal <==> (file.Some? && SomeFatal(file.value, ignoreInvalid)) || SomeFatal(entries, ignoreInvalid)
    ensures !fatal ==> b.history == old(b.history) + Paints(AllCidrs(Both(file, entries)), value)
  {
    hide *;
    PaintsOfBoth(b.history, file, entries, value);
    fatal := false;
    if file.Some? {
      fatal := b.InitFromEntries(file.value, value, ignoreInvalid);
    }
    if !fatal {
      fatal := b.InitFromEntries(entries, value, ignoreInvalid);
    }
  }

  lemma {:induction false} PaintsOfBoth(h: seq<Paint>, file: Option<seq<Entry>>, entries: seq<Entry>, value: nat)
    ensures h + Paints(AllCidrs(Both(file, entries)), value) ==
            if file.Some? then h + Paints(AllCidrs(file.value), value) + Paints(AllCidrs(entries), value)
            else h + Paints(AllCidrs(entries), value)
  {
    hide AllCidrs, Paints;
    if file.Some? {
      AllCidrsAppend(file.value, entries);
      PaintsAppend(AllCidrs(file.value), AllCidrs(entries), value);
    } else {
      assert Both(file, entries) == entries;
    }
  }

  /** blocklist_init */
  method Init(lists: Lists, ignoreInvalid: bool) returns (b: Blocklist, outcome: Outcome)
    requires lists.Valid()
    ensures outcome.Aborted? <==> lists.AnyFatal(ignoreInvalid)
    ensures !outcome.Aborted? ==> b.Valid() && fresh(b.Repr) && b.con.painted && b.con.paintValue == ALLOWED
    ensures !outcome.Aborted? ==> b.con.Tree() == Build(lists.InitialValue(), lists.History())
    ensures !outcome.Aborted? ==> outcome == var n := |Addresses(b.con.Tree(), 32, ALLOWED)|;
                                             if n == 0 then Empty else Ready(n)
    ensures !outcome.Aborted? ==> AllowsPermitted(b.con.Tree(), lists)
  {
    hide *;
    NoAllowlist(lists);
    ListsParts(lists, ignoreInvalid);
    b := new Blocklist(lists.InitialValue());
    var fatal := false;
    if lists.HasAllowlist() {
      fatal := InitBoth(b, lists.allowFile, lists.allowEntries, ALLOWED, ignoreInvalid);
    }
    if !fatal {
      fatal := InitBoth(b, lists.blockFile, lists.blockEntries, DISALLOWED, ignoreInvalid);
    }
    if fatal {
      return b, Aborted;
    }
    var n := b.Finish(lists);
    TreeAllows(lists);
    outcome := if n == 0 then Empty else Ready(n);
  }

  /** The tree allows exactly the addresses the lists permit. */
  ghost predicate AllowsPermitted(t: Tree, lists: Lists)
  {
    DepthAtMost(t, 32) && forall a: nat :: a < P2(32) ==> (At(t, 32, a) == ALLOWED <==> lists.Permits(a))
  }

  lemma {:induction false} TreeAllows(lists: Lists)
    requires lists.Valid()
    ensures AllowsPermitted(Build(lists.InitialValue(), lists.History()), lists)
  {
    hide Build, Topmost, At, Lists.Permits, Lists.History, Lists.InitialValue, P2;
    WordSizes();
    lists.HistoryMeaning(0);
    LastPaintWins(lists.InitialValue(), lists.History(), 0);
    forall a: nat | a < P2(32)
      ensures At(Build(lists.InitialValue(), lists.History()), 32, a) == ALLOWED <==> lists.Permits(a)
    {
      lists.HistoryMeaning(a);
      LastPaintWins(lists.InitialValue(), lists.History(), a);
    }
  }

  lemma {:induction false} NoAllowlist(lists: Lists)
    ensures !lists.HasAllowlist() ==> Paints(AllCidrs(lists.Allow()), ALLOWED) == []
    ensures !lists.HasAllowlist() ==> lists.allowFile.None? && lists.allowEntries == []
  {
    if !lists.HasAllowlist() {
      assert lists.Allow() == [];
    }
  }

  lemma {:induction false} ListsParts(lists: Lists, ignoreInvalid: bool)
    requires lists.Valid()
    ensures (lists.allowFile.Some? ==> AllEntriesValid(lists.allowFile.value)) && AllEntriesValid(lists.allowEntries)
    ensures (lists.blockFile.Some? ==> AllEntriesValid(lists.blockFile.value)) && AllEntriesValid(lists.blockEntries)
    ensures lists.Allow() == Both(lists.allowFile, lists.allowEntries)
    ensures lists.Block() == Both(lists.blockFile, lists.blockEntries)
    ensures !SomeFatal([], ignoreInvalid)
    ensures lists.AnyFatal(ignoreInvalid) <==>
            || (lists.allowFile.Some? && SomeFatal(lists.allowFile.value, ignoreInvalid))
            || SomeFatal(lists.allowEntries, ignoreInvalid)
            || (lists.blockFile.Some? && SomeFatal(lists.blockFile.value, ignoreInvalid))
            || SomeFatal(lists.blockEntries, ignoreInvalid)
  {
    hide AllEntriesValid, Both;
  }

  lemma {:induction false} EntriesAre(es: seq<Entry>, ignoreInvalid: bool)
    ensures AllEntriesValid(es) <==> forall i :: 0 <= i < |es| ==> ValidEntry(es[i])
    ensures SomeFatal(es, ignoreInvalid) <==> exists i :: 0 <= i < |es| && Fatal(es[i], ignoreInvalid)
  {
    hide ValidEntry, Fatal;
  }

  lemma {:induction false} PaintsNil(cs: seq<Cidr>, value: nat)
    ensures Paints(cs[..0], value) == []
  {
  }

  lemma {:induction false} PaintsOfNoEntry(es: seq<Entry>, value: nat)
    ensures Paints(AllCidrs(es[..0]), value) == []
  {
  }

  lemma {:induction false} PaintsOfNextEntry(es: seq<Entry>, i: nat, value: nat)
    requires i < |es|
    ensures Paints(AllCidrs(es[..i + 1]), value) == Paints(AllCidrs(es[..i]), value) + Paints(Cidrs(es[i]), value)
  {
    AllCidrsSnoc(es, i);
    PaintsAppend(AllCidrs(es[..i]), Cidrs(es[i]), value);
  }

  lemma {:induction false} PaintsSnoc(cs: seq<Cidr>, c: Cidr, value: nat)
    ensures Paints(cs + [c], value) == Paints(cs, value) + [Paint(c.addr, c.len, value)]
  {
    assert (cs + [c])[..|cs|] == cs;
  }

  lemma {:induction false} PaintsAppend(cs: seq<Cidr>, ds: seq<Cidr>, value: nat)
    ensures Paints(cs + ds, value) == Paints(cs, value) + Paints(ds, value)
  {
    if ds == [] {
      assert cs + ds == cs;
    } else {
      var n := |ds| - 1;
      assert cs + ds == (cs + ds[..n]) + [ds[n]];
      PaintsSnoc(cs + ds[..n], ds[n], value);
      PaintsAppend(cs, ds[..n], value);
    }
  }
}
