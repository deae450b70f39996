/** Why the check over the rendered sections never fails once every save asked the look-up: each
    kind of declaration has names of its own.
    (internal/store/symbols.go; internal/render/render.go, Sections) */
module Namespace {
  import opened Options
  import opened Text
  import opened Bird
  import opened Model
  import opened Compile
  import opened ImportMeaning
  import opened Sections
  import opened Scope
  import opened Symbols

  // ----- the database and the model

  ghost predicate AllIn(names: seq<string>, table: map<string, int>) { forall k | 0 <= k < |names| :: names[k] in table }

  function NamesOf<T>(items: seq<T>, name: T -> string): (r: seq<string>)
    ensures |r| == |items| && forall k | 0 <= k < |r| :: r[k] == name(items[k])
  {
    seq(|items|, k requires 0 <= k < |items| => name(items[k]))
  }

  /** The model is read from the tables, whose name columns are unique; policies have names. */
  ghost predicate FromTables(db: NameTables, inp: Input) {
    && AllIn(NamesOf(inp.peers, (p: Peer<Policy>) => p.name), db.peers)
    && AllIn(NamesOf(inp.templates, (t: Template<Policy>) => t.name), db.templates)
    && AllIn(NamesOf(inp.prefixSets, (s: PrefixSet) => s.name), db.prefixSets)
    && AllIn(NamesOf(inp.asSets, (s: ASSet) => s.name), db.asSets)
    && AllIn(NamesOf(inp.communities, (c: CommunityDef) => c.name), db.communities)
    && AllIn(inp.rpkiServers, db.servers) && AllIn(inp.bmpStations, db.stations)
    && AllIn(NamesOf(inp.policies, (p: Policy) => p.name), db.policies)
    && "" !in db.policies && "" !in db.peers && "" !in db.prefixSets
    && Distinct(NamesOf(inp.peers, (p: Peer<Policy>) => p.name))
    && Distinct(NamesOf(inp.templates, (t: Template<Policy>) => t.name))
    && Distinct(NamesOf(inp.prefixSets, (s: PrefixSet) => s.name))
    && Distinct(NamesOf(inp.asSets, (s: ASSet) => s.name))
    && Distinct(NamesOf(inp.communities, (c: CommunityDef) => c.name))
    && Distinct(inp.rpkiServers) && Distinct(inp.bmpStations)
    && Distinct(NamesOf(inp.policies, (p: Policy) => p.name))
  }

  /** The look-up finds, for the name of each object, that object and nothing else. */
  ghost predicate OnlyThemselves(db: NameTables) {
    forall t, name | 0 <= t < 7 && name in db.Tables()[t].0 ::
      Uses(db, name) == [SymbolUse(db.Tables()[t].1, db.Tables()[t].0[name], name)]
  }

  lemma {:induction false} UsesAtLeast(tables: seq<(map<string, int>, string)>, name: string, i: nat, j: nat)
    requires i < |tables| && name in tables[i].0
    ensures |TableUses(tables, name)| >= 1
    ensures j < |tables| && name in tables[j].0 && i != j ==> |TableUses(tables, name)| >= 2
  {
    var n := |tables| - 1;
    if i < n {
      UsesAtLeast(tables[..n], name, i, if j < n then j else i);
    } else if j < n && name in tables[j].0 {
      UsesAtLeast(tables[..n], name, j, i);
    }
  }

  /** So it is neither built in nor derived, and in one table only. */
  lemma {:induction false} Alone(db: NameTables, name: string, t: nat)
    requires OnlyThemselves(db) && t < 7 && name in db.Tables()[t].0
    ensures name !in BUILTIN && !Derived(db, name)
    ensures forall u | 0 <= u < 7 && u != t :: name !in db.Tables()[u].0
  {
    assert |Uses(db, name)| == 1;
    UsesAtLeast(db.Tables(), name, t, t);
    forall u | 0 <= u < 7 && u != t
      ensures name !in db.Tables()[u].0
    {
      UsesAtLeast(db.Tables(), name, t, u);
    }
  }

  // ----- families of names

  /** Where a name can come from: the objects of a table, the fixed names, or those derived from
      policies, peers and prefix sets. */
  datatype Origin = Object(table: int) | Fixed(part: nat) | OfPolicy | OfPeer | OfSet

  /** Which section a fixed name is declared in. */
  function FixedPart(name: string): nat {
    if name == "LOCAL_ASN" then 0
    else if name in {"FROM_UPSTREAM", "FROM_IX", "FROM_CUSTOMER", "RPKI_INVALID"} then 1
    else if name in {"BOGON_ASNS", "BOGON_ASNS_EXCEPT_PRIVATE"} then 4
    else if name in {"rpki4", "rpki6"} then 5
    else if name == "bfd1" then 7
    else if name in {"static_v4", "static_v6"} then 11
    else 6
  }

  ghost predicate From(db: NameTables, origin: Origin, name: string) {
    match origin
    case Object(t) => 0 <= t < 7 && name in db.Tables()[t].0
    case Fixed(part) => name in BUILTIN && name !in BIRD_SYMBOLS && FixedPart(name) == part
    case OfPolicy => Has(db.policies, PolicyIn(name))
    case OfPeer => Has(db.peers, PeerIn(name))
    case OfSet => Has(db.prefixSets, SetIn(name))
  }

  lemma {:induction false} StartsWith(name: string, prefix: string)
    requires prefix <= name && |prefix| >= 3
    ensures name[0] == prefix[0] && name[1] == prefix[1] && name[2] == prefix[2]
  {
  }

  lemma {:induction false} DerivedStarts(name: string)
    ensures PolicyIn(name).Some? ==> "imp_" <= name || "exp_" <= name
    ensures PeerIn(name).Some? ==> "ebgp_" <= name || "ibgp_" <= name
    ensures SetIn(name).Some? ==> "originate_" <= name
  {
    if PeerIn(name).Some? {
      assert "ebgp_in_"[..5] == "ebgp_" && "ebgp_out_"[..5] == "ebgp_" && "ibgp_in_"[..5] == "ibgp_" && "ibgp_out_"[..5] == "ibgp_";
    }
  }

  lemma {:induction false} BuiltinStarts(name: string)
    requires name in BUILTIN
    ensures |name| >= 3 && name[0] !in {'e', 'i', 'o'}
  {
  }

  /** The families do not meet. */
  lemma {:induction false} OriginsApart(db: NameTables, a: Origin, b: Origin, name: string)
    requires OnlyThemselves(db) && From(db, a, name) && From(db, b, name)
    ensures a == b
  {
    DerivedStarts(name);
    if name in BUILTIN { BuiltinStarts(name); }
    if a.Object? { Alone(db, name, a.table); }
    if b.Object? { Alone(db, name, b.table); }
    if !a.Object? && !b.Object? { DerivedApart(name); }
  }

  lemma {:induction false} DerivedApart(name: string)
    ensures !(name in BUILTIN && (PolicyIn(name).Some? || PeerIn(name).Some? || SetIn(name).Some?))
    ensures !(PolicyIn(name).Some? && PeerIn(name).Some?)
    ensures !(PolicyIn(name).Some? && SetIn(name).Some?) && !(PeerIn(name).Some? && SetIn(name).Some?)
  {
    DerivedStarts(name);
    if name in BUILTIN { BuiltinStarts(name); }
    PrefixesApart(name);
  }

  lemma {:induction false} PrefixesApart(name: string)
    ensures !(("imp_" <= name || "exp_" <= name) && ("ebgp_" <= name || "ibgp_" <= name))
    ensures "originate_" <= name ==> !("imp_" <= name || "exp_" <= name || "ebgp_" <= name || "ibgp_" <= name)
    ensures "imp_" <= name || "ibgp_" <= name ==> name[0] == 'i'
    ensures "exp_" <= name || "ebgp_" <= name ==> name[0] == 'e'
    ensures "originate_" <= name ==> name[0] == 'o'
  {
    if "imp_" <= name { StartsWith(name, "imp_"); }
    if "exp_" <= name { StartsWith(name, "exp_"); }
    if "ebgp_" <= name { StartsWith(name, "ebgp_"); }
    if "ibgp_" <= name { StartsWith(name, "ibgp_"); }
    if "originate_" <= name { StartsWith(name, "originate_"); }
  }

  // ----- derived names and where they come from

  lemma {:induction false} MiddleIs(prefix: string, middle: string, suffix: string)
    requires middle != ""
    ensures Middle(prefix + middle + suffix, prefix, suffix) == Some(middle)
  {
    var name := prefix + middle + suffix;
    assert name[|name| - |suffix|..] == suffix && name[|prefix|..|name| - |suffix|] == middle;
  }

  lemma {:induction false} NotMiddle(name: string, prefix: string, other: string, suffix: string)
    requires prefix <= name && |prefix| == |other| >= 1 && prefix != other
    ensures Middle(name, other, suffix).None?
  {
  }

  lemma {:induction false} PolicyFuncParses(pol: Policy, fam: Family)
    requires pol.name != ""
    ensures PolicyIn(PolicyFunc(pol, fam)) == Some(pol.name)
  {
    var prefix, suffix := if pol.isImport then "imp_" else "exp_", if fam.V4? then "_v4" else "_v6";
    var name := PolicyFunc(pol, fam);
    assert name == prefix + pol.name + suffix by { assert "_" + Suffix(fam) == suffix; }
    MiddleIs(prefix, pol.name, suffix);
    PolicyParse(name, prefix, suffix, pol.name);
  }

  lemma {:induction false} PolicyParse(name: string, prefix: string, suffix: string, middle: string)
    requires prefix in {"imp_", "exp_"} && suffix in {"_v4", "_v6"} && Middle(name, prefix, suffix) == Some(middle)
    ensures PolicyIn(name) == Some(middle)
  {
    var other := if prefix == "imp_" then "exp_" else "imp_";
    assert prefix[0] != other[0];
    NotMiddle(name, prefix, other, "_v4");
    NotMiddle(name, prefix, other, "_v6");
    assert name[|name| - 3..] == suffix;
    assert "_v4"[2] != "_v6"[2];
  }

  lemma {:induction false} SetParses(name: string)
    requires name != ""
    ensures SetIn("originate_" + name) == Some(name)
  {
    MiddleIs("originate_", name, "");
    assert "originate_" + name + "" == "originate_" + name;
  }

  function FilterStart(internal: bool, imports: bool): string {
    (if internal then "ibgp" else "ebgp") + (if imports then "_in_" else "_out_")
  }

  lemma {:induction false} FilterParses(internal: bool, imports: bool, name: string)
    requires name != ""
    ensures PeerIn(FilterStart(internal, imports) + name) == Some(name)
  {
    var start := FilterStart(internal, imports);
    MiddleIs(start, name, "");
    assert start + name + "" == start + name;
    FilterStartIs(internal, imports);
    PeerParse(start + name, internal, imports, name);
  }

  lemma {:induction false} FilterStartIs(internal: bool, imports: bool)
    ensures FilterStart(internal, imports) ==
            if internal then if imports then "ibgp_in_" else "ibgp_out_" else if imports then "ebgp_in_" else "ebgp_out_"
  {
    assert "ibgp" + "_in_" == "ibgp_in_" && "ibgp" + "_out_" == "ibgp_out_";
    assert "ebgp" + "_in_" == "ebgp_in_" && "ebgp" + "_out_" == "ebgp_out_";
  }

  lemma {:induction false} PeerParse(name: string, internal: bool, imports: bool, middle: string)
    requires Middle(name, FilterStart(internal, imports), "") == Some(middle)
    ensures PeerIn(name) == Some(middle)
  {
    FilterStartIs(internal, imports);
    FilterStartIs(internal, !imports);
    var start := FilterStart(internal, imports);
    assert name[0] == start[0] && name[5] == start[5] && name[6] == start[6];
    assert name[0] == (if internal then 'i' else 'e') && name[5] == (if imports then 'i' else 'o');
    StartsApart(name);
  }

  /** The four starts exclude each other. */
  lemma {:induction false} StartsApart(name: string)
    requires |name| >= 8
    ensures "ebgp_in_" <= name ==> name[0] == 'e' && name[5] == 'i'
    ensures "ebgp_out_" <= name ==> name[0] == 'e' && name[5] == 'o'
    ensures "ibgp_in_" <= name ==> name[0] == 'i' && name[5] == 'i'
    ensures "ibgp_out_" <= name ==> name[0] == 'i' && name[5] == 'o'
  {
    if "ebgp_in_" <= name { assert name[5] == "ebgp_in_"[5] && name[0] == "ebgp_in_"[0]; }
    if "ebgp_out_" <= name { assert name[5] == "ebgp_out_"[5] && name[0] == "ebgp_out_"[0]; }
    if "ibgp_in_" <= name { assert name[5] == "ibgp_in_"[5] && name[0] == "ibgp_in_"[0]; }
    if "ibgp_out_" <= name { assert name[5] == "ibgp_out_"[5] && name[0] == "ibgp_out_"[0]; }
  }

  // ----- declarations with distinct names of given origins

  ghost predicate Comes(db: NameTables, origins: set<Origin>, name: string) {
    exists o | o in origins :: From(db, o, name)
  }

  ghost predicate Apart(db: NameTables, decls: seq<Decl>, origins: set<Origin>) {
    && (forall i, j | 0 <= i < j < |decls| :: decls[i].name != decls[j].name)
    && forall i | 0 <= i < |decls| :: Comes(db, origins, decls[i].name)
  }

  lemma {:induction false} ApartMore(db: NameTables, decls: seq<Decl>, g: set<Origin>, h: set<Origin>)
    requires Apart(db, decls, g)
    ensures Apart(db, decls, g + h) && Apart(db, decls, h + g)
  {
    forall i | 0 <= i < |decls|
      ensures Comes(db, g + h, decls[i].name) && Comes(db, h + g, decls[i].name)
    {
      var o :| o in g && From(db, o, decls[i].name);
      assert o in g + h && o in h + g;
    }
  }

  lemma {:induction false} ApartConcat(db: NameTables, a: seq<Decl>, b: seq<Decl>, g: set<Origin>, h: set<Origin>)
    requires OnlyThemselves(db) && Apart(db, a, g) && Apart(db, b, h) && g !! h
    ensures Apart(db, a + b, g + h)
  {
    ApartMore(db, a, g, h);
    ApartMore(db, b, h, g);
    forall i, j | 0 <= i < |a| && 0 <= j < |b|
      ensures a[i].name != b[j].name
    {
      if a[i].name == b[j].name {
        var o :| o in g && From(db, o, a[i].name);
        var o' :| o' in h && From(db, o', b[j].name);
        OriginsApart(db, o, o', a[i].name);
      }
    }
  }

  /** Sections whose names do not meet. */
  lemma {:induction false} ApartSections(db: NameTables, secs: seq<Section>, origins: set<Origin>)
    requires forall k | 0 <= k < |secs| :: Apart(db, secs[k].decls, origins)
    requires forall i, j, d, e | 0 <= i < j < |secs| && d in secs[i].decls && e in secs[j].decls :: d.name != e.name
    ensures Apart(db, Decls(secs), origins)
  {
    if secs != [] {
      var n := |secs| - 1;
      ApartSections(db, secs[..n], origins);
      var a, b := Decls(secs[..n]), secs[n].decls;
      forall i, j | 0 <= i < |a| && 0 <= j < |b|
        ensures a[i].name != b[j].name
      {
        assert a[i] in a;
        MemberSection(secs[..n], a[i]);
        var k :| 0 <= k < n && a[i] in secs[..n][k].decls;
        assert secs[..n][k] == secs[k] && b[j] in b;
      }
    }
  }

  lemma {:induction false} ApartIsUnique(db: NameTables, decls: seq<Decl>, origins: set<Origin>)
    requires OnlyThemselves(db) && Apart(db, decls, origins)
    ensures UniqueNames(decls)
  {
    forall i | 0 <= i < |decls|
      ensures decls[i].name !in BIRD_SYMBOLS
    {
      var o :| o in origins && From(db, o, decls[i].name);
      NotBirds(db, o, decls[i].name);
    }
  }

  lemma {:induction false} NotBirds(db: NameTables, o: Origin, name: string)
    requires OnlyThemselves(db) && From(db, o, name)
    ensures name !in BIRD_SYMBOLS
  {
    if name in BIRD_SYMBOLS {
      DerivedApart(name);
      if o.Object? { Alone(db, name, o.table); }
    }
  }

  // ----- the lists the library sections are made of

  /** Declarations named after distinct names, in part or in full. */
  ghost predicate NamedAfter(decls: seq<Decl>, names: seq<string>, build: string -> string) {
    && (forall i, j | 0 <= i < j < |decls| :: decls[i].name != decls[j].name)
    && forall i | 0 <= i < |decls| :: Built(names, build, decls[i].name)
  }

  ghost predicate Built(names: seq<string>, build: string -> string, name: string) {
    exists k | 0 <= k < |names| :: name == build(names[k])
  }

  ghost predicate Injective(build: string -> string) { forall a, b | build(a) == build(b) :: a == b }

  lemma {:induction false} NamedSnoc(decls: seq<Decl>, names: seq<string>, build: string -> string, more: seq<Decl>)
    requires names != [] && Distinct(names) && Injective(build) && NamedAfter(decls, names[..|names| - 1], build)
    requires more == [] || (|more| == 1 && more[0].name == build(names[|names| - 1]))
    ensures NamedAfter(decls + more, names, build)
  {
    var n := |names| - 1;
    forall i | 0 <= i < |decls|
      ensures Built(names, build, decls[i].name)
      ensures decls[i].name != build(names[n])
    {
      var k :| 0 <= k < n && decls[i].name == build(names[..n][k]);
      assert names[k] == names[..n][k];
    }
    var all := decls + more;
    forall i | 0 <= i < |all|
      ensures Built(names, build, all[i].name)
    {
      if i < |decls| { assert all[i] == decls[i]; } else { assert all[i] == more[0] && all[i].name == build(names[n]); }
    }
  }

  function Same(): string -> string { (n: string) => n }

  function Anchor(): string -> string { (n: string) => "originate_" + n }

  lemma {:induction false} BuildsAreInjective()
    ensures Injective(Same()) && Injective(Anchor())
  {
    forall a, b | Anchor()(a) == Anchor()(b)
      ensures a == b
    {
      assert ("originate_" + a)[10..] == a && ("originate_" + b)[10..] == b;
    }
  }

  lemma {:induction false} CommunityNames(defs: seq<CommunityDef>, names: seq<string>)
    requires |names| == |defs| && Distinct(names) && forall k | 0 <= k < |defs| :: names[k] == defs[k].name
    ensures NamedAfter(CommunityDecls(defs), names, Same())
  {
    if defs != [] {
      var n := |defs| - 1;
      CommunityNames(defs[..n], names[..n]);
      BuildsAreInjective();
      NamedSnoc(CommunityDecls(defs[..n]), names, Same(), [DefineCommunity(defs[n].name, defs[n].value)]);
    }
  }

  lemma {:induction false} PrefixNames(sets: seq<PrefixSet>, names: seq<string>)
    requires |names| == |sets| && Distinct(names) && forall k | 0 <= k < |sets| :: names[k] == sets[k].name
    ensures NamedAfter(PrefixDecls(sets), names, Same()) && NamedAfter(OriginatorDecls(sets), names, Anchor())
  {
    if sets != [] {
      var n := |sets| - 1;
      var ps := sets[n];
      PrefixNames(sets[..n], names[..n]);
      BuildsAreInjective();
      NamedSnoc(PrefixDecls(sets[..n]), names, Same(), if Rendered(ps) then [DefinePrefixes(ps.name, Patterns(ps.entries))] else []);
      NamedSnoc(OriginatorDecls(sets[..n]), names, Anchor(),
                if Rendered(ps) && ps.originate then [OtherProtocol(OriginatorName(ps))] else []);
    }
  }

  lemma {:induction false} ASNames(sets: seq<ASSet>, names: seq<string>)
    requires |names| == |sets| && Distinct(names) && forall k | 0 <= k < |sets| :: names[k] == sets[k].name
    ensures NamedAfter(ASDecls(sets), names, Same())
  {
    if sets != [] {
      var n := |sets| - 1;
      ASNames(sets[..n], names[..n]);
      BuildsAreInjective();
      NamedSnoc(ASDecls(sets[..n]), names, Same(),
                if sets[n].entries != [] then [DefineASNs(sets[n].name, sets[n].entries)] else []);
    }
  }

  lemma {:induction false} ProtocolNames(names: seq<string>)
    requires Distinct(names)
    ensures NamedAfter(NamedProtocols(names), names, Same()) && NamedAfter(RpkiDecls(names), names, Same())
  {
    if names != [] {
      var n := |names| - 1;
      ProtocolNames(names[..n]);
      BuildsAreInjective();
      NamedSnoc(NamedProtocols(names[..n]), names, Same(), [OtherProtocol(names[n])]);
      NamedSnoc(RpkiDecls(names[..n]), names, Same(), [RpkiProtocol(names[n])]);
    }
  }

  lemma {:induction false} ObjectsApart(db: NameTables, decls: seq<Decl>, names: seq<string>, t: int)
    requires 0 <= t < 7 && NamedAfter(decls, names, Same()) && AllIn(names, db.Tables()[t].0)
    ensures Apart(db, decls, {Object(t)})
  {
    forall i | 0 <= i < |decls|
      ensures Comes(db, {Object(t)}, decls[i].name)
    {
      assert From(db, Object(t), decls[i].name);
    }
  }

  lemma {:induction false} AnchorsApart(db: NameTables, decls: seq<Decl>, names: seq<string>)
    requires NamedAfter(decls, names, Anchor()) && AllIn(names, db.prefixSets) && "" !in db.prefixSets
    ensures Apart(db, decls, {OfSet})
  {
    forall i | 0 <= i < |decls|
      ensures Comes(db, {OfSet}, decls[i].name)
    {
      assert Built(names, Anchor(), decls[i].name);
      var k :| 0 <= k < |names| && decls[i].name == Anchor()(names[k]);
      SetParses(names[k]);
      assert From(db, OfSet, decls[i].name);
    }
  }

  lemma {:induction false} FixedApart(db: NameTables, decls: seq<Decl>, part: nat)
    requires forall i, j | 0 <= i < j < |decls| :: decls[i].name != decls[j].name
    requires forall i | 0 <= i < |decls| ::
               decls[i].name in BUILTIN && decls[i].name !in BIRD_SYMBOLS && FixedPart(decls[i].name) == part
    ensures Apart(db, decls, {Fixed(part)})
  {
    forall i | 0 <= i < |decls|
      ensures Comes(db, {Fixed(part)}, decls[i].name)
    {
      assert From(db, Fixed(part), decls[i].name);
    }
  }

  // ----- the whole configuration

  /** The origins of section `k` of the library. */
  function OriginsOf(k: nat): set<Origin> {
    match k
    case 1 => {Fixed(1), Object(4)}
    case 2 => {Object(2)}
    case 3 => {Object(3)}
    case 8 => {Object(6)}
    case 9 => {Object(5)}
    case 10 => {OfSet}
    case _ => {Fixed(k)}
  }

  function OriginsUpTo(k: nat): set<Origin> { if k == 0 then {} else OriginsUpTo(k - 1) + OriginsOf(k - 1) }

  lemma {:induction false} OriginsStayApart(k: nat, j: nat)
    requires k <= j < 12
    ensures OriginsUpTo(k) !! OriginsOf(j)
    ensures forall o | o in OriginsUpTo(k) :: o !in {Object(0), Object(1), OfPolicy, OfPeer}
  {
    if k > 0 {
      OriginsStayApart(k - 1, j);
      OriginsDiffer(k - 1, j);
    }
  }

  lemma {:induction false} OriginsDiffer(i: nat, j: nat)
    requires i < j < 12
    ensures OriginsOf(i) !! OriginsOf(j)
    ensures forall o | o in OriginsOf(i) :: o !in {Object(0), Object(1), OfPolicy, OfPeer}
  {
  }

  lemma {:induction false} TablesApart(db: NameTables, inp: Input)
    ensures Apart(db, BogonDecls(inp), {Fixed(4)}) && Apart(db, RoaDecls(inp), {Fixed(5)})
  {
    FixedApart(db, BogonDecls(inp), 4);
    FixedApart(db, RoaDecls(inp), 5);
  }

  lemma {:induction false} ProtocolsApart(db: NameTables, inp: Input)
    ensures Apart(db, BaseDecls(), {Fixed(6)}) && Apart(db, BfdDecls(inp.peers), {Fixed(7)})
  {
    FixedApart(db, BaseDecls(), 6);
    FixedApart(db, BfdDecls(inp.peers), 7);
  }

  lemma {:induction false} GlobalsApart(db: NameTables, inp: Input)
    ensures Apart(db, [DefineNumber("LOCAL_ASN", inp.localASN)], {Fixed(0)}) && Apart(db, StaticDecls(inp), {Fixed(11)})
  {
    FixedApart(db, [DefineNumber("LOCAL_ASN", inp.localASN)], 0);
    FixedApart(db, StaticDecls(inp), 11);
  }

  lemma {:induction false} FixedSection(db: NameTables, inp: Input, k: nat)
    requires k in {0, 4, 5, 6, 7, 11}
    ensures Apart(db, LibrarySections(inp)[k].decls, {Fixed(k)})
  {
    if k in {0, 11} {
      GlobalsApart(db, inp);
    } else if k in {4, 5} {
      TablesApart(db, inp);
    } else {
      ProtocolsApart(db, inp);
    }
  }

  lemma {:induction false} TagsApart(db: NameTables, inp: Input)
    ensures Apart(db, TagDecls(inp), {Fixed(1)})
  {
    FixedApart(db, TagDecls(inp), 1);
  }

  lemma {:induction false} CommunitiesApart(db: NameTables, inp: Input)
    requires FromTables(db, inp) && OnlyThemselves(db)
    ensures Apart(db, TagDecls(inp) + CommunityDecls(inp.communities), OriginsOf(1))
  {
    var names := NamesOf(inp.communities, (c: CommunityDef) => c.name);
    CommunityNames(inp.communities, names);
    ObjectsApart(db, CommunityDecls(inp.communities), names, 4);
    TagsApart(db, inp);
    ApartConcat(db, TagDecls(inp), CommunityDecls(inp.communities), {Fixed(1)}, {Object(4)});
    assert {Fixed(1)} + {Object(4)} == OriginsOf(1);
  }

  lemma {:induction false} SetsApart(db: NameTables, inp: Input)
    requires FromTables(db, inp)
    ensures Apart(db, PrefixDecls(inp.prefixSets), {Object(2)}) && Apart(db, ASDecls(inp.asSets), {Object(3)})
    ensures Apart(db, OriginatorDecls(inp.prefixSets), {OfSet})
  {
    var prefixes, ases := NamesOf(inp.prefixSets, (s: PrefixSet) => s.name), NamesOf(inp.asSets, (s: ASSet) => s.name);
    PrefixNames(inp.prefixSets, prefixes);
    ObjectsApart(db, PrefixDecls(inp.prefixSets), prefixes, 2);
    AnchorsApart(db, OriginatorDecls(inp.prefixSets), prefixes);
    ASNames(inp.asSets, ases);
    ObjectsApart(db, ASDecls(inp.asSets), ases, 3);
  }

  lemma {:induction false} ServersApart(db: NameTables, inp: Input)
    requires FromTables(db, inp)
    ensures Apart(db, NamedProtocols(inp.bmpStations), {Object(6)}) && Apart(db, RpkiDecls(inp.rpkiServers), {Object(5)})
  {
    ProtocolNames(inp.bmpStations);
    ObjectsApart(db, NamedProtocols(inp.bmpStations), inp.bmpStations, 6);
    ProtocolNames(inp.rpkiServers);
    ObjectsApart(db, RpkiDecls(inp.rpkiServers), inp.rpkiServers, 5);
  }

  lemma {:induction false} LibrarySectionApart(db: NameTables, inp: Input, k: nat)
    requires FromTables(db, inp) && OnlyThemselves(db) && k < 12
    ensures Apart(db, LibrarySections(inp)[k].decls, OriginsOf(k))
  {
    if k in {0, 4, 5, 6, 7, 11} {
      FixedSection(db, inp, k);
    } else if k == 1 {
      CommunitiesApart(db, inp);
    } else if k == 8 || k == 9 {
      ServersApart(db, inp);
    } else {
      SetsApart(db, inp);
    }
  }

  lemma {:induction false} LibraryApart(db: NameTables, inp: Input, k: nat)
    requires FromTables(db, inp) && OnlyThemselves(db) && k <= 12
    ensures Apart(db, Decls(LibrarySections(inp)[..k]), OriginsUpTo(k))
  {
    if k > 0 {
      var l := LibrarySections(inp);
      LibraryApart(db, inp, k - 1);
      LibrarySectionApart(db, inp, k - 1);
      OriginsStayApart(k - 1, k - 1);
      ApartConcat(db, Decls(l[..k - 1]), l[k - 1].decls, OriginsUpTo(k - 1), OriginsOf(k - 1));
      assert l[..k][..k - 1] == l[..k - 1];
    }
  }

  lemma {:induction false} FamiliesApart(pol: Policy)
    ensures PolicyFunc(pol, V4) != PolicyFunc(pol, V6)
  {
    var a, b := PolicyFunc(pol, V4), PolicyFunc(pol, V6);
    assert a[|a| - 1] == '4' && b[|b| - 1] == '6';
  }

  lemma {:induction false} PolicySectionNames(inp: Input, pols: seq<Section>, k: nat)
    requires PolicySections(inp) == Ok(pols) && k < |inp.policies|
    ensures |pols| == |inp.policies| && |pols[k].decls| == 2
    ensures pols[k].decls[0].name == PolicyFunc(inp.policies[k], V4)
    ensures pols[k].decls[1].name == PolicyFunc(inp.policies[k], V6)
  {
    CollectAt(inp.policies, PolicySection(inp), k);
  }

  lemma {:induction false} PolicyApart(db: NameTables, pol: Policy, decls: seq<Decl>)
    requires pol.name in db.policies && pol.name != "" && |decls| == 2
    requires decls[0].name == PolicyFunc(pol, V4) && decls[1].name == PolicyFunc(pol, V6)
    ensures Apart(db, decls, {OfPolicy})
    ensures forall d | d in decls :: PolicyIn(d.name) == Some(pol.name)
  {
    FamiliesApart(pol);
    PolicyFuncParses(pol, V4);
    PolicyFuncParses(pol, V6);
    assert From(db, OfPolicy, decls[0].name) && From(db, OfPolicy, decls[1].name);
  }

  lemma {:induction false} PoliciesApart(db: NameTables, inp: Input, pols: seq<Section>)
    requires PolicySections(inp) == Ok(pols) && "" !in db.policies
    requires forall k | 0 <= k < |inp.policies| :: inp.policies[k].name in db.policies
    requires forall i, j | 0 <= i < j < |inp.policies| :: inp.policies[i].name != inp.policies[j].name
    ensures Apart(db, Decls(pols), {OfPolicy})
  {
    CollectLength(inp.policies, PolicySection(inp));
    forall k | 0 <= k < |pols|
      ensures Apart(db, pols[k].decls, {OfPolicy})
      ensures forall d | d in pols[k].decls :: PolicyIn(d.name) == Some(inp.policies[k].name)
    {
      PolicySectionNames(inp, pols, k);
      PolicyApart(db, inp.policies[k], pols[k].decls);
    }
    ApartSections(db, pols, {OfPolicy});
  }

  lemma {:induction false} TemplateSectionNames(inp: Input, templates: seq<Section>, k: nat)
    requires var used := UsedTemplates(inp.templates, inp.peers);
      Collect(used, TemplateSection(inp)) == Ok(templates) && k < |used|
    ensures |templates| == |UsedTemplates(inp.templates, inp.peers)| && |templates[k].decls| == 1
    ensures templates[k].decls[0].name == UsedTemplates(inp.templates, inp.peers)[k].name
  {
    CollectAt(UsedTemplates(inp.templates, inp.peers), TemplateSection(inp), k);
  }

  lemma {:induction false} SingleApart(db: NameTables, decls: seq<Decl>, origin: Origin)
    requires |decls| == 1 && From(db, origin, decls[0].name)
    ensures Apart(db, decls, {origin})
  {
    assert origin in {origin};
  }

  /** Sections of one declaration each. */
  lemma {:induction false} SinglesApart(db: NameTables, secs: seq<Section>, names: seq<string>, origin: Origin)
    requires |names| == |secs| && Distinct(names)
    requires forall k | 0 <= k < |secs| :: |secs[k].decls| == 1 && secs[k].decls[0].name == names[k] && From(db, origin, names[k])
    ensures Apart(db, Decls(secs), {origin})
  {
    forall i, j, d, e | 0 <= i < j < |secs| && d in secs[i].decls && e in secs[j].decls
      ensures d.name != e.name
    {
      assert d == secs[i].decls[0] && e == secs[j].decls[0];
    }
    forall k | 0 <= k < |secs|
      ensures Apart(db, secs[k].decls, {origin})
    {
      SingleApart(db, secs[k].decls, origin);
    }
    ApartSections(db, secs, {origin});
  }

  lemma {:induction false} TemplatesApart(db: NameTables, inp: Input, templates: seq<Section>)
    requires Collect(UsedTemplates(inp.templates, inp.peers), TemplateSection(inp)) == Ok(templates)
    requires forall k | 0 <= k < |inp.templates| :: inp.templates[k].name in db.templates
    requires forall i, j | 0 <= i < j < |inp.templates| :: inp.templates[i].name != inp.templates[j].name
    ensures Apart(db, Decls(templates), {Object(1)})
  {
    var used := UsedTemplates(inp.templates, inp.peers);
    var names := NamesOf(used, (t: Template<Policy>) => t.name);
    UsedDistinct(inp.templates, inp.peers);
    CollectLength(used, TemplateSection(inp));
    forall k | 0 <= k < |templates|
      ensures |templates[k].decls| == 1 && templates[k].decls[0].name == names[k] && names[k] in db.templates
    {
      TemplateSectionNames(inp, templates, k);
      var i := UsedAre(inp.templates, inp.peers, k);
    }
    SinglesApart(db, templates, names, Object(1));
  }

  /** The names a peer's section declares: its own, and filters that lead back to it. */
  lemma {:induction false} PeerDeclNames(inp: Input, p: Peer<Policy>, inherits: bool, d: Decl)
    requires p.name != "" && d in PeerDecls(inp, p, inherits)
    ensures d.BgpProtocol? ==> d.name == p.name
    ensures !d.BgpProtocol? ==> PeerIn(d.name) == Some(p.name)
  {
    FilterParses(p.IsIBGP(), true, p.name);
    FilterParses(p.IsIBGP(), false, p.name);
    assert ImportFilterName(p) == FilterStart(p.IsIBGP(), true) + p.name;
    assert ExportFilterName(p) == FilterStart(p.IsIBGP(), false) + p.name;
  }

  lemma {:induction false} FiltersDiffer(p: Peer<Policy>)
    ensures ImportFilterName(p) != ExportFilterName(p)
  {
    var a, b := ImportFilterName(p), ExportFilterName(p);
    assert a[5] == 'i' && b[5] == 'o';
  }

  lemma {:induction false} PeerApart(db: NameTables, inp: Input, p: Peer<Policy>, inherits: bool)
    requires OnlyThemselves(db) && p.name != "" && p.name in db.peers
    ensures Apart(db, PeerDecls(inp, p, inherits), {Object(0), OfPeer})
  {
    var decls := PeerDecls(inp, p, inherits);
    FiltersDiffer(p);
    forall i | 0 <= i < |decls|
      ensures Comes(db, {Object(0), OfPeer}, decls[i].name)
      ensures !decls[i].BgpProtocol? ==> decls[i].name != p.name
    {
      PeerDeclNames(inp, p, inherits, decls[i]);
      assert From(db, Object(0), p.name);
      if !decls[i].BgpProtocol? {
        assert From(db, OfPeer, decls[i].name);
        if decls[i].name == p.name { OriginsApart(db, Object(0), OfPeer, p.name); }
      }
    }
  }

  lemma {:induction false} PeerPairApart(db: NameTables, inp: Input, p: Peer<Policy>, q: Peer<Policy>, a: bool, b: bool, d: Decl, e: Decl)
    requires OnlyThemselves(db) && p.name in db.peers && q.name in db.peers && "" !in db.peers && p.name != q.name
    requires d in PeerDecls(inp, p, a) && e in PeerDecls(inp, q, b)
    ensures d.name != e.name
  {
    PeerDeclNames(inp, p, a, d);
    PeerDeclNames(inp, q, b, e);
    if d.name == e.name {
      if d.BgpProtocol? && !e.BgpProtocol? {
        assert From(db, Object(0), d.name) && From(db, OfPeer, d.name);
        OriginsApart(db, Object(0), OfPeer, d.name);
      } else if !d.BgpProtocol? && e.BgpProtocol? {
        assert From(db, Object(0), e.name) && From(db, OfPeer, e.name);
        OriginsApart(db, Object(0), OfPeer, e.name);
      }
    }
  }

  lemma {:induction false} PeersApart(db: NameTables, inp: Input, peers: seq<Section>)
    requires OnlyThemselves(db) && "" !in db.peers
    requires forall k | 0 <= k < |inp.peers| :: inp.peers[k].name in db.peers
    requires forall i, j | 0 <= i < j < |inp.peers| :: inp.peers[i].name != inp.peers[j].name
    requires Collect(inp.peers, PeerSection(inp, UsedTemplates(inp.templates, inp.peers))) == Ok(peers)
    ensures Apart(db, Decls(peers), {Object(0), OfPeer})
  {
    var used := UsedTemplates(inp.templates, inp.peers);
    CollectLength(inp.peers, PeerSection(inp, used));
    forall k | 0 <= k < |peers|
      ensures peers[k].decls == PeerDecls(inp, inp.peers[k], HasTemplate(used, inp.peers[k].templateName))
      ensures Apart(db, peers[k].decls, {Object(0), OfPeer})
    {
      CollectAt(inp.peers, PeerSection(inp, used), k);
      PeerApart(db, inp, inp.peers[k], HasTemplate(used, inp.peers[k].templateName));
    }
    forall i, j, d, e | 0 <= i < j < |peers| && d in peers[i].decls && e in peers[j].decls
      ensures d.name != e.name
    {
      PeerPairApart(db, inp, inp.peers[i], inp.peers[j], HasTemplate(used, inp.peers[i].templateName),
                    HasTemplate(used, inp.peers[j].templateName), d, e);
    }
    ApartSections(db, peers, {Object(0), OfPeer});
  }

  lemma {:induction false} OriginsDisjoint()
    ensures forall o | o in OriginsUpTo(12) :: o !in {Object(0), Object(1), OfPolicy, OfPeer}
  {
    OriginsStayApart(11, 11);
    assert OriginsOf(11) == {Fixed(11)};
  }

  lemma {:induction false} FourApart(db: NameTables, a: Config, b: Config, c: Config, d: Config)
    requires OnlyThemselves(db) && Apart(db, a, OriginsUpTo(12)) && Apart(db, b, {OfPolicy}) && Apart(db, c, {Object(1)})
    requires Apart(db, d, {Object(0), OfPeer})
    ensures UniqueNames(a + b + c + d)
  {
    var g := OriginsUpTo(12);
    OriginsDisjoint();
    ApartConcat(db, a, b, g, {OfPolicy});
    ApartConcat(db, a + b, c, g + {OfPolicy}, {Object(1)});
    ApartConcat(db, a + b + c, d, g + {OfPolicy} + {Object(1)}, {Object(0), OfPeer});
    ApartIsUnique(db, a + b + c + d, g + {OfPolicy} + {Object(1)} + {Object(0), OfPeer});
  }

  /** The name columns, item by item. */
  lemma {:induction false} NamesInTables(db: NameTables, inp: Input)
    requires FromTables(db, inp)
    ensures forall k | 0 <= k < |inp.policies| :: inp.policies[k].name in db.policies
    ensures forall i, j | 0 <= i < j < |inp.policies| :: inp.policies[i].name != inp.policies[j].name
    ensures forall k | 0 <= k < |inp.templates| :: inp.templates[k].name in db.templates
    ensures forall i, j | 0 <= i < j < |inp.templates| :: inp.templates[i].name != inp.templates[j].name
    ensures forall k | 0 <= k < |inp.peers| :: inp.peers[k].name in db.peers
    ensures forall i, j | 0 <= i < j < |inp.peers| :: inp.peers[i].name != inp.peers[j].name
  {
    ItemNames(inp.policies, (p: Policy) => p.name, db.policies);
    ItemNames(inp.templates, (t: Template<Policy>) => t.name, db.templates);
    ItemNames(inp.peers, (p: Peer<Policy>) => p.name, db.peers);
  }

  lemma {:induction false} ItemNames<T>(items: seq<T>, name: T -> string, table: map<string, int>)
    requires AllIn(NamesOf(items, name), table) && Distinct(NamesOf(items, name))
    ensures forall k | 0 <= k < |items| :: name(items[k]) in table
    ensures forall i, j | 0 <= i < j < |items| :: name(items[i]) != name(items[j])
  {
    var names := NamesOf(items, name);
    forall k | 0 <= k < |items|
      ensures name(items[k]) in table
    {
      assert names[k] in table;
    }
    forall i, j | 0 <= i < j < |items|
      ensures name(items[i]) != name(items[j])
    {
      assert names[i] != names[j];
    }
  }

  /** When the look-up finds each object's name to be its own alone, the rendered sections declare no
      name twice: the check never fails. */
  lemma {:induction false} CheckNeverFails(db: NameTables, inp: Input)
    requires FromTables(db, inp) && OnlyThemselves(db) && AllSections(inp).Ok?
    ensures FirstDuplicate(Decls(AllSections(inp).value), 0).None?
  {
    var pols, templates, peers := ConfigIs(inp);
    NamesInTables(db, inp);
    LibraryApart(db, inp, 12);
    assert LibrarySections(inp)[..12] == LibrarySections(inp);
    PoliciesApart(db, inp, pols);
    TemplatesApart(db, inp, templates);
    PeersApart(db, inp, peers);
    FourApart(db, LibraryDecls(inp), Decls(pols), Decls(templates), Decls(peers));
    UniqueMeansNoDuplicate(Decls(AllSections(inp).value));
  }

  lemma {:induction false} UniqueMeansNoDuplicate(cfg: Config)
    requires UniqueNames(cfg)
    ensures FirstDuplicate(cfg, 0).None?
  {
    assert cfg[..0] == [];
    NoDuplicateMeansUnique(cfg, 0);
  }

  // ----- the renderer's own answer

  predicate IsClash(r: Result<seq<Section>>) { r.Err? && r.error.DeclaredTwice? }

  lemma {:induction false} BogonErrors(sets: seq<PrefixSet>, name: string, found: bool)
    ensures CheckBogonSet(sets, name, found).Some? ==> !CheckBogonSet(sets, name, found).value.DeclaredTwice?
    decreases |sets|
  {
    if sets != [] { BogonErrors(sets[1..], name, found || sets[0].name == name); }
  }

  lemma {:induction false} CheckErrors(inp: Input)
    ensures var e := CheckBogonSets(inp.prefixSets, inp.policies); e.Some? ==> !e.value.DeclaredTwice?
  {
    BogonErrors(inp.prefixSets, BogonSet(V4), false);
    BogonErrors(inp.prefixSets, BogonSet(V6), false);
  }

  lemma {:induction false} RpkiErrors(inp: Input, pols: seq<Policy>)
    ensures CheckRPKI(inp, pols).Some? ==> !CheckRPKI(inp, pols).value.DeclaredTwice?
    decreases |pols|
  {
    if pols != [] { RpkiErrors(inp, pols[1..]); }
  }

  lemma {:induction false} SetErrors(sets: seq<PrefixSet>, ids: seq<int>, fam: Family)
    ensures SetAccepts(sets, ids, fam).Err? ==> !SetAccepts(sets, ids, fam).error.DeclaredTwice?
  {
    if ids != [] { SetErrors(sets, ids[..|ids| - 1], fam); }
  }

  lemma {:induction false} PolicyErrors(inp: Input, pol: Policy, fam: Family)
    ensures PolicyBody(inp, pol, fam).Err? ==> !PolicyBody(inp, pol, fam).error.DeclaredTwice?
  {
    SetErrors(inp.prefixSets, pol.setIDs, fam);
  }

  lemma {:induction false} CollectErrors<T>(items: seq<T>, render: T -> Result<Section>)
    requires forall x | x in items && render(x).Err? :: !render(x).error.DeclaredTwice?
    ensures !IsClash(Collect(items, render))
  {
    if items != [] { CollectErrors(items[..|items| - 1], render); }
  }

  lemma {:induction false} SectionErrors(inp: Input)
    ensures !IsClash(AllSections(inp))
  {
    forall pol | pol in inp.policies && PolicySection(inp)(pol).Err?
      ensures !PolicySection(inp)(pol).error.DeclaredTwice?
    {
      PolicyErrors(inp, pol, V4);
      PolicyErrors(inp, pol, V6);
    }
    CollectErrors(inp.policies, PolicySection(inp));
    CollectErrors(UsedTemplates(inp.templates, inp.peers), TemplateSection(inp));
    CollectErrors(inp.peers, PeerSection(inp, UsedTemplates(inp.templates, inp.peers)));
  }

  /** A model whose names the look-up accepted is never refused for a name declared twice. */
  lemma {:induction false} NeverRefusedForNames(db: NameTables, inp: Input)
    requires FromTables(db, inp) && OnlyThemselves(db)
    ensures !IsClash(Render(inp))
  {
    CheckErrors(inp);
    RpkiErrors(inp, inp.policies);
    SectionErrors(inp);
    if AllSections(inp).Ok? { CheckNeverFails(db, inp); }
  }
}
