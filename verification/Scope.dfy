/** A rendered configuration is well scoped, and BIRD's symbol table for it says what the model
    says. (internal/render/render.go, Sections; internal/render/symbols.go, checkSymbols) */
module Scope {
  import opened Options
  import opened Bird
  import opened Model
  import opened Compile
  import opened ImportMeaning
  import opened ImportChain
  import opened Sections

  // ----- references

  datatype Kind = ANumber | ACommunity | PrefixesKind | ASNsKind | ARoaTable | AFunction | AFilter | ATemplate | AProtocol

  datatype Use = Use(kind: Kind, name: string)

  function KindOf(d: Decl): Kind {
    match d
    case DefineNumber(_, _) => ANumber
    case DefineCommunity(_, _) => ACommunity
    case DefinePrefixes(_, _) => PrefixesKind
    case DefineASNs(_, _) => ASNsKind
    case RoaTable(_) => ARoaTable
    case FunctionDecl(_, _) => AFunction
    case FilterDecl(_, _) => AFilter
    case TemplateDecl(_, _) => ATemplate
    case BgpProtocol(_, _, _, _) => AProtocol
    case RpkiProtocol(_) => AProtocol
    case OtherProtocol(_) => AProtocol
  }

  function ExprUses(e: CommunityExpr): set<Use> {
    match e
    case Value(_) => {}
    case Symbol(name, _) => {Use(ACommunity, name)}
  }

  function CondUses(c: Cond): set<Use> {
    match c
    case NetIn(s) => {Use(PrefixesKind, s)}
    case Carries(e) => ExprUses(e)
    case OriginIn(s) => {Use(ASNsKind, s)}
    case PathMeets(s) => {Use(ASNsKind, s)}
    case RoaInvalid(t) => {Use(ARoaTable, t)}
    case Not(d) => CondUses(d)
    case And(d, e) => CondUses(d) + CondUses(e)
    case Or(d, e) => CondUses(d) + CondUses(e)
    case _ => {}
  }

  function ActionUses(a: Action): set<Use> {
    match a
    case AddCommunity(e) => ExprUses(e)
    case PrependOwn => {Use(ANumber, "LOCAL_ASN")}
    case _ => {}
  }

  function StmtUses(s: Stmt): set<Use> {
    match s
    case If(c, acts) => CondUses(c) + (set k, u | 0 <= k < |acts| && u in ActionUses(acts[k]) :: u)
    case Do(a) => ActionUses(a)
    case Call(f) => {Use(AFunction, f)}
  }

  /** The symbols a declaration refers to. */
  ghost predicate Refers(d: Decl, u: Use) {
    match d
    case FunctionDecl(_, body) => exists k | 0 <= k < |body| :: u in StmtUses(body[k])
    case FilterDecl(_, body) => exists k | 0 <= k < |body| :: u in StmtUses(body[k])
    case TemplateDecl(_, options) => u == Use(ANumber, "LOCAL_ASN")
    case BgpProtocol(_, from, options, channel) =>
      || (u == Use(ANumber, "LOCAL_ASN") && exists k | 0 <= k < |options| :: options[k].LocalAs?)
      || (from.Some? && u == Use(ATemplate, from.value))
      || (channel.imports.ImportFilter? && u == Use(AFilter, channel.imports.filter))
      || (channel.exports.ExportFilter? && u == Use(AFilter, channel.exports.filter))
    case RpkiProtocol(_) => u == Use(ARoaTable, "rpki4") || u == Use(ARoaTable, "rpki6")
    case _ => false
  }

  ghost predicate Declared(cfg: Config, u: Use) {
    exists i | 0 <= i < |cfg| :: KindOf(cfg[i]) == u.kind && cfg[i].name == u.name
  }

  /** Every symbol is declared, as the right kind of thing, before it is used. */
  ghost predicate WellScoped(cfg: Config) {
    forall i, u | 0 <= i < |cfg| && Refers(cfg[i], u) :: Declared(cfg[..i], u)
  }

  lemma {:induction false} DeclaredMore(a: Config, b: Config, u: Use)
    requires Declared(a, u)
    ensures Declared(a + b, u) && Declared(b + a, u)
  {
    var i :| 0 <= i < |a| && KindOf(a[i]) == u.kind && a[i].name == u.name;
    assert (a + b)[i] == a[i] && (b + a)[|b| + i] == a[i];
  }

  lemma {:induction false} ScopedAppend(cfg: Config, more: Config)
    requires WellScoped(cfg)
    requires forall i, u | 0 <= i < |more| && Refers(more[i], u) :: Declared(cfg + more[..i], u)
    ensures WellScoped(cfg + more)
  {
    var all := cfg + more;
    forall i, u | 0 <= i < |all| && Refers(all[i], u)
      ensures Declared(all[..i], u)
    {
      if i < |cfg| {
        assert all[..i] == cfg[..i];
      } else {
        assert all[i] == more[i - |cfg|] && all[..i] == cfg + more[..i - |cfg|];
      }
    }
  }

  // ----- what the sections declare

  lemma {:induction false} DeclsConcat(a: seq<Section>, b: seq<Section>)
    ensures Decls(a + b) == Decls(a) + Decls(b)
    decreases |b|
  {
    if b == [] {
      assert a + b == a && Decls(a) + [] == Decls(a);
    } else {
      assert (a + b)[..|a + b| - 1] == a + b[..|b| - 1];
      DeclsConcat(a, b[..|b| - 1]);
    }
  }

  lemma {:induction false} DropEmptyKeepsDecls(secs: seq<Section>)
    ensures Decls(DropEmpty(secs)) == Decls(secs)
  {
    if secs != [] {
      var k := |secs| - 1;
      DropEmptyKeepsDecls(secs[..k]);
      if secs[k].decls == [] {
        assert DropEmpty(secs) == DropEmpty(secs[..k]);
        assert Decls(secs[..k]) + [] == Decls(secs[..k]);
      } else {
        assert DropEmpty(secs)[..|DropEmpty(secs)| - 1] == DropEmpty(secs[..k]);
      }
    }
  }

  lemma {:induction false} SectionMember(secs: seq<Section>, k: nat, d: Decl)
    requires k < |secs| && d in secs[k].decls
    ensures d in Decls(secs)
  {
    if k < |secs| - 1 { SectionMember(secs[..|secs| - 1], k, d); }
  }

  lemma {:induction false} MemberSection(secs: seq<Section>, d: Decl)
    requires d in Decls(secs)
    ensures exists k | 0 <= k < |secs| :: d in secs[k].decls
  {
    var n := |secs| - 1;
    if d in Decls(secs[..n]) {
      MemberSection(secs[..n], d);
      var k :| 0 <= k < n && d in secs[..n][k].decls;
      assert d in secs[k].decls;
    }
  }

  function LibraryDecls(inp: Input): Config { Decls(LibrarySections(inp)) }

  /** The sections of a model that renders, by group. */
  ghost predicate Grouped(inp: Input, pols: seq<Section>, templates: seq<Section>, peers: seq<Section>) {
    var used := UsedTemplates(inp.templates, inp.peers);
    && PolicySections(inp) == Ok(pols)
    && Collect(used, TemplateSection(inp)) == Ok(templates)
    && Collect(inp.peers, PeerSection(inp, used)) == Ok(peers)
  }

  /** The whole configuration, group after group. */
  lemma {:induction false} ConfigIs(inp: Input) returns (pols: seq<Section>, templates: seq<Section>, peers: seq<Section>)
    requires AllSections(inp).Ok?
    ensures Grouped(inp, pols, templates, peers)
    ensures Decls(AllSections(inp).value) == LibraryDecls(inp) + Decls(pols) + Decls(templates) + Decls(peers)
  {
    var used := UsedTemplates(inp.templates, inp.peers);
    pols := PolicySections(inp).value;
    templates := Collect(used, TemplateSection(inp)).value;
    peers := Collect(inp.peers, PeerSection(inp, used)).value;
    var l := LibrarySections(inp);
    DropEmptyKeepsDecls(l + pols + templates + peers);
    DeclsConcat(l + pols + templates, peers);
    DeclsConcat(l + pols, templates);
    DeclsConcat(l, pols);
  }

  // ----- members of each group

  lemma {:induction false} CommunityMember(defs: seq<CommunityDef>, name: string)
    requires CommunityByName(defs, name).Some?
    ensures DefineCommunity(name, CommunityByName(defs, name).value.value) in CommunityDecls(defs)
  {
    if defs[|defs| - 1].name != name { CommunityMember(defs[..|defs| - 1], name); }
  }

  lemma {:induction false} PrefixMember(sets: seq<PrefixSet>, ps: PrefixSet)
    requires ps in sets && Rendered(ps)
    ensures DefinePrefixes(ps.name, Patterns(ps.entries)) in PrefixDecls(sets)
  {
    if ps != sets[|sets| - 1] { PrefixMember(sets[..|sets| - 1], ps); }
  }

  lemma {:induction false} PrefixOrigin(sets: seq<PrefixSet>, d: Decl)
    requires d in PrefixDecls(sets)
    ensures d.DefinePrefixes?
    ensures exists ps | ps in sets :: Rendered(ps) && d == DefinePrefixes(ps.name, Patterns(ps.entries))
  {
    var k := |sets| - 1;
    if d in PrefixDecls(sets[..k]) { PrefixOrigin(sets[..k], d); }
  }

  lemma {:induction false} ASMember(sets: seq<ASSet>, s: ASSet)
    requires s in sets && s.entries != []
    ensures DefineASNs(s.name, s.entries) in ASDecls(sets)
  {
    if s != sets[|sets| - 1] { ASMember(sets[..|sets| - 1], s); }
  }

  lemma {:induction false} PolicyMember(inp: Input, pol: Policy, fam: Family)
    requires pol in inp.policies && PolicySections(inp).Ok?
    ensures PolicyBody(inp, pol, fam).Ok?
    ensures FunctionDecl(PolicyFunc(pol, fam), PolicyBody(inp, pol, fam).value) in Decls(PolicySections(inp).value)
  {
    var k :| 0 <= k < |inp.policies| && inp.policies[k] == pol;
    CollectAt(inp.policies, PolicySection(inp), k);
    SectionMember(PolicySections(inp).value, k, FunctionDecl(PolicyFunc(pol, fam), PolicyBody(inp, pol, fam).value));
  }

  lemma {:induction false} PeerMember(inp: Input, peers: seq<Section>, p: Peer<Policy>, d: Decl)
    requires var used := UsedTemplates(inp.templates, inp.peers);
      && Collect(inp.peers, PeerSection(inp, used)) == Ok(peers)
      && p in inp.peers && d in PeerDecls(inp, p, HasTemplate(used, p.templateName))
    ensures d in Decls(peers)
  {
    var used := UsedTemplates(inp.templates, inp.peers);
    var k :| 0 <= k < |inp.peers| && inp.peers[k] == p;
    CollectAt(inp.peers, PeerSection(inp, used), k);
    SectionMember(peers, k, d);
  }

  /** Only the prefix-set section declares prefix sets. */
  lemma {:induction false} PrefixesOnlyThere(inp: Input, d: Decl)
    requires AllSections(inp).Ok? && d in Decls(AllSections(inp).value) && d.DefinePrefixes?
    ensures d in PrefixDecls(inp.prefixSets)
  {
    var pols, templates, peers := ConfigIs(inp);
    if d in Decls(pols) { NoPrefixesInPolicies(inp, pols, d); }
    if d in Decls(templates) { NoPrefixesInTemplates(inp, templates, d); }
    if d in Decls(peers) { NoPrefixesInPeers(inp, peers, d); }
    MemberOfFour(LibraryDecls(inp), Decls(pols), Decls(templates), Decls(peers), d);
    PrefixesInLibrary(inp, d);
  }

  lemma {:induction false} MemberOfFour(a: Config, b: Config, c: Config, e: Config, d: Decl)
    requires d in a + b + c + e && d !in b && d !in c && d !in e
    ensures d in a
  {
  }

  lemma {:induction false} PrefixesInLibrary(inp: Input, d: Decl)
    requires d in LibraryDecls(inp) && d.DefinePrefixes?
    ensures d in PrefixDecls(inp.prefixSets)
  {
    var l := LibrarySections(inp);
    MemberSection(l, d);
    var k :| 0 <= k < |l| && d in l[k].decls;
    KindsOfCommunities(inp.communities);
    KindsOfAS(inp.asSets);
    KindsOfProtocols(inp.bmpStations);
    KindsOfRpki(inp.rpkiServers);
    KindsOfOriginators(inp.prefixSets);
    if k != 2 { OtherKinds(inp, k, d); }
  }

  lemma {:induction false} OtherKinds(inp: Input, k: nat, d: Decl)
    requires k < 12 && k != 2 && d in LibrarySections(inp)[k].decls
    requires d !in CommunityDecls(inp.communities) && d !in ASDecls(inp.asSets)
    requires d !in NamedProtocols(inp.bmpStations) && d !in RpkiDecls(inp.rpkiServers) && d !in OriginatorDecls(inp.prefixSets)
    ensures !d.DefinePrefixes?
  {
    if k == 1 {
      assert d in TagDecls(inp);
    } else if k == 6 {
      assert d in BaseDecls();
    }
  }

  lemma {:induction false} NoPrefixesInPolicies(inp: Input, pols: seq<Section>, d: Decl)
    requires PolicySections(inp) == Ok(pols) && d in Decls(pols)
    ensures !d.DefinePrefixes?
  {
    MemberSection(pols, d);
    var k :| 0 <= k < |pols| && d in pols[k].decls;
    CollectLength(inp.policies, PolicySection(inp));
    CollectAt(inp.policies, PolicySection(inp), k);
    PolicyDeclKinds(inp, inp.policies[k]);
  }

  lemma {:induction false} NoPrefixesInTemplates(inp: Input, templates: seq<Section>, d: Decl)
    requires Collect(UsedTemplates(inp.templates, inp.peers), TemplateSection(inp)) == Ok(templates) && d in Decls(templates)
    ensures !d.DefinePrefixes?
  {
    var used := UsedTemplates(inp.templates, inp.peers);
    MemberSection(templates, d);
    var k :| 0 <= k < |templates| && d in templates[k].decls;
    CollectLength(used, TemplateSection(inp));
    CollectAt(used, TemplateSection(inp), k);
  }

  lemma {:induction false} NoPrefixesInPeers(inp: Input, peers: seq<Section>, d: Decl)
    requires Collect(inp.peers, PeerSection(inp, UsedTemplates(inp.templates, inp.peers))) == Ok(peers) && d in Decls(peers)
    ensures !d.DefinePrefixes?
  {
    var used := UsedTemplates(inp.templates, inp.peers);
    MemberSection(peers, d);
    var k :| 0 <= k < |peers| && d in peers[k].decls;
    CollectLength(inp.peers, PeerSection(inp, used));
    CollectAt(inp.peers, PeerSection(inp, used), k);
    PeerDeclKinds(inp, inp.peers[k], HasTemplate(used, inp.peers[k].templateName));
  }

  lemma {:induction false} CollectLength<T>(items: seq<T>, render: T -> Result<Section>)
    requires Collect(items, render).Ok?
    ensures |Collect(items, render).value| == |items|
  {
    if items != [] { CollectAt(items, render, 0); }
  }

  lemma {:induction false} PolicyDeclKinds(inp: Input, pol: Policy)
    requires PolicyDecls(inp, pol).Ok?
    ensures forall d | d in PolicyDecls(inp, pol).value :: d.FunctionDecl?
  {
  }

  lemma {:induction false} PeerDeclKinds(inp: Input, p: Peer<Policy>, inherits: bool)
    ensures forall d | d in PeerDecls(inp, p, inherits) :: d.FilterDecl? || d.BgpProtocol?
  {
  }

  lemma {:induction false} KindsOfCommunities(defs: seq<CommunityDef>)
    ensures forall d | d in CommunityDecls(defs) :: d.DefineCommunity?
  {
    if defs != [] { KindsOfCommunities(defs[..|defs| - 1]); }
  }

  lemma {:induction false} KindsOfAS(sets: seq<ASSet>)
    ensures forall d | d in ASDecls(sets) :: d.DefineASNs?
  {
    if sets != [] { KindsOfAS(sets[..|sets| - 1]); }
  }

  lemma {:induction false} KindsOfProtocols(names: seq<string>)
    ensures forall d | d in NamedProtocols(names) :: d.OtherProtocol?
  {
    if names != [] { KindsOfProtocols(names[..|names| - 1]); }
  }

  lemma {:induction false} KindsOfRpki(names: seq<string>)
    ensures forall d | d in RpkiDecls(names) :: d.RpkiProtocol?
  {
    if names != [] { KindsOfRpki(names[..|names| - 1]); }
  }

  lemma {:induction false} KindsOfOriginators(sets: seq<PrefixSet>)
    ensures forall d | d in OriginatorDecls(sets) :: d.OtherProtocol?
  {
    if sets != [] { KindsOfOriginators(sets[..|sets| - 1]); }
  }

  // ----- the symbol table

  lemma {:induction false} FindUnique(cfg: Config, d: Decl)
    requires d in cfg && forall i, j | 0 <= i < j < |cfg| :: cfg[i].name != cfg[j].name
    ensures Find(cfg, d.name) == Some(d)
  {
    if cfg[0] != d {
      var i :| 0 <= i < |cfg| && cfg[i] == d;
      assert cfg[0].name != cfg[i].name;
      FindUnique(cfg[1..], d);
    }
  }

  lemma {:induction false} FoundIsMember(cfg: Config, name: string)
    ensures Find(cfg, name).Some? ==> Find(cfg, name).value in cfg && Find(cfg, name).value.name == name
  {
    if cfg != [] && cfg[0].name != name { FoundIsMember(cfg[1..], name); }
  }

  lemma {:induction false} BogonNetsFind(sets: seq<PrefixSet>, fam: Family) returns (found: Option<PrefixSet>)
    ensures found.Some? ==>
      && found.value in sets && found.value.name == BogonSet(fam) && Rendered(found.value)
      && BogonNetsIn(sets, fam) == Patterns(found.value.entries)
    ensures found.None? ==> BogonNetsIn(sets, fam) == [] && forall ps | ps in sets && Rendered(ps) :: ps.name != BogonSet(fam)
  {
    if sets == [] {
      found := None;
    } else if sets[0].name == BogonSet(fam) && Rendered(sets[0]) {
      found := Some(sets[0]);
    } else {
      found := BogonNetsFind(sets[1..], fam);
    }
  }

  lemma {:induction false} BogonsLoaded(cfg: Config, inp: Input, fam: Family)
    requires AllSections(inp).Ok? && cfg == Decls(AllSections(inp).value) && UniqueNames(cfg)
    ensures PrefixesOf(cfg, BogonSet(fam)) == BogonNets(inp, fam)
  {
    var found := BogonNetsFind(inp.prefixSets, fam);
    if found.Some? {
      PrefixSetLoaded(cfg, inp, found.value);
    } else {
      NoBogonsLoaded(cfg, inp, fam);
    }
  }

  lemma {:induction false} PrefixSetLoaded(cfg: Config, inp: Input, ps: PrefixSet)
    requires AllSections(inp).Ok? && cfg == Decls(AllSections(inp).value) && UniqueNames(cfg)
    requires ps in inp.prefixSets && Rendered(ps)
    ensures PrefixesOf(cfg, ps.name) == Patterns(ps.entries)
  {
    var pols, templates, peers := ConfigIs(inp);
    PrefixMember(inp.prefixSets, ps);
    SectionMember(LibrarySections(inp), 2, DefinePrefixes(ps.name, Patterns(ps.entries)));
    FindUnique(cfg, DefinePrefixes(ps.name, Patterns(ps.entries)));
  }

  lemma {:induction false} NoBogonsLoaded(cfg: Config, inp: Input, fam: Family)
    requires AllSections(inp).Ok? && cfg == Decls(AllSections(inp).value)
    requires forall ps | ps in inp.prefixSets && Rendered(ps) :: ps.name != BogonSet(fam)
    ensures PrefixesOf(cfg, BogonSet(fam)) == []
  {
    FoundIsMember(cfg, BogonSet(fam));
    match Find(cfg, BogonSet(fam)) {
      case Some(DefinePrefixes(name, patterns)) =>
        PrefixesOnlyThere(inp, DefinePrefixes(name, patterns));
        PrefixOrigin(inp.prefixSets, DefinePrefixes(name, patterns));
      case _ =>
    }
  }

  /** What renders declares every name once: the last check of the renderer. */
  lemma {:induction false} RenderedUnique(inp: Input)
    ensures Render(inp).Ok? ==> UniqueNames(Decls(Render(inp).value))
  {
    if Render(inp).Ok? {
      var cfg := Decls(Render(inp).value);
      assert cfg[..0] == [];
      NoDuplicateMeansUnique(cfg, 0);
    }
  }

  /** A model that renders gives a configuration whose every symbol stands for what the model
      says: the ground the meaning of filters stands on. */
  lemma {:induction false} RenderedIsLoaded(inp: Input)
    ensures Render(inp).Ok? ==> Loaded(Decls(Render(inp).value), inp)
  {
    if Render(inp).Ok? {
      RenderedUnique(inp);
      SectionsLoaded(inp);
    }
  }

  lemma {:induction false} SectionsLoaded(inp: Input)
    requires AllSections(inp).Ok? && UniqueNames(Decls(AllSections(inp).value))
    ensures Loaded(Decls(AllSections(inp).value), inp)
  {
    var cfg := Decls(AllSections(inp).value);
    var pols, templates, peers := ConfigIs(inp);
    FixedLoaded(cfg, inp);
    forall fam
      ensures PrefixesOf(cfg, BogonSet(fam)) == BogonNets(inp, fam)
    {
      BogonsLoaded(cfg, inp, fam);
    }
    LibraryLoaded(cfg, inp);
    PoliciesLoaded(cfg, inp, pols);
    PeersLoaded(cfg, inp, peers);
  }

  lemma {:induction false} FixedFound(cfg: Config, inp: Input, k: nat, d: Decl)
    requires UniqueNames(cfg) && (forall e | e in LibraryDecls(inp) :: e in cfg)
    requires k < 12 && d in LibrarySections(inp)[k].decls
    ensures Find(cfg, d.name) == Some(d)
  {
    SectionMember(LibrarySections(inp), k, d);
    FindUnique(cfg, d);
  }

  lemma {:induction false} TagLoaded(cfg: Config, inp: Input, role: Role)
    requires UniqueNames(cfg) && role != IBGP && forall d | d in LibraryDecls(inp) :: d in cfg
    ensures CommunityOf(cfg, Symbol(TagName(role), true)) == Some(Tag(inp.localASN, role))
  {
    assert DefineCommunity(TagName(role), Tag(inp.localASN, role)) in TagDecls(inp);
    FixedFound(cfg, inp, 1, DefineCommunity(TagName(role), Tag(inp.localASN, role)));
  }

  lemma {:induction false} FixedLoaded(cfg: Config, inp: Input)
    requires UniqueNames(cfg) && forall d | d in LibraryDecls(inp) :: d in cfg
    ensures NumberOf(cfg, "LOCAL_ASN") == inp.localASN
    ensures forall role | role != IBGP :: CommunityOf(cfg, Symbol(TagName(role), true)) == Some(Tag(inp.localASN, role))
    ensures CommunityOf(cfg, Symbol("RPKI_INVALID", true)) == Some(RpkiInvalidTag(inp.localASN))
    ensures RangesOf(cfg, "BOGON_ASNS") == BogonRanges(Bogons(inp), false)
    ensures RangesOf(cfg, "BOGON_ASNS_EXCEPT_PRIVATE") == BogonRanges(Bogons(inp), true)
  {
    forall role | role != IBGP
      ensures CommunityOf(cfg, Symbol(TagName(role), true)) == Some(Tag(inp.localASN, role))
    {
      TagLoaded(cfg, inp, role);
    }
    FixedFound(cfg, inp, 0, DefineNumber("LOCAL_ASN", inp.localASN));
    FixedFound(cfg, inp, 1, TagDecls(inp)[3]);
    FixedFound(cfg, inp, 4, BogonDecls(inp)[0]);
    FixedFound(cfg, inp, 4, BogonDecls(inp)[1]);
  }

  lemma {:induction false} LibraryLoaded(cfg: Config, inp: Input)
    requires UniqueNames(cfg) && forall d | d in LibraryDecls(inp) :: d in cfg
    ensures forall ps | ps in inp.prefixSets && Rendered(ps) :: PrefixesOf(cfg, ps.name) == Patterns(ps.entries)
    ensures forall s | s in inp.asSets && s.entries != [] :: RangesOf(cfg, s.name) == s.entries
    ensures forall ref | Resolve(inp.communities, ref).Some? ::
              CommunityOf(cfg, RefExpr(inp.communities, ref)) == Resolve(inp.communities, ref)
  {
    forall ps | ps in inp.prefixSets && Rendered(ps)
      ensures PrefixesOf(cfg, ps.name) == Patterns(ps.entries)
    {
      PrefixMember(inp.prefixSets, ps);
      SectionMember(LibrarySections(inp), 2, DefinePrefixes(ps.name, Patterns(ps.entries)));
      FindUnique(cfg, DefinePrefixes(ps.name, Patterns(ps.entries)));
    }
    forall s | s in inp.asSets && s.entries != []
      ensures RangesOf(cfg, s.name) == s.entries
    {
      ASMember(inp.asSets, s);
      SectionMember(LibrarySections(inp), 3, DefineASNs(s.name, s.entries));
      FindUnique(cfg, DefineASNs(s.name, s.entries));
    }
    forall ref | Resolve(inp.communities, ref).Some?
      ensures CommunityOf(cfg, RefExpr(inp.communities, ref)) == Resolve(inp.communities, ref)
    {
      if ref.Named? {
        var d := DefineCommunity(ref.name, CommunityByName(inp.communities, ref.name).value.value);
        CommunityMember(inp.communities, ref.name);
        SectionMember(LibrarySections(inp), 1, d);
        FindUnique(cfg, d);
      }
    }
  }

  lemma {:induction false} PoliciesLoaded(cfg: Config, inp: Input, pols: seq<Section>)
    requires UniqueNames(cfg) && PolicySections(inp) == Ok(pols)
    requires forall d | d in Decls(pols) :: d in cfg
    ensures forall pol, fam | pol in inp.policies && PolicyBody(inp, pol, fam).Ok? ::
              BodyOf(cfg, PolicyFunc(pol, fam)) == PolicyBody(inp, pol, fam).value
  {
    forall pol, fam | pol in inp.policies && PolicyBody(inp, pol, fam).Ok?
      ensures BodyOf(cfg, PolicyFunc(pol, fam)) == PolicyBody(inp, pol, fam).value
    {
      PolicyMember(inp, pol, fam);
      FindUnique(cfg, FunctionDecl(PolicyFunc(pol, fam), PolicyBody(inp, pol, fam).value));
    }
  }

  lemma {:induction false} PeersLoaded(cfg: Config, inp: Input, peers: seq<Section>)
    requires UniqueNames(cfg) && Collect(inp.peers, PeerSection(inp, UsedTemplates(inp.templates, inp.peers))) == Ok(peers)
    requires forall d | d in Decls(peers) :: d in cfg
    ensures forall p | p in inp.peers && (!p.IsIBGP() || p.importPolicies != []) ::
              BodyOf(cfg, ImportFilterName(p)) == ImportFilterBody(inp, p)
    ensures forall p | p in inp.peers && p.exportPolicies != [] ::
              BodyOf(cfg, ExportFilterName(p)) == ExportFilterBody(inp, p)
  {
    forall p | p in inp.peers && (!p.IsIBGP() || p.importPolicies != [])
      ensures BodyOf(cfg, ImportFilterName(p)) == ImportFilterBody(inp, p)
    {
      FilterLoaded(cfg, inp, peers, p, FilterDecl(ImportFilterName(p), ImportFilterBody(inp, p)));
    }
    forall p | p in inp.peers && p.exportPolicies != []
      ensures BodyOf(cfg, ExportFilterName(p)) == ExportFilterBody(inp, p)
    {
      FilterLoaded(cfg, inp, peers, p, FilterDecl(ExportFilterName(p), ExportFilterBody(inp, p)));
    }
  }

  lemma {:induction false} FilterLoaded(cfg: Config, inp: Input, peers: seq<Section>, p: Peer<Policy>, d: Decl)
    requires UniqueNames(cfg) && Collect(inp.peers, PeerSection(inp, UsedTemplates(inp.templates, inp.peers))) == Ok(peers)
    requires forall e | e in Decls(peers) :: e in cfg
    requires p in inp.peers && d in FilterDecls(inp, p)
    ensures Find(cfg, d.name) == Some(d)
  {
    PeerMember(inp, peers, p, d);
    FindUnique(cfg, d);
  }

  // ----- the templates in use

  lemma {:induction false} UsedAre(templates: seq<Template<Policy>>, peers: seq<Peer<Policy>>, k: nat) returns (i: nat)
    requires k < |UsedTemplates(templates, peers)|
    ensures i < |templates| && templates[i] == UsedTemplates(templates, peers)[k]
  {
    var n := |templates| - 1;
    if k < |UsedTemplates(templates[..n], peers)| { i := UsedAre(templates[..n], peers, k); } else { i := n; }
  }

  lemma {:induction false} UsedDistinct(templates: seq<Template<Policy>>, peers: seq<Peer<Policy>>)
    requires forall i, j | 0 <= i < j < |templates| :: templates[i].name != templates[j].name
    ensures forall i, j | 0 <= i < j < |UsedTemplates(templates, peers)| ::
              UsedTemplates(templates, peers)[i].name != UsedTemplates(templates, peers)[j].name
  {
    if templates != [] {
      var n := |templates| - 1;
      UsedDistinct(templates[..n], peers);
      var all, used := UsedTemplates(templates, peers), UsedTemplates(templates[..n], peers);
      forall i, j | 0 <= i < j < |all|
        ensures all[i].name != all[j].name
      {
        assert all[i] == used[i];
        if j < |used| {
          assert all[j] == used[j];
        } else {
          var k := UsedAre(templates[..n], peers, i);
          assert templates[..n][k] == templates[k] && all[j] == templates[n];
        }
      }
    }
  }
}
