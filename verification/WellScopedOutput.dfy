/** Every symbol of a rendered configuration is declared before it is used -- and exactly when
    that can fail. */
module WellScopedOutput {
  import opened Options
  import opened Bird
  import opened Model
  import opened Compile
  import opened ImportMeaning
  import opened ImportChain
  import opened Sections
  import opened Scope

  // ----- code whose symbols are declared

  ghost predicate Closed(cfg: Config, body: seq<Stmt>) {
    forall k, u | 0 <= k < |body| && u in StmtUses(body[k]) :: Declared(cfg, u)
  }

  lemma {:induction false} ClosedConcat(cfg: Config, a: seq<Stmt>, b: seq<Stmt>)
    requires Closed(cfg, a) && Closed(cfg, b)
    ensures Closed(cfg, a + b)
  {
    forall k, u | 0 <= k < |a + b| && u in StmtUses((a + b)[k])
      ensures Declared(cfg, u)
    {
      if k < |a| { assert (a + b)[k] == a[k]; } else { assert (a + b)[k] == b[k - |a|]; }
    }
  }

  lemma {:induction false} ClosedGuard(cfg: Config, c: Cond, act: Action)
    requires forall u | u in CondUses(c) :: Declared(cfg, u)
    requires forall u | u in ActionUses(act) :: Declared(cfg, u)
    ensures Closed(cfg, [If(c, [act])])
  {
  }

  ghost predicate DeclaresFixed(cfg: Config) {
    && Declared(cfg, Use(ANumber, "LOCAL_ASN"))
    && (forall role | role != IBGP :: Declared(cfg, Use(ACommunity, TagName(role))))
    && Declared(cfg, Use(ACommunity, "RPKI_INVALID"))
    && Declared(cfg, Use(ASNsKind, "BOGON_ASNS")) && Declared(cfg, Use(ASNsKind, "BOGON_ASNS_EXCEPT_PRIVATE"))
  }

  ghost predicate DeclaresLibrary(cfg: Config, inp: Input) {
    && (forall ps | ps in inp.prefixSets && Rendered(ps) :: Declared(cfg, Use(PrefixesKind, ps.name)))
    && (forall s | s in inp.asSets && s.entries != [] :: Declared(cfg, Use(ASNsKind, s.name)))
    && (forall ref | Resolve(inp.communities, ref).Some? ::
          forall u | u in ExprUses(RefExpr(inp.communities, ref)) :: Declared(cfg, u))
    && (inp.rpkiServers != [] ==> forall fam :: Declared(cfg, Use(ARoaTable, RoaTableOf(fam))))
  }

  /** The policy's function names its family's bogon set. */
  predicate UsesBogons(inp: Input, pol: Policy, fam: Family) {
    pol.rejectBogonPrefixes && (pol.isImport ==> AllowListGate(inp.prefixSets, pol, fam) == Ok(None))
  }

  ghost predicate BogonSetOn(inp: Input, fam: Family) {
    exists ps | ps in inp.prefixSets :: ps.name == BogonSet(fam) && Rendered(ps)
  }

  ghost predicate PolicyResolves(inp: Input, pol: Policy, fam: Family) {
    && KnownMatch(inp, pol)
    && (pol.rov != RovOff ==> inp.rpkiServers != [])
    && (UsesBogons(inp, pol, fam) ==> BogonSetOn(inp, fam))
  }

  lemma {:induction false} VetoClosed(cfg: Config, on: bool, c: Cond)
    requires on ==> forall u | u in CondUses(c) :: Declared(cfg, u)
    ensures Closed(cfg, Veto(on, c)) && Closed(cfg, Permit(on, c))
  {
    if on {
      ClosedGuard(cfg, c, Reject);
      ClosedGuard(cfg, c, Accept);
    }
  }

  lemma {:induction false} PlainPartsClosed(cfg: Config, inp: Input, pol: Policy, fam: Family)
    ensures Closed(cfg, DefaultPart(pol, fam)) && Closed(cfg, LengthPart(pol, fam))
    ensures Closed(cfg, BlackholePart(inp.prefixSets, pol, fam)) && Closed(cfg, LocalPrefPart(pol))
  {
    var c := LengthCond(MinLen(pol, fam), MaxLen(pol, fam));
    assert CondUses(c) == {};
    assert CondUses(And(Not(NetIs(AnyRoute(fam))), c)) == {} by { assert CondUses(Not(NetIs(AnyRoute(fam)))) == {}; }
    var host := And(Carries(Value(BLACKHOLE)), LenIs(fam.HostBits()));
    assert CondUses(host) == {};
    assert CondUses(BlackholeCond(inp.prefixSets, pol, fam)) == {};
  }

  lemma {:induction false} MatchClosed(cfg: Config, inp: Input, pol: Policy)
    requires DeclaresLibrary(cfg, inp) && KnownMatch(inp, pol)
    ensures Closed(cfg, MatchPart(inp.communities, pol, Reject)) && Closed(cfg, MatchPart(inp.communities, pol, Accept))
  {
    if pol.matchCommunity.Some? {
      var e := RefExpr(inp.communities, pol.matchCommunity.value);
      assert CondUses(Carries(e)) == ExprUses(e);
      ClosedGuard(cfg, Carries(e), Reject);
      ClosedGuard(cfg, Carries(e), Accept);
    }
  }

  lemma {:induction false} SetPartsClosed(cfg: Config, inp: Input, pol: Policy, fam: Family)
    requires DeclaresLibrary(cfg, inp) && AllowListGate(inp.prefixSets, pol, fam) == Ok(None)
    requires OriginPart(inp.asSets, pol).Ok?
    ensures Closed(cfg, AllowListPart(inp.prefixSets, pol)) && Closed(cfg, OriginPart(inp.asSets, pol).value)
  {
    if pol.acceptOnlySet.Some? {
      SetByIDIn(inp.prefixSets, pol.acceptOnlySet.value);
      var ps := SetByID(inp.prefixSets, pol.acceptOnlySet.value).value;
      assert CondUses(Not(NetIn(ps.name))) == {Use(PrefixesKind, ps.name)};
      ClosedGuard(cfg, Not(NetIn(ps.name)), Reject);
    }
    if pol.originASSet.Some? {
      ASSetByIDIn(inp.asSets, pol.originASSet.value);
      var s := ASSetByID(inp.asSets, pol.originASSet.value).value;
      assert CondUses(Not(OriginIn(s.name))) == {Use(ASNsKind, s.name)};
      ClosedGuard(cfg, Not(OriginIn(s.name)), Reject);
    }
  }

  lemma {:induction false} RovClosed(cfg: Config, inp: Input, pol: Policy, fam: Family)
    requires DeclaresFixed(cfg) && DeclaresLibrary(cfg, inp) && PolicyResolves(inp, pol, fam)
    ensures Closed(cfg, RovPart(pol, fam)) && Closed(cfg, BogonASNPart(pol))
  {
    ClosedGuardIf(cfg, pol.rov == RovReject, RoaInvalid(RoaTableOf(fam)), Reject);
    ClosedGuardIf(cfg, pol.rov == RovLog, RoaInvalid(RoaTableOf(fam)), AddCommunity(Symbol("RPKI_INVALID", true)));
    ClosedGuard(cfg, PathMeets("BOGON_ASNS"), Reject);
    ClosedGuard(cfg, PathMeets("BOGON_ASNS_EXCEPT_PRIVATE"), Reject);
  }

  lemma {:induction false} ClosedGuardIf(cfg: Config, on: bool, c: Cond, act: Action)
    requires on ==> forall u | u in CondUses(c) + ActionUses(act) :: Declared(cfg, u)
    ensures on ==> Closed(cfg, [If(c, [act])])
  {
    if on { ClosedGuard(cfg, c, act); }
  }

  lemma {:induction false} BogonVetoClosed(cfg: Config, inp: Input, pol: Policy, fam: Family)
    requires DeclaresLibrary(cfg, inp) && (pol.rejectBogonPrefixes ==> BogonSetOn(inp, fam))
    ensures Closed(cfg, Veto(pol.rejectBogonPrefixes, NetIn(BogonSet(fam))))
  {
    VetoClosed(cfg, pol.rejectBogonPrefixes, NetIn(BogonSet(fam)));
  }

  lemma {:induction false} ImportClosed(cfg: Config, inp: Input, pol: Policy, fam: Family)
    requires DeclaresFixed(cfg) && DeclaresLibrary(cfg, inp) && PolicyResolves(inp, pol, fam)
    requires pol.isImport && ImportBody(inp, pol, fam).Ok?
    ensures Closed(cfg, ImportBody(inp, pol, fam).value)
  {
    if AllowListGate(inp.prefixSets, pol, fam) == Ok(None) {
      var origin := OriginPart(inp.asSets, pol).value;
      PlainPartsClosed(cfg, inp, pol, fam);
      BogonVetoClosed(cfg, inp, pol, fam);
      MatchClosed(cfg, inp, pol);
      SetPartsClosed(cfg, inp, pol, fam);
      RovClosed(cfg, inp, pol, fam);
      VetoClosed(cfg, pol.maxASPathLen > 0, PathAbove(pol.maxASPathLen));
      VetoClosed(cfg, pol.rejectOwnASN, PathHas(inp.localASN));
      ClosedFive(cfg, DefaultPart(pol, fam), LengthPart(pol, fam), Veto(pol.rejectBogonPrefixes, NetIn(BogonSet(fam))),
                 MatchPart(inp.communities, pol, Reject), AllowListPart(inp.prefixSets, pol));
      ClosedFour(cfg, Veto(pol.maxASPathLen > 0, PathAbove(pol.maxASPathLen)),
                 Veto(pol.rejectOwnASN, PathHas(inp.localASN)), BogonASNPart(pol), LocalPrefPart(pol));
      ClosedFive(cfg, BlackholePart(inp.prefixSets, pol, fam), EarlyChecks(inp, pol, fam), origin,
                 RovPart(pol, fam), LateChecks(inp, pol));
    }
  }

  lemma {:induction false} ClosedFour(cfg: Config, a: seq<Stmt>, b: seq<Stmt>, c: seq<Stmt>, d: seq<Stmt>)
    requires Closed(cfg, a) && Closed(cfg, b) && Closed(cfg, c) && Closed(cfg, d)
    ensures Closed(cfg, a + b + c + d)
  {
    ClosedConcat(cfg, a, b);
    ClosedConcat(cfg, a + b, c);
    ClosedConcat(cfg, a + b + c, d);
  }

  lemma {:induction false} ClosedFive(cfg: Config, a: seq<Stmt>, b: seq<Stmt>, c: seq<Stmt>, d: seq<Stmt>, e: seq<Stmt>)
    requires Closed(cfg, a) && Closed(cfg, b) && Closed(cfg, c) && Closed(cfg, d) && Closed(cfg, e)
    ensures Closed(cfg, a + b + c + d + e)
  {
    ClosedFour(cfg, a, b, c, d);
    ClosedConcat(cfg, a + b + c + d, e);
  }

  lemma {:induction false} SetAcceptsClosed(cfg: Config, inp: Input, ids: seq<int>, fam: Family)
    requires DeclaresLibrary(cfg, inp) && SetAccepts(inp.prefixSets, ids, fam).Ok?
    ensures Closed(cfg, SetAccepts(inp.prefixSets, ids, fam).value)
  {
    if ids != [] {
      var k := |ids| - 1;
      var ps := SetByID(inp.prefixSets, ids[k]).value;
      SetByIDIn(inp.prefixSets, ids[k]);
      SetAcceptsClosed(cfg, inp, ids[..k], fam);
      VetoClosed(cfg, ps.family == fam && !ps.disabled && ps.entries != [], NetIn(ps.name));
      ClosedConcat(cfg, SetAccepts(inp.prefixSets, ids[..k], fam).value,
                   Permit(ps.family == fam && !ps.disabled && ps.entries != [], NetIn(ps.name)));
    }
  }

  lemma {:induction false} TagPermitClosed(cfg: Config, on: bool, role: Role)
    requires DeclaresFixed(cfg) && role != IBGP
    ensures Closed(cfg, Permit(on, Carries(Symbol(TagName(role), true))))
  {
    assert CondUses(Carries(Symbol(TagName(role), true))) == {Use(ACommunity, TagName(role))};
    VetoClosed(cfg, on, Carries(Symbol(TagName(role), true)));
  }

  lemma {:induction false} ExportClosed(cfg: Config, inp: Input, pol: Policy, fam: Family)
    requires DeclaresFixed(cfg) && DeclaresLibrary(cfg, inp) && PolicyResolves(inp, pol, fam)
    requires !pol.isImport && ExportBody(inp, pol, fam).Ok?
    ensures Closed(cfg, ExportBody(inp, pol, fam).value)
  {
    var veto := Veto(pol.rejectBogonPrefixes, NetIn(BogonSet(fam)));
    BogonVetoClosed(cfg, inp, pol, fam);
    if pol.announceEverything {
      ClosedConcat(cfg, veto, [Do(Accept)]);
    } else {
      VetoClosed(cfg, pol.announceDefault, NetIs(AnyRoute(fam)));
      SetAcceptsClosed(cfg, inp, pol.setIDs, fam);
      TagPermitClosed(cfg, pol.announceFromUpstream, Upstream);
      TagPermitClosed(cfg, pol.announceFromIX, IXPeer);
      TagPermitClosed(cfg, pol.announceFromCustomer, Customer);
      MatchClosed(cfg, inp, pol);
      ClosedFour(cfg, Permit(pol.announceFromUpstream, Carries(Symbol(TagName(Upstream), true))),
                 Permit(pol.announceFromIX, Carries(Symbol(TagName(IXPeer), true))),
                 Permit(pol.announceFromCustomer, Carries(Symbol(TagName(Customer), true))),
                 MatchPart(inp.communities, pol, Accept));
      ClosedFour(cfg, veto, Permit(pol.announceDefault, NetIs(AnyRoute(fam))),
                 SetAccepts(inp.prefixSets, pol.setIDs, fam).value, SourceAccepts(inp, pol));
    }
  }

  // ----- filters

  lemma {:induction false} RefsClosed(cfg: Config, inp: Input, refs: seq<CommunityRef>)
    requires DeclaresLibrary(cfg, inp) && KnownRefs(inp.communities, refs)
    ensures Closed(cfg, AddRefs(inp.communities, refs))
  {
    var s := AddRefs(inp.communities, refs);
    forall k, u | 0 <= k < |s| && u in StmtUses(s[k])
      ensures Declared(cfg, u)
    {
      assert Resolve(inp.communities, refs[k]).Some?;
      assert u in ExprUses(RefExpr(inp.communities, refs[k]));
    }
  }

  ghost predicate FunctionsDeclared(cfg: Config, chain: seq<Policy>, fam: Family) {
    forall k | 0 <= k < |chain| :: Declared(cfg, Use(AFunction, PolicyFunc(chain[k], fam)))
  }

  lemma {:induction false} ImportFilterClosed(cfg: Config, inp: Input, p: Peer<Policy>)
    requires DeclaresFixed(cfg) && DeclaresLibrary(cfg, inp) && KnownRefs(inp.communities, p.importCommunities)
    requires FunctionsDeclared(cfg, p.importPolicies, p.Fam())
    ensures Closed(cfg, ImportFilterBody(inp, p))
  {
    VetoClosed(cfg, p.enforceFirstAS, Not(FirstIs(p.remoteASN)));
    VetoClosed(cfg, p.originPeerOnly, Not(OriginIs(p.remoteASN)));
    RefsClosed(cfg, inp, p.importCommunities);
    var strip := if p.IsIBGP() then [] else [Do(DeleteLargeOf(inp.localASN))];
    var tag := if p.role == IBGP then [] else [Do(AddCommunity(Symbol(TagName(p.role), true)))];
    ClosedFive(cfg, Veto(p.enforceFirstAS, Not(FirstIs(p.remoteASN))), Veto(p.originPeerOnly, Not(OriginIs(p.remoteASN))),
               strip, AddRefs(inp.communities, p.importCommunities), tag);
    ClosedConcat(cfg, if p.drained then [Do(SetLocalPref(0))] else [], [Do(Accept)]);
    ClosedConcat(cfg, ImportPrologue(inp, p), Calls(p.importPolicies, p.Fam()));
    ClosedConcat(cfg, ImportPrologue(inp, p) + Calls(p.importPolicies, p.Fam()), ImportEpilogue(p));
  }

  lemma {:induction false} ExportFilterClosed(cfg: Config, inp: Input, p: Peer<Policy>)
    requires DeclaresFixed(cfg) && DeclaresLibrary(cfg, inp) && KnownRefs(inp.communities, p.exportCommunities)
    requires FunctionsDeclared(cfg, p.exportPolicies, p.Fam())
    ensures Closed(cfg, ExportFilterBody(inp, p))
  {
    RefsClosed(cfg, inp, p.exportCommunities);
    var drain := if p.drained then [Do(AddCommunity(Value(GRACEFUL_SHUTDOWN)))] else [];
    ClosedConcat(cfg, drain, Repeat(Do(PrependOwn), p.prependCount));
    ClosedConcat(cfg, drain + Repeat(Do(PrependOwn), p.prependCount), AddRefs(inp.communities, p.exportCommunities));
    ClosedConcat(cfg, ExportPrologue(inp, p), Calls(p.exportPolicies, p.Fam()));
    ClosedConcat(cfg, ExportPrologue(inp, p) + Calls(p.exportPolicies, p.Fam()), [Do(Reject)]);
  }

  // ----- section by section

  /** A section's declarations refer to what comes before it and to its own earlier ones. */
  ghost predicate SectionClosed(cfg: Config, decls: seq<Decl>) {
    forall i, u | 0 <= i < |decls| && Refers(decls[i], u) :: Declared(cfg + decls[..i], u)
  }

  lemma {:induction false} SectionClosedMore(cfg: Config, more: Config, decls: seq<Decl>)
    requires SectionClosed(cfg, decls)
    ensures SectionClosed(cfg + more, decls)
  {
    forall i, u | 0 <= i < |decls| && Refers(decls[i], u)
      ensures Declared(cfg + more + decls[..i], u)
    {
      var j :| 0 <= j < |cfg + decls[..i]| && KindOf((cfg + decls[..i])[j]) == u.kind && (cfg + decls[..i])[j].name == u.name;
      var all := cfg + more + decls[..i];
      if j < |cfg| {
        assert all[j] == cfg[j];
      } else {
        assert all[j + |more|] == decls[..i][j - |cfg|];
      }
    }
  }

  lemma {:induction false} SectionsScoped(cfg: Config, secs: seq<Section>)
    requires WellScoped(cfg) && forall k | 0 <= k < |secs| :: SectionClosed(cfg, secs[k].decls)
    ensures WellScoped(cfg + Decls(secs))
  {
    if secs == [] {
      assert cfg + [] == cfg;
    } else {
      var k := |secs| - 1;
      SectionsScoped(cfg, secs[..k]);
      SectionClosedMore(cfg, Decls(secs[..k]), secs[k].decls);
      ScopedAppend(cfg + Decls(secs[..k]), secs[k].decls);
      assert cfg + Decls(secs[..k]) + secs[k].decls == cfg + Decls(secs);
    }
  }

  lemma {:induction false} MemberDeclared(cfg: Config, d: Decl)
    requires d in cfg
    ensures Declared(cfg, Use(KindOf(d), d.name))
  {
  }

  /** The library declares everything policies and peers may name, and is itself well scoped. */
  lemma {:induction false} LibraryScoped(inp: Input)
    ensures WellScoped(LibraryDecls(inp)) && DeclaresFixed(LibraryDecls(inp)) && DeclaresLibrary(LibraryDecls(inp), inp)
  {
    LibraryRefersToRoaOnly(inp);
    LibraryDeclaresFixed(inp);
    LibraryDeclaresSets(inp);
  }

  lemma {:induction false} LibraryRefersToRoaOnly(inp: Input)
    ensures WellScoped(LibraryDecls(inp))
  {
    var l := LibrarySections(inp);
    KindsOfRpki(inp.rpkiServers);
    assert l == l[..9] + l[9..];
    DeclsConcat(l[..9], l[9..]);
    forall k | 0 <= k < 12 && k != 9
      ensures SectionClosed([], l[k].decls)
    {
      QuietSection(inp, k);
      QuietClosed(l[k].decls);
    }
    SectionsScoped([], l[..9]);
    assert [] + Decls(l[..9]) == Decls(l[..9]);
    forall k | 0 <= k < |l[9..]|
      ensures SectionClosed(Decls(l[..9]), l[9..][k].decls)
    {
      if k == 0 {
        RpkiSectionClosed(inp);
      } else {
        SectionClosedMore([], Decls(l[..9]), l[k + 9].decls);
      }
    }
    SectionsScoped(Decls(l[..9]), l[9..]);
  }

  lemma {:induction false} PrefixKinds(sets: seq<PrefixSet>)
    ensures forall d | d in PrefixDecls(sets) :: d.DefinePrefixes?
  {
    forall d | d in PrefixDecls(sets)
      ensures d.DefinePrefixes?
    {
      PrefixOrigin(sets, d);
    }
  }

  /** Declarations that refer to nothing. */
  ghost predicate Quiet(decls: seq<Decl>) {
    forall d | d in decls ::
      d.DefineNumber? || d.DefineCommunity? || d.DefinePrefixes? || d.DefineASNs? || d.RoaTable? || d.OtherProtocol?
  }

  lemma {:induction false} QuietClosed(decls: seq<Decl>)
    requires Quiet(decls)
    ensures SectionClosed([], decls)
  {
    forall i, u | 0 <= i < |decls|
      ensures !Refers(decls[i], u)
    {
      assert decls[i] in decls;
    }
  }

  lemma {:induction false} QuietTags(inp: Input)
    ensures Quiet(TagDecls(inp)) && Quiet(BogonDecls(inp)) && Quiet(RoaDecls(inp))
  {
  }

  lemma {:induction false} QuietProtocols(inp: Input)
    ensures Quiet(BaseDecls()) && Quiet(BfdDecls(inp.peers)) && Quiet(StaticDecls(inp))
  {
  }

  lemma {:induction false} QuietLists(inp: Input)
    ensures Quiet(CommunityDecls(inp.communities)) && Quiet(PrefixDecls(inp.prefixSets)) && Quiet(ASDecls(inp.asSets))
    ensures Quiet(NamedProtocols(inp.bmpStations)) && Quiet(OriginatorDecls(inp.prefixSets))
  {
    KindsOfCommunities(inp.communities);
    PrefixKinds(inp.prefixSets);
    KindsOfAS(inp.asSets);
    KindsOfProtocols(inp.bmpStations);
    KindsOfOriginators(inp.prefixSets);
  }

  lemma {:induction false} QuietConcat(a: seq<Decl>, b: seq<Decl>)
    requires Quiet(a) && Quiet(b)
    ensures Quiet(a + b)
  {
  }

  lemma {:induction false} QuietSection(inp: Input, k: nat)
    requires k < 12 && k != 9
    ensures Quiet(LibrarySections(inp)[k].decls)
  {
    QuietTags(inp);
    QuietProtocols(inp);
    QuietLists(inp);
    if k == 1 { QuietConcat(TagDecls(inp), CommunityDecls(inp.communities)); }
  }

  lemma {:induction false} RpkiSectionClosed(inp: Input)
    requires forall d | d in RpkiDecls(inp.rpkiServers) :: d.RpkiProtocol?
    ensures SectionClosed(Decls(LibrarySections(inp)[..9]), LibrarySections(inp)[9].decls)
  {
    var l := LibrarySections(inp);
    var cfg, decls := Decls(l[..9]), l[9].decls;
    forall i, u | 0 <= i < |decls| && Refers(decls[i], u)
      ensures Declared(cfg + decls[..i], u)
    {
      assert decls[i] in RpkiDecls(inp.rpkiServers);
      assert l[..9][5] == l[5] && l[5].decls == [RoaTable("rpki4"), RoaTable("rpki6")];
      SectionMember(l[..9], 5, RoaTable("rpki4"));
      SectionMember(l[..9], 5, RoaTable("rpki6"));
      MemberDeclared(cfg, RoaTable("rpki4"));
      MemberDeclared(cfg, RoaTable("rpki6"));
      DeclaredMore(cfg, decls[..i], u);
    }
  }

  lemma {:induction false} LibraryHas(inp: Input, k: nat, d: Decl)
    requires k < 12 && d in LibrarySections(inp)[k].decls
    ensures Declared(LibraryDecls(inp), Use(KindOf(d), d.name))
  {
    SectionMember(LibrarySections(inp), k, d);
    MemberDeclared(LibraryDecls(inp), d);
  }

  lemma {:induction false} LibraryDeclaresFixed(inp: Input)
    ensures DeclaresFixed(LibraryDecls(inp))
  {
    LibraryHas(inp, 0, DefineNumber("LOCAL_ASN", inp.localASN));
    forall role | role != IBGP
      ensures Declared(LibraryDecls(inp), Use(ACommunity, TagName(role)))
    {
      assert DefineCommunity(TagName(role), Tag(inp.localASN, role)) in TagDecls(inp);
      LibraryHas(inp, 1, DefineCommunity(TagName(role), Tag(inp.localASN, role)));
    }
    LibraryHas(inp, 1, TagDecls(inp)[3]);
    LibraryHas(inp, 4, BogonDecls(inp)[0]);
    LibraryHas(inp, 4, BogonDecls(inp)[1]);
  }

  lemma {:induction false} LibraryDeclaresSets(inp: Input)
    ensures DeclaresLibrary(LibraryDecls(inp), inp)
  {
    var cfg := LibraryDecls(inp);
    forall ps | ps in inp.prefixSets && Rendered(ps)
      ensures Declared(cfg, Use(PrefixesKind, ps.name))
    {
      PrefixMember(inp.prefixSets, ps);
      LibraryHas(inp, 2, DefinePrefixes(ps.name, Patterns(ps.entries)));
    }
    forall s | s in inp.asSets && s.entries != []
      ensures Declared(cfg, Use(ASNsKind, s.name))
    {
      ASMember(inp.asSets, s);
      LibraryHas(inp, 3, DefineASNs(s.name, s.entries));
    }
    forall ref, u | Resolve(inp.communities, ref).Some? && u in ExprUses(RefExpr(inp.communities, ref))
      ensures Declared(cfg, u)
    {
      CommunityMember(inp.communities, ref.name);
      LibraryHas(inp, 1, DefineCommunity(ref.name, CommunityByName(inp.communities, ref.name).value.value));
    }
    if inp.rpkiServers != [] {
      LibraryHas(inp, 5, RoaTable("rpki4"));
      LibraryHas(inp, 5, RoaTable("rpki6"));
    }
  }

  // ----- the model's side conditions

  /** Named communities exist, and chains hold policies of the model. */
  ghost predicate RefersToModel(inp: Input) {
    && (forall k | 0 <= k < |inp.policies| :: KnownMatch(inp, inp.policies[k]))
    && (forall k | 0 <= k < |inp.peers| :: PeerResolves(inp, inp.peers[k]))
  }

  ghost predicate PeerResolves(inp: Input, p: Peer<Policy>) {
    && KnownRefs(inp.communities, p.importCommunities) && KnownRefs(inp.communities, p.exportCommunities)
    && (forall k | 0 <= k < |p.importPolicies| :: p.importPolicies[k] in inp.policies)
    && (forall k | 0 <= k < |p.exportPolicies| :: p.exportPolicies[k] in inp.policies)
  }

  /** Wherever a function names a bogon set, that set is rendered. */
  ghost predicate BogonSetsOn(inp: Input) {
    forall k, fam | 0 <= k < |inp.policies| && UsesBogons(inp, inp.policies[k], fam) :: BogonSetOn(inp, fam)
  }

  lemma {:induction false} RpkiChecked(inp: Input, pols: seq<Policy>, k: nat)
    requires CheckRPKI(inp, pols) == None && k < |pols| && pols[k].rov != RovOff
    ensures inp.rpkiServers != []
  {
    if inp.rpkiServers == [] && k > 0 { RpkiChecked(inp, pols[1..], k - 1); }
  }

  lemma {:induction false} PolicySectionClosed(inp: Input, k: nat)
    requires RefersToModel(inp) && BogonSetsOn(inp) && CheckRPKI(inp, inp.policies) == None
    requires k < |inp.policies| && PolicySections(inp).Ok?
    ensures |PolicySections(inp).value| == |inp.policies|
    ensures SectionClosed(LibraryDecls(inp), PolicySections(inp).value[k].decls)
  {
    var pol, cfg := inp.policies[k], LibraryDecls(inp);
    CollectAt(inp.policies, PolicySection(inp), k);
    LibraryScoped(inp);
    if pol.rov != RovOff { RpkiChecked(inp, inp.policies, k); }
    var decls := PolicyDecls(inp, pol).value;
    FunctionClosed(cfg, inp, pol, V4);
    FunctionClosed(cfg, inp, pol, V6);
    forall i, u | 0 <= i < |decls| && Refers(decls[i], u)
      ensures Declared(cfg + decls[..i], u)
    {
      DeclaredMore(cfg, decls[..i], u);
    }
  }

  lemma {:induction false} FunctionClosed(cfg: Config, inp: Input, pol: Policy, fam: Family)
    requires DeclaresFixed(cfg) && DeclaresLibrary(cfg, inp) && PolicyResolves(inp, pol, fam) && PolicyBody(inp, pol, fam).Ok?
    ensures Closed(cfg, PolicyBody(inp, pol, fam).value)
  {
    if pol.isImport { ImportClosed(cfg, inp, pol, fam); } else { ExportClosed(cfg, inp, pol, fam); }
  }

  lemma {:induction false} PolicyDeclared(inp: Input, pol: Policy, fam: Family)
    requires pol in inp.policies && PolicySections(inp).Ok?
    ensures Declared(Decls(PolicySections(inp).value), Use(AFunction, PolicyFunc(pol, fam)))
  {
    PolicyMember(inp, pol, fam);
    MemberDeclared(Decls(PolicySections(inp).value), FunctionDecl(PolicyFunc(pol, fam), PolicyBody(inp, pol, fam).value));
  }

  lemma {:induction false} TemplateDeclared(inp: Input, templates: seq<Section>, name: string)
    requires var used := UsedTemplates(inp.templates, inp.peers);
      Collect(used, TemplateSection(inp)) == Ok(templates) && HasTemplate(used, name)
    ensures Declared(Decls(templates), Use(ATemplate, name))
  {
    var used := UsedTemplates(inp.templates, inp.peers);
    var k :| 0 <= k < |used| && used[k].name == name;
    CollectAt(used, TemplateSection(inp), k);
    SectionMember(templates, k, TemplateDecl(name, TemplateOptions(inp, used[k])));
    MemberDeclared(Decls(templates), TemplateDecl(name, TemplateOptions(inp, used[k])));
  }

  lemma {:induction false} PeerSectionClosed(cfg: Config, inp: Input, p: Peer<Policy>, inherits: bool)
    requires DeclaresFixed(cfg) && DeclaresLibrary(cfg, inp) && PeerResolves(inp, p)
    requires FunctionsDeclared(cfg, p.importPolicies, p.Fam()) && FunctionsDeclared(cfg, p.exportPolicies, p.Fam())
    requires inherits ==> Declared(cfg, Use(ATemplate, p.templateName))
    ensures SectionClosed(cfg, PeerDecls(inp, p, inherits))
  {
    var decls, filters := PeerDecls(inp, p, inherits), FilterDecls(inp, p);
    ImportFilterClosed(cfg, inp, p);
    ExportFilterClosed(cfg, inp, p);
    forall i, u | 0 <= i < |decls| && Refers(decls[i], u)
      ensures Declared(cfg + decls[..i], u)
    {
      if i < |filters| {
        assert decls[i] == filters[i];
        DeclaredMore(cfg, decls[..i], u);
      } else {
        assert decls[..i] == filters;
        ProtocolClosed(cfg, inp, p, inherits, u);
      }
    }
  }

  lemma {:induction false} ProtocolClosed(cfg: Config, inp: Input, p: Peer<Policy>, inherits: bool, u: Use)
    requires DeclaresFixed(cfg) && (inherits ==> Declared(cfg, Use(ATemplate, p.templateName)))
    requires Refers(BgpProtocol(p.name, if inherits then Some(p.templateName) else None, PeerOptions(inp, p, inherits),
                                ChannelOf(p)), u)
    ensures Declared(cfg + FilterDecls(inp, p), u)
  {
    var filters := FilterDecls(inp, p);
    if u.kind == AFilter {
      if u.name == ImportFilterName(p) && ChannelOf(p).imports.ImportFilter? {
        assert filters[0].name == u.name;
        MemberDeclared(filters, filters[0]);
      } else {
        assert filters[|filters| - 1].name == u.name;
        MemberDeclared(filters, filters[|filters| - 1]);
      }
      DeclaredMore(filters, cfg, u);
    } else {
      DeclaredMore(cfg, filters, u);
    }
  }

  lemma {:induction false} LaterStillDeclares(cfg: Config, more: Config, inp: Input)
    requires DeclaresFixed(cfg) && DeclaresLibrary(cfg, inp)
    ensures DeclaresFixed(cfg + more) && DeclaresLibrary(cfg + more, inp)
  {
    forall u | Declared(cfg, u)
      ensures Declared(cfg + more, u)
    {
      DeclaredMore(cfg, more, u);
    }
  }

  lemma {:induction false} PoliciesScoped(inp: Input, pols: seq<Section>)
    requires RefersToModel(inp) && BogonSetsOn(inp) && CheckRPKI(inp, inp.policies) == None
    requires PolicySections(inp) == Ok(pols)
    ensures WellScoped(LibraryDecls(inp) + Decls(pols))
  {
    LibraryScoped(inp);
    CollectLength(inp.policies, PolicySection(inp));
    forall k | 0 <= k < |pols|
      ensures SectionClosed(LibraryDecls(inp), pols[k].decls)
    {
      PolicySectionClosed(inp, k);
    }
    SectionsScoped(LibraryDecls(inp), pols);
  }

  lemma {:induction false} TemplatesScoped(inp: Input, cfg: Config, templates: seq<Section>)
    requires WellScoped(cfg) && DeclaresFixed(cfg)
    requires Collect(UsedTemplates(inp.templates, inp.peers), TemplateSection(inp)) == Ok(templates)
    ensures WellScoped(cfg + Decls(templates))
  {
    var used := UsedTemplates(inp.templates, inp.peers);
    CollectLength(used, TemplateSection(inp));
    forall k | 0 <= k < |templates|
      ensures SectionClosed(cfg, templates[k].decls)
    {
      CollectAt(used, TemplateSection(inp), k);
      TemplateSectionClosed(cfg, inp, used[k]);
    }
    SectionsScoped(cfg, templates);
  }

  lemma {:induction false} PeersScoped(inp: Input, pols: seq<Section>, templates: seq<Section>, peers: seq<Section>)
    requires RefersToModel(inp) && Grouped(inp, pols, templates, peers)
    requires WellScoped(LibraryDecls(inp) + Decls(pols) + Decls(templates))
    ensures WellScoped(LibraryDecls(inp) + Decls(pols) + Decls(templates) + Decls(peers))
  {
    var used := UsedTemplates(inp.templates, inp.peers);
    var cfg := LibraryDecls(inp) + Decls(pols) + Decls(templates);
    LibraryScoped(inp);
    LaterStillDeclares(LibraryDecls(inp), Decls(pols), inp);
    LaterStillDeclares(LibraryDecls(inp) + Decls(pols), Decls(templates), inp);
    CollectLength(inp.peers, PeerSection(inp, used));
    forall k | 0 <= k < |peers|
      ensures SectionClosed(cfg, peers[k].decls)
    {
      CollectAt(inp.peers, PeerSection(inp, used), k);
      PeerNamesDeclared(inp, pols, templates, inp.peers[k]);
      PeerSectionClosed(cfg, inp, inp.peers[k], HasTemplate(used, inp.peers[k].templateName));
    }
    SectionsScoped(cfg, peers);
  }

  /** Well scoped, when named communities exist, chains hold policies of the model and no bogon
      set a function names is switched off. */
  lemma {:induction false} RenderedIsWellScoped(inp: Input)
    requires Render(inp).Ok? && RefersToModel(inp) && BogonSetsOn(inp)
    ensures WellScoped(Decls(Render(inp).value)) && UniqueNames(Decls(Render(inp).value))
  {
    var pols, templates, peers := ConfigIs(inp);
    RenderedUnique(inp);
    PoliciesScoped(inp, pols);
    LibraryScoped(inp);
    LaterStillDeclares(LibraryDecls(inp), Decls(pols), inp);
    TemplatesScoped(inp, LibraryDecls(inp) + Decls(pols), templates);
    PeersScoped(inp, pols, templates, peers);
  }

  lemma {:induction false} TemplateSectionClosed(cfg: Config, inp: Input, t: Template<Policy>)
    requires DeclaresFixed(cfg)
    ensures SectionClosed(cfg, [TemplateDecl(t.name, TemplateOptions(inp, t))])
  {
    var decls := [TemplateDecl(t.name, TemplateOptions(inp, t))];
    forall i, u | 0 <= i < |decls| && Refers(decls[i], u)
      ensures Declared(cfg + decls[..i], u)
    {
      DeclaredMore(cfg, decls[..i], u);
    }
  }

  lemma {:induction false} PeerNamesDeclared(inp: Input, pols: seq<Section>, templates: seq<Section>, p: Peer<Policy>)
    requires PeerResolves(inp, p) && PolicySections(inp) == Ok(pols)
    requires Collect(UsedTemplates(inp.templates, inp.peers), TemplateSection(inp)) == Ok(templates)
    ensures var c := LibraryDecls(inp) + Decls(pols) + Decls(templates);
      && FunctionsDeclared(c, p.importPolicies, p.Fam()) && FunctionsDeclared(c, p.exportPolicies, p.Fam())
      && (HasTemplate(UsedTemplates(inp.templates, inp.peers), p.templateName) ==> Declared(c, Use(ATemplate, p.templateName)))
  {
    var a, b, t := LibraryDecls(inp), Decls(pols), Decls(templates);
    forall pol | pol in inp.policies
      ensures Declared(a + b + t, Use(AFunction, PolicyFunc(pol, p.Fam())))
    {
      PolicyDeclared(inp, pol, p.Fam());
      DeclaredMore(b, a, Use(AFunction, PolicyFunc(pol, p.Fam())));
      DeclaredMore(a + b, t, Use(AFunction, PolicyFunc(pol, p.Fam())));
    }
    if HasTemplate(UsedTemplates(inp.templates, inp.peers), p.templateName) {
      TemplateDeclared(inp, templates, p.templateName);
      DeclaredMore(t, a + b, Use(ATemplate, p.templateName));
    }
  }

  // ----- exactly when it fails

  lemma {:induction false} BodyNamesBogons(inp: Input, pol: Policy, fam: Family) returns (k: nat)
    requires UsesBogons(inp, pol, fam) && PolicyBody(inp, pol, fam).Ok?
    ensures k < |PolicyBody(inp, pol, fam).value|
    ensures Use(PrefixesKind, BogonSet(fam)) in StmtUses(PolicyBody(inp, pol, fam).value[k])
  {
    var s := If(NetIn(BogonSet(fam)), [Reject]);
    assert Use(PrefixesKind, BogonSet(fam)) in StmtUses(s);
    if pol.isImport {
      var early := EarlyChecks(inp, pol, fam);
      var before := DefaultPart(pol, fam) + LengthPart(pol, fam);
      assert early[|before|] == s;
      var hole := BlackholePart(inp.prefixSets, pol, fam);
      k := |hole| + |before|;
      assert ImportBody(inp, pol, fam).value[k] == early[|before|];
    } else {
      k := 0;
      assert ExportBody(inp, pol, fam).value[0] == s;
    }
  }

  /** The check for bogon sets looks at existence and emptiness, not at the off switch. A model
      that renders gives a well-scoped file exactly when no function names a bogon set that is
      switched off. */
  lemma {:induction false} ScopedExactlyWhenBogonSetsOn(inp: Input)
    requires Render(inp).Ok? && RefersToModel(inp)
    ensures WellScoped(Decls(Render(inp).value)) <==> BogonSetsOn(inp)
  {
    var cfg := Decls(Render(inp).value);
    if BogonSetsOn(inp) {
      RenderedIsWellScoped(inp);
    }
    if WellScoped(cfg) {
      forall k, fam | 0 <= k < |inp.policies| && UsesBogons(inp, inp.policies[k], fam)
        ensures BogonSetOn(inp, fam)
      {
        ScopedNeedsBogons(inp, inp.policies[k], fam);
      }
    }
  }

  lemma {:induction false} PolicyInConfig(inp: Input, pol: Policy, fam: Family)
    requires AllSections(inp).Ok? && pol in inp.policies
    ensures PolicyBody(inp, pol, fam).Ok?
    ensures FunctionDecl(PolicyFunc(pol, fam), PolicyBody(inp, pol, fam).value) in Decls(AllSections(inp).value)
  {
    var pols, templates, peers := ConfigIs(inp);
    PolicyMember(inp, pol, fam);
  }

  lemma {:induction false} RefersToBogons(inp: Input, pol: Policy, fam: Family, name: string)
    requires UsesBogons(inp, pol, fam) && PolicyBody(inp, pol, fam).Ok?
    ensures Refers(FunctionDecl(name, PolicyBody(inp, pol, fam).value), Use(PrefixesKind, BogonSet(fam)))
  {
    var k := BodyNamesBogons(inp, pol, fam);
  }

  lemma {:induction false} ScopedNeedsBogons(inp: Input, pol: Policy, fam: Family)
    requires AllSections(inp).Ok? && WellScoped(Decls(AllSections(inp).value))
    requires pol in inp.policies && UsesBogons(inp, pol, fam)
    ensures BogonSetOn(inp, fam)
  {
    var cfg := Decls(AllSections(inp).value);
    PolicyInConfig(inp, pol, fam);
    RefersToBogons(inp, pol, fam, PolicyFunc(pol, fam));
    var d := FunctionDecl(PolicyFunc(pol, fam), PolicyBody(inp, pol, fam).value);
    var i :| 0 <= i < |cfg| && cfg[i] == d;
    assert Declared(cfg[..i], Use(PrefixesKind, BogonSet(fam)));
    BogonSetDeclaredOnlyWhenOn(inp, cfg, i, fam);
  }

  lemma {:induction false} BogonSetDeclaredOnlyWhenOn(inp: Input, cfg: Config, i: nat, fam: Family)
    requires AllSections(inp).Ok? && cfg == Decls(AllSections(inp).value) && i <= |cfg|
    requires Declared(cfg[..i], Use(PrefixesKind, BogonSet(fam)))
    ensures BogonSetOn(inp, fam)
  {
    var j :| 0 <= j < i && KindOf(cfg[..i][j]) == PrefixesKind && cfg[..i][j].name == BogonSet(fam);
    PrefixesOnlyThere(inp, cfg[j]);
    PrefixOrigin(inp.prefixSets, cfg[j]);
  }
}
