/** The writers, in the form the renderer has them: each appends to a builder in loops, and the
    whole collects one section after the other until something fails.
    (internal/render/render.go) */
module Writers {
  import opened Options
  import opened Text
  import opened Bird
  import opened Model
  import opened Compile
  import opened ImportMeaning
  import opened ExportMeaning
  import opened Sections
  import opened Symbols
  import opened WellScopedOutput
  import opened RenderedRouter

  class Builder<T> {
    var items: seq<T>

    constructor ()
      ensures items == []
    {
      items := [];
    }

    method Write(x: T)
      modifies this
      ensures items == old(items) + [x]
    {
      items := items + [x];
    }

    method WriteIf(on: bool, x: T)
      modifies this
      ensures items == old(items) + if on then [x] else []
    {
      if on { items := items + [x]; } else { assert items + [] == items; }
    }
  }

  // ----- joining what was written

  lemma {:induction false} JoinTwo<T>(w: seq<T>, a: seq<T>, b: seq<T>)
    ensures w + a + b == w + (a + b)
  {
  }

  lemma {:induction false} JoinFour<T>(w: seq<T>, a: seq<T>, b: seq<T>, c: seq<T>, d: seq<T>)
    ensures w + a + b + c + d == w + (a + b + c + d)
  {
  }

  lemma {:induction false} JoinFive<T>(w: seq<T>, a: seq<T>, b: seq<T>, c: seq<T>, d: seq<T>, e: seq<T>)
    ensures w + a + b + c + d + e == w + (a + b + c + d + e)
  {
    JoinFour(w, a, b, c, d);
    JoinTwo(w, a + b + c + d, e);
  }

  // ----- the library by id

  /** A map from id to set, the later one winning. */
  function SetIndex(sets: seq<PrefixSet>): map<int, PrefixSet> {
    if sets == [] then map[] else SetIndex(sets[..|sets| - 1])[sets[|sets| - 1].id := sets[|sets| - 1]]
  }

  function ASSetIndex(sets: seq<ASSet>): map<int, ASSet> {
    if sets == [] then map[] else ASSetIndex(sets[..|sets| - 1])[sets[|sets| - 1].id := sets[|sets| - 1]]
  }

  lemma {:induction false} SetIndexIs(sets: seq<PrefixSet>, id: int)
    ensures SetByID(sets, id) == if id in SetIndex(sets) then Some(SetIndex(sets)[id]) else None
  {
    if sets != [] { SetIndexIs(sets[..|sets| - 1], id); }
  }

  lemma {:induction false} ASSetIndexIs(sets: seq<ASSet>, id: int)
    ensures ASSetByID(sets, id) == if id in ASSetIndex(sets) then Some(ASSetIndex(sets)[id]) else None
  {
    if sets != [] { ASSetIndexIs(sets[..|sets| - 1], id); }
  }

  method IndexSets(sets: seq<PrefixSet>) returns (m: map<int, PrefixSet>)
    ensures m == SetIndex(sets)
  {
    m := map[];
    for k := 0 to |sets|
      invariant m == SetIndex(sets[..k])
    {
      assert sets[..k + 1][..k] == sets[..k];
      m := m[sets[k].id := sets[k]];
    }
    assert sets[..|sets|] == sets;
  }

  method IndexASSets(sets: seq<ASSet>) returns (m: map<int, ASSet>)
    ensures m == ASSetIndex(sets)
  {
    m := map[];
    for k := 0 to |sets|
      invariant m == ASSetIndex(sets[..k])
    {
      assert sets[..k + 1][..k] == sets[..k];
      m := m[sets[k].id := sets[k]];
    }
    assert sets[..|sets|] == sets;
  }

  // ----- import bodies

  /** What an accept-only set decides at once: an error, or that nothing is permitted. */
  method WriteGate(b: Builder<Stmt>, sets: map<int, PrefixSet>, ghost all: seq<PrefixSet>, pol: Policy, fam: Family)
    returns (err: Option<Error>, shut: bool)
    requires sets == SetIndex(all)
    modifies b
    ensures match AllowListGate(all, pol, fam)
      case Err(e) => err == Some(e)
      case Ok(Some(body)) => err.None? && shut && b.items == old(b.items) + body
      case Ok(None) => err.None? && !shut && b.items == old(b.items)
  {
    if pol.acceptOnlySet.None? { return None, false; }
    var id := pol.acceptOnlySet.value;
    SetIndexIs(all, id);
    if id !in sets { return Some(SetNotFound(id)), false; }
    var ps := sets[id];
    if ps.disabled {
      b.Write(Do(Reject));
      return None, true;
    } else if |ps.entries| == 0 {
      return Some(SetEmpty(ps.name)), false;
    } else if ps.family != fam {
      b.Write(Do(Reject));
      return None, true;
    }
    return None, false;
  }

  method WriteBlackhole(b: Builder<Stmt>, sets: map<int, PrefixSet>, ghost all: seq<PrefixSet>, pol: Policy, fam: Family)
    requires sets == SetIndex(all)
    modifies b
    ensures b.items == old(b.items) + BlackholePart(all, pol, fam)
  {
    if !pol.acceptBlackhole {
      NothingMore(b.items);
      return;
    }
    var cond := And(Carries(Value(BLACKHOLE)), LenIs(fam.HostBits()));
    if pol.acceptOnlySet.Some? {
      SetIndexIs(all, pol.acceptOnlySet.value);
      if pol.acceptOnlySet.value in sets {
        var entries := sets[pol.acceptOnlySet.value].entries;
        var covers: seq<Pattern> := [];
        for k := 0 to |entries|
          invariant covers == CoverPatterns(entries)[..k]
        {
          covers := covers + [entries[k].(modifier := OrLonger).AsPattern()];
        }
        assert covers == CoverPatterns(entries);
        cond := And(cond, NetInside(covers));
      }
    }
    b.Write(If(cond, [DiscardTraffic, Accept]));
  }

  method WriteDefault(b: Builder<Stmt>, pol: Policy, fam: Family)
    modifies b
    ensures b.items == old(b.items) + DefaultPart(pol, fam)
  {
    match pol.defaultRoute {
      case RejectDefault => b.Write(If(NetIs(AnyRoute(fam)), [Reject]));
      case OnlyDefault => b.Write(If(Not(NetIs(AnyRoute(fam))), [Reject]));
      case AcceptDefault => NothingMore(b.items);
    }
  }

  method WriteLengths(b: Builder<Stmt>, pol: Policy, fam: Family)
    modifies b
    ensures b.items == old(b.items) + LengthPart(pol, fam)
  {
    var min, max := pol.minLenV4, pol.maxLenV4;
    if fam.V6? { min, max := pol.minLenV6, pol.maxLenV6; }
    var guardLen := pol.defaultRoute != OnlyDefault && (min > 0 || max > 0);
    if !guardLen {
      NothingMore(b.items);
      return;
    }
    var conds: seq<Cond> := [];
    if min > 0 { conds := conds + [LenBelow(min)]; }
    if max > 0 { conds := conds + [LenAbove(max)]; }
    var cond := if |conds| == 2 then Or(conds[0], conds[1]) else conds[0];
    if pol.defaultRoute == AcceptDefault { cond := And(Not(NetIs(AnyRoute(fam))), cond); }
    b.Write(If(cond, [Reject]));
  }

  method WriteMatch(b: Builder<Stmt>, defs: seq<CommunityDef>, pol: Policy, act: Action)
    modifies b
    ensures b.items == old(b.items) + MatchPart(defs, pol, act)
  {
    if pol.matchCommunity.Some? {
      b.Write(If(Carries(RefExpr(defs, pol.matchCommunity.value)), [act]));
    } else {
      NothingMore(b.items);
    }
  }

  method WriteAllowList(b: Builder<Stmt>, sets: map<int, PrefixSet>, ghost all: seq<PrefixSet>, pol: Policy)
    requires sets == SetIndex(all)
    modifies b
    ensures b.items == old(b.items) + AllowListPart(all, pol)
  {
    if pol.acceptOnlySet.Some? {
      SetIndexIs(all, pol.acceptOnlySet.value);
      if pol.acceptOnlySet.value in sets {
        b.Write(If(Not(NetIn(sets[pol.acceptOnlySet.value].name)), [Reject]));
        return;
      }
    }
    NothingMore(b.items);
  }

  method WriteOrigin(b: Builder<Stmt>, asSets: map<int, ASSet>, ghost all: seq<ASSet>, pol: Policy) returns (err: Option<Error>)
    requires asSets == ASSetIndex(all)
    modifies b
    ensures match OriginPart(all, pol)
      case Err(e) => err == Some(e)
      case Ok(part) => err.None? && b.items == old(b.items) + part
  {
    if pol.originASSet.None? {
      NothingMore(b.items);
      return None;
    }
    var id := pol.originASSet.value;
    ASSetIndexIs(all, id);
    if id !in asSets { return Some(ASSetNotFound(id)); }
    if |asSets[id].entries| == 0 { return Some(ASSetEmpty(asSets[id].name)); }
    b.Write(If(Not(OriginIn(asSets[id].name)), [Reject]));
    return None;
  }

  method WriteRov(b: Builder<Stmt>, pol: Policy, fam: Family)
    modifies b
    ensures b.items == old(b.items) + RovPart(pol, fam)
  {
    match pol.rov {
      case RovReject => b.Write(If(RoaInvalid(RoaTableOf(fam)), [Reject]));
      case RovLog => b.Write(If(RoaInvalid(RoaTableOf(fam)), [AddCommunity(Symbol("RPKI_INVALID", true))]));
      case RovOff => NothingMore(b.items);
    }
  }

  method WriteBogonASNs(b: Builder<Stmt>, pol: Policy)
    modifies b
    ensures b.items == old(b.items) + BogonASNPart(pol)
  {
    match pol.bogonASNs {
      case BogonsAll => b.Write(If(PathMeets("BOGON_ASNS"), [Reject]));
      case BogonsExceptPrivate => b.Write(If(PathMeets("BOGON_ASNS_EXCEPT_PRIVATE"), [Reject]));
      case BogonsOff => NothingMore(b.items);
    }
  }

  method WriteEarlyChecks(b: Builder<Stmt>, inp: Input, sets: map<int, PrefixSet>, pol: Policy, fam: Family)
    requires sets == SetIndex(inp.prefixSets)
    modifies b
    ensures b.items == old(b.items) + EarlyChecks(inp, pol, fam)
  {
    ghost var w := b.items;
    WriteDefault(b, pol, fam);
    WriteLengths(b, pol, fam);
    b.WriteIf(pol.rejectBogonPrefixes, If(NetIn(BogonSet(fam)), [Reject]));
    WriteMatch(b, inp.communities, pol, Reject);
    WriteAllowList(b, sets, inp.prefixSets, pol);
    JoinFive(w, DefaultPart(pol, fam), LengthPart(pol, fam), Veto(pol.rejectBogonPrefixes, NetIn(BogonSet(fam))),
             MatchPart(inp.communities, pol, Reject), AllowListPart(inp.prefixSets, pol));
  }

  method WriteLateChecks(b: Builder<Stmt>, inp: Input, pol: Policy)
    modifies b
    ensures b.items == old(b.items) + LateChecks(inp, pol)
  {
    ghost var w := b.items;
    b.WriteIf(pol.maxASPathLen > 0, If(PathAbove(pol.maxASPathLen), [Reject]));
    b.WriteIf(pol.rejectOwnASN, If(PathHas(inp.localASN), [Reject]));
    WriteBogonASNs(b, pol);
    b.WriteIf(pol.setLocalPref > 0, Do(SetLocalPref(pol.setLocalPref)));
    JoinFour(w, Veto(pol.maxASPathLen > 0, PathAbove(pol.maxASPathLen)), Veto(pol.rejectOwnASN, PathHas(inp.localASN)),
             BogonASNPart(pol), LocalPrefPart(pol));
  }

  /** Emits only rejects, an RFC 7999 discard aside. */
  method WriteImportBody(b: Builder<Stmt>, inp: Input, sets: map<int, PrefixSet>, asSets: map<int, ASSet>, pol: Policy, fam: Family)
    returns (err: Option<Error>)
    requires sets == SetIndex(inp.prefixSets) && asSets == ASSetIndex(inp.asSets)
    modifies b
    ensures match ImportBody(inp, pol, fam)
      case Err(e) => err == Some(e)
      case Ok(body) => err.None? && b.items == old(b.items) + body
  {
    ghost var w := b.items;
    var shut;
    err, shut := WriteGate(b, sets, inp.prefixSets, pol, fam);
    if err.Some? || shut { return; }
    WriteBlackhole(b, sets, inp.prefixSets, pol, fam);
    WriteEarlyChecks(b, inp, sets, pol, fam);
    err := WriteOrigin(b, asSets, inp.asSets, pol);
    if err.Some? { return; }
    WriteRov(b, pol, fam);
    WriteLateChecks(b, inp, pol);
    JoinFive(w, BlackholePart(inp.prefixSets, pol, fam), EarlyChecks(inp, pol, fam), OriginPart(inp.asSets, pol).value,
             RovPart(pol, fam), LateChecks(inp, pol));
  }

  // ----- export bodies

  method WriteSetAccepts(b: Builder<Stmt>, sets: map<int, PrefixSet>, ghost all: seq<PrefixSet>, ids: seq<int>, fam: Family)
    returns (err: Option<Error>)
    requires sets == SetIndex(all)
    modifies b
    ensures match SetAccepts(all, ids, fam)
      case Err(e) => err == Some(e)
      case Ok(part) => err.None? && b.items == old(b.items) + part
  {
    ghost var w := b.items;
    var k := 0;
    while k < |ids|
      invariant 0 <= k <= |ids|
      invariant SetAccepts(all, ids[..k], fam).Ok? && b.items == w + SetAccepts(all, ids[..k], fam).value
    {
      assert ids[..k + 1][..k] == ids[..k];
      SetIndexIs(all, ids[k]);
      if ids[k] !in sets {
        AcceptsStop(all, ids, k, fam);
        return Some(SetNotFound(ids[k]));
      }
      var ps := sets[ids[k]];
      ghost var part := SetAccepts(all, ids[..k], fam).value;
      var on := ps.family == fam && !ps.disabled && ps.entries != [];
      b.WriteIf(on, If(NetIn(ps.name), [Accept]));
      JoinTwo(w, part, Permit(on, NetIn(ps.name)));
      k := k + 1;
    }
    assert ids[..k] == ids;
    return None;
  }

  /** The first missing set decides. */
  lemma {:induction false} AcceptsStop(all: seq<PrefixSet>, ids: seq<int>, k: nat, fam: Family)
    requires k < |ids| && SetAccepts(all, ids[..k], fam).Ok? && SetByID(all, ids[k]).None?
    ensures SetAccepts(all, ids, fam) == Err(SetNotFound(ids[k]))
  {
    if k < |ids| - 1 {
      assert ids[..|ids| - 1][..k] == ids[..k];
      AcceptsStop(all, ids[..|ids| - 1], k, fam);
    } else {
      assert ids[..k] == ids[..|ids| - 1];
    }
  }

  method WriteSources(b: Builder<Stmt>, inp: Input, pol: Policy)
    modifies b
    ensures b.items == old(b.items) + SourceAccepts(inp, pol)
  {
    ghost var w := b.items;
    b.WriteIf(pol.announceFromUpstream, If(Carries(Symbol("FROM_UPSTREAM", true)), [Accept]));
    b.WriteIf(pol.announceFromIX, If(Carries(Symbol("FROM_IX", true)), [Accept]));
    b.WriteIf(pol.announceFromCustomer, If(Carries(Symbol("FROM_CUSTOMER", true)), [Accept]));
    WriteMatch(b, inp.communities, pol, Accept);
    JoinFour(w, Permit(pol.announceFromUpstream, Carries(Symbol("FROM_UPSTREAM", true))),
             Permit(pol.announceFromIX, Carries(Symbol("FROM_IX", true))),
             Permit(pol.announceFromCustomer, Carries(Symbol("FROM_CUSTOMER", true))), MatchPart(inp.communities, pol, Accept));
  }

  /** Emits only accepts, plus an optional bogon veto. */
  method WriteExportBody(b: Builder<Stmt>, inp: Input, sets: map<int, PrefixSet>, pol: Policy, fam: Family)
    returns (err: Option<Error>)
    requires sets == SetIndex(inp.prefixSets)
    modifies b
    ensures match ExportBody(inp, pol, fam)
      case Err(e) => err == Some(e)
      case Ok(body) => err.None? && b.items == old(b.items) + body
  {
    ghost var w := b.items;
    ghost var veto := Veto(pol.rejectBogonPrefixes, NetIn(BogonSet(fam)));
    b.WriteIf(pol.rejectBogonPrefixes, If(NetIn(BogonSet(fam)), [Reject]));
    if pol.announceEverything {
      b.Write(Do(Accept));
      JoinTwo(w, veto, [Do(Accept)]);
      return None;
    }
    b.WriteIf(pol.announceDefault, If(NetIs(AnyRoute(fam)), [Accept]));
    err := WriteSetAccepts(b, sets, inp.prefixSets, pol.setIDs, fam);
    if err.Some? { return; }
    WriteSources(b, inp, pol);
    JoinFour(w, veto, Permit(pol.announceDefault, NetIs(AnyRoute(fam))),
             SetAccepts(inp.prefixSets, pol.setIDs, fam).value, SourceAccepts(inp, pol));
  }

  // ----- filters

  method WriteRefs(b: Builder<Stmt>, defs: seq<CommunityDef>, refs: seq<CommunityRef>)
    modifies b
    ensures b.items == old(b.items) + AddRefs(defs, refs)
  {
    ghost var w := b.items;
    for k := 0 to |refs|
      invariant b.items == w + AddRefs(defs, refs)[..k]
    {
      b.Write(Do(AddCommunity(RefExpr(defs, refs[k]))));
    }
    assert AddRefs(defs, refs)[..|refs|] == AddRefs(defs, refs);
  }

  method WriteCalls(b: Builder<Stmt>, chain: seq<Policy>, fam: Family)
    modifies b
    ensures b.items == old(b.items) + Calls(chain, fam)
  {
    ghost var w := b.items;
    for k := 0 to |chain|
      invariant b.items == w + Calls(chain, fam)[..k]
    {
      b.Write(Call(PolicyFunc(chain[k], fam)));
    }
    assert Calls(chain, fam)[..|chain|] == Calls(chain, fam);
  }

  method WritePeerImportFilter(b: Builder<Stmt>, inp: Input, p: Peer<Policy>)
    modifies b
    ensures b.items == old(b.items) + ImportFilterBody(inp, p)
  {
    ghost var w := b.items;
    WriteImportPrologue(b, inp, p);
    WriteCalls(b, p.importPolicies, p.Fam());
    b.WriteIf(p.drained, Do(SetLocalPref(0)));
    b.Write(Do(Accept));
    JoinFour(w, ImportPrologue(inp, p), Calls(p.importPolicies, p.Fam()), if p.drained then [Do(SetLocalPref(0))] else [],
             [Do(Accept)]);
    JoinTwo(ImportPrologue(inp, p) + Calls(p.importPolicies, p.Fam()), if p.drained then [Do(SetLocalPref(0))] else [], [Do(Accept)]);
  }

  method WriteImportPrologue(b: Builder<Stmt>, inp: Input, p: Peer<Policy>)
    modifies b
    ensures b.items == old(b.items) + ImportPrologue(inp, p)
  {
    ghost var w := b.items;
    b.WriteIf(p.enforceFirstAS, If(Not(FirstIs(p.remoteASN)), [Reject]));
    b.WriteIf(p.originPeerOnly, If(Not(OriginIs(p.remoteASN)), [Reject]));
    b.WriteIf(!p.IsIBGP(), Do(DeleteLargeOf(inp.localASN)));
    WriteRefs(b, inp.communities, p.importCommunities);
    if p.role != IBGP { b.Write(Do(AddCommunity(Symbol(TagName(p.role), true)))); } else { NothingMore(b.items); }
    JoinFive(w, Veto(p.enforceFirstAS, Not(FirstIs(p.remoteASN))), Veto(p.originPeerOnly, Not(OriginIs(p.remoteASN))),
             if p.IsIBGP() then [] else [Do(DeleteLargeOf(inp.localASN))], AddRefs(inp.communities, p.importCommunities),
             if p.role == IBGP then [] else [Do(AddCommunity(Symbol(TagName(p.role), true)))]);
  }

  method WritePeerExportFilter(b: Builder<Stmt>, inp: Input, p: Peer<Policy>)
    modifies b
    ensures b.items == old(b.items) + ExportFilterBody(inp, p)
  {
    ghost var w := b.items;
    ghost var drain := if p.drained then [Do(AddCommunity(Value(GRACEFUL_SHUTDOWN)))] else [];
    b.WriteIf(p.drained, Do(AddCommunity(Value(GRACEFUL_SHUTDOWN))));
    for k := 0 to p.prependCount
      invariant b.items == w + drain + Repeat(Do(PrependOwn), p.prependCount)[..k]
    {
      b.Write(Do(PrependOwn));
    }
    assert Repeat(Do(PrependOwn), p.prependCount)[..p.prependCount] == Repeat(Do(PrependOwn), p.prependCount);
    WriteRefs(b, inp.communities, p.exportCommunities);
    WriteCalls(b, p.exportPolicies, p.Fam());
    b.Write(Do(Reject));
    JoinFive(w, drain, Repeat(Do(PrependOwn), p.prependCount), AddRefs(inp.communities, p.exportCommunities),
             Calls(p.exportPolicies, p.Fam()), [Do(Reject)]);
  }

  // ----- session options and protocol blocks

  method WriteSessionOptions<P>(b: Builder<SessionOption>, t: Template<P>)
    modifies b
    ensures b.items == old(b.items) + SessionOptions(t)
  {
    ghost var w := b.items;
    b.WriteIf(t.bgpRole && !t.IsIBGP(), LocalRole(RoleName(t.role)));
    b.WriteIf(t.multihop > 0, Multihop(t.multihop));
    b.WriteIf(t.gtsm, TtlSecurity);
    b.WriteIf(t.passive, Passive);
    b.WriteIf(t.bfd, Bfd(t.bfdInterval, t.bfdMultiplier));
    ghost var five := (if t.bgpRole && !t.IsIBGP() then [LocalRole(RoleName(t.role))] else [])
      + (if t.multihop > 0 then [Multihop(t.multihop)] else []) + (if t.gtsm then [TtlSecurity] else [])
      + (if t.passive then [Passive] else []) + (if t.bfd then [Bfd(t.bfdInterval, t.bfdMultiplier)] else []);
    JoinFive(w, if t.bgpRole && !t.IsIBGP() then [LocalRole(RoleName(t.role))] else [],
             if t.multihop > 0 then [Multihop(t.multihop)] else [], if t.gtsm then [TtlSecurity] else [],
             if t.passive then [Passive] else [], if t.bfd then [Bfd(t.bfdInterval, t.bfdMultiplier)] else []);
    match t.gracefulRestart {
      case GROn =>
        b.Write(GracefulRestart(true));
        JoinTwo(w, five, [GracefulRestart(true)]);
      case GROff =>
        b.Write(GracefulRestart(false));
        JoinTwo(w, five, [GracefulRestart(false)]);
      case GRAware => assert five + [] == five;
    }
  }

  method WriteReflectorOptions<P>(b: Builder<SessionOption>, inp: Input, t: Template<P>)
    modifies b
    ensures b.items == old(b.items) + ReflectorOptions(inp, t)
  {
    ghost var w := b.items;
    if t.IsIBGP() && t.rrClient {
      b.Write(RrClient);
      b.WriteIf(inp.rrClusterID != "", RrClusterId(inp.rrClusterID));
      JoinTwo(w, [RrClient], if inp.rrClusterID != "" then [RrClusterId(inp.rrClusterID)] else []);
    } else {
      NothingMore(b.items);
    }
  }

  method WriteTemplate(out: Builder<Decl>, inp: Input, t: Template<Policy>)
    modifies out
    ensures out.items == old(out.items) + [TemplateDecl(t.name, TemplateOptions(inp, t))]
  {
    var b := new Builder<SessionOption>();
    b.Write(LocalAs(""));
    WriteSessionOptions(b, t);
    WriteReflectorOptions(b, inp, t);
    Starts([LocalAs("")], SessionOptions(t), ReflectorOptions(inp, t));
    out.Write(TemplateDecl(t.name, b.items));
  }

  lemma {:induction false} Starts<T>(a: seq<T>, b: seq<T>, c: seq<T>)
    ensures [] + a == a && [] + a + b + c == a + b + c
  {
  }

  function IdentityOptions(p: Peer<Policy>, inherits: bool): seq<SessionOption> {
    (if !p.enabled then [Disabled] else [])
    + (if p.localIP != "" then [LocalAs(p.localIP)] else if !inherits then [LocalAs("")] else [])
    + [Neighbor(p.neighborIP, p.remoteASN)] + (if p.iface != "" then [Interface(p.iface)] else [])
  }

  /** The lines of a protocol block that are the peer's own. */
  method WriteIdentity(b: Builder<SessionOption>, p: Peer<Policy>, inherits: bool)
    requires b.items == []
    modifies b
    ensures b.items == IdentityOptions(p, inherits)
  {
    b.WriteIf(!p.enabled, Disabled);
    b.WriteIf(p.localIP != "" || !inherits, LocalAs(p.localIP));
    b.Write(Neighbor(p.neighborIP, p.remoteASN));
    b.WriteIf(p.iface != "", Interface(p.iface));
  }

  lemma {:induction false} PeerOptionsSplit(inp: Input, p: Peer<Policy>, inherits: bool)
    ensures PeerOptions(inp, p, inherits) ==
            IdentityOptions(p, inherits) + (if inherits then [] else SessionOptions(TemplateFromPeer(p)))
            + (if p.password != "" then [Password(p.password)] else [])
            + (if inherits then [] else ReflectorOptions(inp, TemplateFromPeer(p)))
  {
  }

  method WritePeerOptions(inp: Input, p: Peer<Policy>, inherits: bool) returns (options: seq<SessionOption>)
    ensures options == PeerOptions(inp, p, inherits)
  {
    var b := new Builder<SessionOption>();
    WriteIdentity(b, p, inherits);
    if !inherits { WriteSessionOptions(b, TemplateFromPeer(p)); } else { NothingMore(b.items); }
    b.WriteIf(p.password != "", Password(p.password));
    if !inherits { WriteReflectorOptions(b, inp, TemplateFromPeer(p)); } else { NothingMore(b.items); }
    PeerOptionsSplit(inp, p, inherits);
    return b.items;
  }

  lemma {:induction false} NothingMore<T>(a: seq<T>)
    ensures a + [] == a && [] + a == a
  {
  }

  method ImportFilterText(inp: Input, p: Peer<Policy>) returns (body: seq<Stmt>)
    ensures body == ImportFilterBody(inp, p)
  {
    var b := new Builder<Stmt>();
    WritePeerImportFilter(b, inp, p);
    NothingMore(ImportFilterBody(inp, p));
    return b.items;
  }

  method ExportFilterText(inp: Input, p: Peer<Policy>) returns (body: seq<Stmt>)
    ensures body == ExportFilterBody(inp, p)
  {
    var b := new Builder<Stmt>();
    WritePeerExportFilter(b, inp, p);
    NothingMore(ExportFilterBody(inp, p));
    return b.items;
  }

  /** An external peer always has an import filter; an internal one only with a chain. */
  method WriteFilters(out: Builder<Decl>, inp: Input, p: Peer<Policy>)
    modifies out
    ensures out.items == old(out.items) + FilterDecls(inp, p)
  {
    ghost var w := out.items;
    var imports := ImportFilterText(inp, p);
    var exports := ExportFilterText(inp, p);
    out.WriteIf(!p.IsIBGP() || p.importPolicies != [], FilterDecl(ImportFilterName(p), imports));
    out.WriteIf(p.exportPolicies != [], FilterDecl(ExportFilterName(p), exports));
    JoinTwo(w, if !p.IsIBGP() || p.importPolicies != [] then [FilterDecl(ImportFilterName(p), imports)] else [],
            if p.exportPolicies != [] then [FilterDecl(ExportFilterName(p), exports)] else []);
  }

  /** The filters a peer needs, then its protocol block. */
  method WritePeer(out: Builder<Decl>, inp: Input, p: Peer<Policy>, inherits: bool)
    modifies out
    ensures out.items == old(out.items) + PeerDecls(inp, p, inherits)
  {
    ghost var w := out.items;
    WriteFilters(out, inp, p);
    var hasImport, hasExport := |p.importPolicies| > 0, |p.exportPolicies| > 0;
    var options := WritePeerOptions(inp, p, inherits);
    var imports := if p.IsIBGP() && !hasImport then ImportAll else ImportFilter(ImportFilterName(p));
    var exports :=
      if hasExport then ExportFilter(ExportFilterName(p))
      else if p.IsIBGP() && p.ibgpExportDefault == AnnounceAll then ExportAll
      else ExportNone;
    var channel := Channel(p.Fam(), imports, exports, p.IsIBGP() && p.nextHopSelf, p.importLimit,
                           if p.importLimit > 0 then LimitName(p.importLimitAction) else "");
    var block := BgpProtocol(p.name, if inherits then Some(p.templateName) else None, options, channel);
    out.Write(block);
    JoinTwo(w, FilterDecls(inp, p), [block]);
  }

  // ----- the library's sections

  method WriteCommunities(b: Builder<Decl>, inp: Input)
    modifies b
    ensures b.items == old(b.items) + (TagDecls(inp) + CommunityDecls(inp.communities))
  {
    ghost var w := b.items;
    b.Write(DefineCommunity("FROM_UPSTREAM", Large(inp.localASN, 1, TAG_UPSTREAM)));
    b.Write(DefineCommunity("FROM_IX", Large(inp.localASN, 1, TAG_IX)));
    b.Write(DefineCommunity("FROM_CUSTOMER", Large(inp.localASN, 1, TAG_CUSTOMER)));
    b.Write(DefineCommunity("RPKI_INVALID", Large(inp.localASN, 2, 1)));
    assert b.items == w + TagDecls(inp);
    WriteDefs(b, inp.communities);
    JoinTwo(w, TagDecls(inp), CommunityDecls(inp.communities));
  }

  method WriteDefs(b: Builder<Decl>, defs: seq<CommunityDef>)
    modifies b
    ensures b.items == old(b.items) + CommunityDecls(defs)
  {
    ghost var w := b.items;
    NothingMore(w);
    for k := 0 to |defs|
      invariant b.items == w + CommunityDecls(defs[..k])
    {
      assert defs[..k + 1][..k] == defs[..k];
      b.Write(DefineCommunity(defs[k].name, defs[k].value));
      JoinTwo(w, CommunityDecls(defs[..k]), [DefineCommunity(defs[k].name, defs[k].value)]);
    }
    assert defs[..|defs|] == defs;
  }

  /** Disabled and empty sets are left out. */
  method WriteSets(b: Builder<Decl>, sets: seq<PrefixSet>)
    modifies b
    ensures b.items == old(b.items) + PrefixDecls(sets)
  {
    ghost var w := b.items;
    NothingMore(w);
    for k := 0 to |sets|
      invariant b.items == w + PrefixDecls(sets[..k])
    {
      assert sets[..k + 1][..k] == sets[..k];
      var ps := sets[k];
      var decl := DefinePrefixes(ps.name, Patterns(ps.entries));
      b.WriteIf(Rendered(ps), decl);
      JoinTwo(w, PrefixDecls(sets[..k]), if Rendered(ps) then [decl] else []);
    }
    assert sets[..|sets|] == sets;
  }

  method WriteASSets(b: Builder<Decl>, sets: seq<ASSet>)
    modifies b
    ensures b.items == old(b.items) + ASDecls(sets)
  {
    ghost var w := b.items;
    NothingMore(w);
    for k := 0 to |sets|
      invariant b.items == w + ASDecls(sets[..k])
    {
      assert sets[..k + 1][..k] == sets[..k];
      var decl := DefineASNs(sets[k].name, sets[k].entries);
      b.WriteIf(sets[k].entries != [], decl);
      JoinTwo(w, ASDecls(sets[..k]), if sets[k].entries != [] then [decl] else []);
    }
    assert sets[..|sets|] == sets;
  }

  /** Two lists from one: all ranges, and those not marked private. */
  method WriteBogonASNDefines(b: Builder<Decl>, inp: Input)
    modifies b
    ensures b.items == old(b.items) + BogonDecls(inp)
  {
    ghost var w := b.items;
    var list := Bogons(inp);
    var all := CollectRanges(list, false);
    var notPrivate := CollectRanges(list, true);
    b.Write(DefineASNs("BOGON_ASNS", all));
    b.Write(DefineASNs("BOGON_ASNS_EXCEPT_PRIVATE", notPrivate));
    assert b.items == w + BogonDecls(inp);
  }

  method CollectRanges(list: seq<BogonASN>, exceptPrivate: bool) returns (ranges: seq<Range>)
    ensures ranges == BogonRanges(list, exceptPrivate)
  {
    ranges := [];
    for k := 0 to |list|
      invariant ranges + BogonRanges(list[k..], exceptPrivate) == BogonRanges(list, exceptPrivate)
    {
      assert list[k..][1..] == list[k + 1..];
      if !(exceptPrivate && list[k].isPrivate) { ranges := ranges + [list[k].range]; }
    }
    assert list[|list|..] == [];
  }

  method WriteOriginators(b: Builder<Decl>, sets: seq<PrefixSet>)
    modifies b
    ensures b.items == old(b.items) + OriginatorDecls(sets)
  {
    ghost var w := b.items;
    NothingMore(w);
    for k := 0 to |sets|
      invariant b.items == w + OriginatorDecls(sets[..k])
    {
      assert sets[..k + 1][..k] == sets[..k];
      var ps := sets[k];
      b.WriteIf(Rendered(ps) && ps.originate, OtherProtocol(OriginatorName(ps)));
      JoinTwo(w, OriginatorDecls(sets[..k]), if Rendered(ps) && ps.originate then [OtherProtocol(OriginatorName(ps))] else []);
    }
    assert sets[..|sets|] == sets;
  }

  method WriteNamed(b: Builder<Decl>, names: seq<string>, rpki: bool)
    modifies b
    ensures b.items == old(b.items) + if rpki then RpkiDecls(names) else NamedProtocols(names)
  {
    ghost var w := b.items;
    NothingMore(w);
    for k := 0 to |names|
      invariant b.items == w + if rpki then RpkiDecls(names[..k]) else NamedProtocols(names[..k])
    {
      assert names[..k + 1][..k] == names[..k];
      b.Write(if rpki then RpkiProtocol(names[k]) else OtherProtocol(names[k]));
      JoinTwo(w, if rpki then RpkiDecls(names[..k]) else NamedProtocols(names[..k]),
              [if rpki then RpkiProtocol(names[k]) else OtherProtocol(names[k])]);
    }
    assert names[..|names|] == names;
  }

  // ----- the checks before rendering

  method CheckBogons(sets: seq<PrefixSet>, pols: seq<Policy>) returns (err: Option<Error>)
    ensures err == CheckBogonSets(sets, pols)
  {
    var needed := false;
    for k := 0 to |pols|
      invariant needed <==> exists j | 0 <= j < k :: pols[j].rejectBogonPrefixes
    {
      if pols[k].rejectBogonPrefixes { needed := true; }
    }
    if !needed { return None; }
    err := CheckOneBogonSet(sets, BogonSet(V4));
    if err.None? { err := CheckOneBogonSet(sets, BogonSet(V6)); }
  }

  method CheckOneBogonSet(sets: seq<PrefixSet>, name: string) returns (err: Option<Error>)
    ensures err == CheckBogonSet(sets, name, false)
  {
    var found := false;
    for k := 0 to |sets|
      invariant CheckBogonSet(sets, name, false) == CheckBogonSet(sets[k..], name, found)
    {
      assert sets[k..][0] == sets[k] && sets[k..][1..] == sets[k + 1..];
      if sets[k].name == name {
        if |sets[k].entries| == 0 { return Some(BogonSetEmpty(name)); }
        found := true;
      }
    }
    assert sets[|sets|..] == [];
    return if found then None else Some(BogonSetMissing(name));
  }

  method CheckServers(inp: Input) returns (err: Option<Error>)
    ensures err == CheckRPKI(inp, inp.policies)
  {
    if |inp.rpkiServers| > 0 { return None; }
    for k := 0 to |inp.policies|
      invariant CheckRPKI(inp, inp.policies) == CheckRPKI(inp, inp.policies[k..])
    {
      assert inp.policies[k..][0] == inp.policies[k] && inp.policies[k..][1..] == inp.policies[k + 1..];
      if inp.policies[k].rov != RovOff { return Some(NoRtrServer(inp.policies[k].name)); }
    }
    assert inp.policies[|inp.policies|..] == [];
    return None;
  }

  /** Some peer is linked to a template of this name. */
  ghost predicate IsNamed(peers: seq<Peer<Policy>>, name: string) {
    name != "" && exists p | p in peers :: p.templateName == name
  }

  /** The templates some peer is linked to, each where it was in the order. */
  ghost predicate AreNamed(templates: seq<Template<Policy>>, peers: seq<Peer<Policy>>, at: seq<nat>, used: seq<Template<Policy>>) {
    && Ascending(at) && |at| == |used|
    && (forall i | 0 <= i < |templates| :: i in at <==> IsNamed(peers, templates[i].name))
    && forall k | 0 <= k < |at| :: at[k] < |templates| && used[k] == templates[at[k]]
  }

  lemma {:induction false} OneMoreNamed(templates: seq<Template<Policy>>, peers: seq<Peer<Policy>>, t: Template<Policy>,
                                        at: seq<nat>, used: seq<Template<Policy>>)
    requires AreNamed(templates, peers, at, used)
    ensures if IsNamed(peers, t.name) then AreNamed(templates + [t], peers, at + [|templates|], used + [t])
            else AreNamed(templates + [t], peers, at, used)
  {
    var more: seq<nat> := at + [|templates|];
    assert more[|at|] == |templates| && |templates| !in at;
    assert forall i | 0 <= i < |templates| :: (i in more <==> i in at) && (templates + [t])[i] == templates[i];
  }

  lemma {:induction false} NamedInOrder(peers: seq<Peer<Policy>>, name: string)
    ensures Names(peers, name) <==> IsNamed(peers, name)
  {
    if IsNamed(peers, name) {
      var p :| p in peers && p.templateName == name;
      var k :| 0 <= k < |peers| && peers[k] == p;
      assert peers[k].templateName == name;
    }
  }

  lemma {:induction false} UsedSnoc(templates: seq<Template<Policy>>, peers: seq<Peer<Policy>>, t: Template<Policy>)
    ensures UsedTemplates(templates + [t], peers) ==
            if IsNamed(peers, t.name) then UsedTemplates(templates, peers) + [t] else UsedTemplates(templates, peers)
  {
    assert (templates + [t])[..|templates|] == templates;
    NamedInOrder(peers, t.name);
  }

  lemma {:induction false} UsedAreNamed(templates: seq<Template<Policy>>, peers: seq<Peer<Policy>>)
    ensures exists at: seq<nat> :: AreNamed(templates, peers, at, UsedTemplates(templates, peers))
  {
    if templates == [] {
      var none: seq<nat> := [];
      assert AreNamed(templates, peers, none, UsedTemplates(templates, peers));
    } else {
      var n := |templates| - 1;
      var before, t := templates[..n], templates[n];
      assert templates == before + [t];
      UsedAreNamed(before, peers);
      var at: seq<nat> :| AreNamed(before, peers, at, UsedTemplates(before, peers));
      OneMoreNamed(before, peers, t, at, UsedTemplates(before, peers));
      UsedSnoc(before, peers, t);
    }
  }

  /** The templates at least one peer names, found through a set of the names in use. */
  method FindUsed(templates: seq<Template<Policy>>, peers: seq<Peer<Policy>>) returns (out: seq<Template<Policy>>)
    ensures out == UsedTemplates(templates, peers)
    ensures exists at: seq<nat> :: AreNamed(templates, peers, at, out)
  {
    UsedAreNamed(templates, peers);
    var used: set<string> := {};
    for k := 0 to |peers|
      invariant forall n :: n in used <==> n != "" && exists j | 0 <= j < k :: peers[j].templateName == n
    {
      if peers[k].templateName != "" { used := used + {peers[k].templateName}; }
    }
    out := [];
    for k := 0 to |templates|
      invariant out == UsedTemplates(templates[..k], peers)
    {
      assert templates[..k + 1][..k] == templates[..k];
      assert templates[k].name in used <==> Names(peers, templates[k].name);
      if templates[k].name in used { out := out + [templates[k]]; }
    }
    assert templates[..|templates|] == templates;
  }

  // ----- the whole

  /** Collects sections, leaving out the empty ones. */
  class Collector {
    var secs: seq<Section>

    constructor ()
      ensures secs == []
    {
      secs := [];
    }

    method Add(path: string, decls: seq<Decl>)
      modifies this
      ensures secs == old(secs) + DropEmpty([Section(path, decls)])
    {
      DropOne(Section(path, decls));
      if |decls| > 0 { secs := secs + [Section(path, decls)]; } else { NothingMore(secs); }
    }

    /** Adds one more section after those of a list. */
    method AddAfter(ghost before: seq<Section>, ghost done: seq<Section>, sec: Section)
      requires secs == before + DropEmpty(done)
      modifies this
      ensures secs == before + DropEmpty(done + [sec])
    {
      Add(sec.path, sec.decls);
      DropConcat(done, [sec]);
      JoinTwo(before, DropEmpty(done), DropEmpty([sec]));
    }
  }

  lemma {:induction false} DropOne(sec: Section)
    ensures DropEmpty([sec]) == if sec.decls == [] then [] else [sec]
  {
    assert [sec][..0] == [];
  }

  lemma {:induction false} DropConcat(a: seq<Section>, b: seq<Section>)
    ensures DropEmpty(a + b) == DropEmpty(a) + DropEmpty(b)
    decreases |b|
  {
    if b == [] {
      NothingMore(a);
      NothingMore(DropEmpty(a));
    } else {
      var n := |b| - 1;
      assert (a + b)[..|a + b| - 1] == a + b[..n];
      DropConcat(a, b[..n]);
    }
  }

  method WritePolicy(inp: Input, sets: map<int, PrefixSet>, asSets: map<int, ASSet>, pol: Policy) returns (r: Result<seq<Decl>>)
    requires sets == SetIndex(inp.prefixSets) && asSets == ASSetIndex(inp.asSets)
    ensures r == PolicyDecls(inp, pol)
  {
    var v4 := WritePolicyBody(inp, sets, asSets, pol, V4);
    if v4.Err? { return Err(v4.error); }
    var v6 := WritePolicyBody(inp, sets, asSets, pol, V6);
    if v6.Err? { return Err(v6.error); }
    return Ok([FunctionDecl(PolicyFunc(pol, V4), v4.value), FunctionDecl(PolicyFunc(pol, V6), v6.value)]);
  }

  lemma {:induction false} BodyDecides(inp: Input, pol: Policy, fam: Family)
    ensures PolicyBody(inp, pol, fam).Ok? && KnownMatch(inp, pol) ==>
      var body := PolicyBody(inp, pol, fam).value;
      if pol.isImport then DecidesImport(inp, pol, fam, body) else DecidesExport(inp, pol, fam, body)
  {
    if PolicyBody(inp, pol, fam).Ok? && KnownMatch(inp, pol) {
      if pol.isImport {
        ImportBodyDecides(inp, pol, fam);
      } else {
        ExportBodyDecides(inp, pol, fam);
      }
    }
  }

  /** The statements of one policy for one family, with what they decide. */
  method WritePolicyBody(inp: Input, sets: map<int, PrefixSet>, asSets: map<int, ASSet>, pol: Policy, fam: Family)
    returns (r: Result<seq<Stmt>>)
    requires sets == SetIndex(inp.prefixSets) && asSets == ASSetIndex(inp.asSets)
    ensures r == PolicyBody(inp, pol, fam)
    ensures r.Ok? && KnownMatch(inp, pol) ==>
      if pol.isImport then DecidesImport(inp, pol, fam, r.value) else DecidesExport(inp, pol, fam, r.value)
  {
    BodyDecides(inp, pol, fam);
    var b := new Builder<Stmt>();
    var err;
    if pol.isImport {
      err := WriteImportBody(b, inp, sets, asSets, pol, fam);
    } else {
      err := WriteExportBody(b, inp, sets, pol, fam);
    }
    if err.Some? { return Err(err.value); }
    NothingMore(PolicyBody(inp, pol, fam).value);
    return Ok(b.items);
  }

  lemma {:induction false} CollectNext<T>(items: seq<T>, render: T -> Result<Section>, k: nat, done: seq<Section>, sec: Section)
    requires k < |items| && Collect(items[..k], render) == Ok(done) && render(items[k]) == Ok(sec)
    ensures Collect(items[..k + 1], render) == Ok(done + [sec])
  {
    assert items[..k + 1][..k] == items[..k];
  }

  method AddPolicies(c: Collector, inp: Input, sets: map<int, PrefixSet>, asSets: map<int, ASSet>) returns (err: Option<Error>)
    requires sets == SetIndex(inp.prefixSets) && asSets == ASSetIndex(inp.asSets)
    modifies c
    ensures match PolicySections(inp)
      case Err(e) => err == Some(e)
      case Ok(secs) => err.None? && c.secs == old(c.secs) + DropEmpty(secs)
  {
    ghost var w, done: seq<Section> := c.secs, [];
    NothingMore(w);
    var k := 0;
    while k < |inp.policies|
      invariant 0 <= k <= |inp.policies|
      invariant Collect(inp.policies[..k], PolicySection(inp)) == Ok(done) && c.secs == w + DropEmpty(done)
    {
      var r := PolicyText(inp, sets, asSets, inp.policies[k]);
      if r.Err? {
        CollectStops(inp.policies, PolicySection(inp), k);
        return Some(r.error);
      }
      CollectNext(inp.policies, PolicySection(inp), k, done, r.value);
      c.AddAfter(w, done, r.value);
      done := done + [r.value];
      k := k + 1;
    }
    assert inp.policies[..k] == inp.policies;
    return None;
  }

  method PolicyText(inp: Input, sets: map<int, PrefixSet>, asSets: map<int, ASSet>, pol: Policy) returns (r: Result<Section>)
    requires sets == SetIndex(inp.prefixSets) && asSets == ASSetIndex(inp.asSets)
    ensures r == PolicySection(inp)(pol)
  {
    var decls := WritePolicy(inp, sets, asSets, pol);
    return if decls.Err? then Err(decls.error) else Ok(Section("policies/" + pol.name, decls.value));
  }

  /** The first failure stops the collection. */
  lemma {:induction false} CollectStops<T>(items: seq<T>, render: T -> Result<Section>, k: nat)
    requires k < |items| && Collect(items[..k], render).Ok? && render(items[k]).Err?
    ensures Collect(items, render) == Err(render(items[k]).error)
  {
    var n := |items| - 1;
    if k < n {
      assert items[..n][..k] == items[..k];
      CollectStops(items[..n], render, k);
    } else {
      assert items[..k] == items[..n];
    }
  }

  /** Adds sections that cannot fail, one per item. */
  method AddEach<T>(c: Collector, ghost items: seq<T>, ghost render: T -> Result<Section>, secs: seq<Section>)
    requires |secs| == |items| && Texts(items, render, secs)
    modifies c
    ensures Collect(items, render) == Ok(secs) && c.secs == old(c.secs) + DropEmpty(secs)
  {
    ghost var w := c.secs;
    NothingMore(w);
    var k := 0;
    while k < |secs|
      invariant 0 <= k <= |secs|
      invariant Collect(items[..k], render) == Ok(secs[..k]) && c.secs == w + DropEmpty(secs[..k])
    {
      CollectNext(items, render, k, secs[..k], secs[k]);
      c.AddAfter(w, secs[..k], secs[k]);
      assert secs[..k + 1] == secs[..k] + [secs[k]];
      k := k + 1;
    }
    assert items[..k] == items && secs[..k] == secs;
  }

  /** The first sections of a list of items. */
  ghost predicate Texts<T>(items: seq<T>, render: T -> Result<Section>, secs: seq<Section>) {
    |secs| <= |items| && forall k | 0 <= k < |secs| :: render(items[k]) == Ok(secs[k])
  }

  lemma {:induction false} NextText<T>(items: seq<T>, render: T -> Result<Section>, secs: seq<Section>, sec: Section)
    requires Texts(items, render, secs) && |secs| < |items| && render(items[|secs|]) == Ok(sec)
    ensures Texts(items, render, secs + [sec])
  {
  }

  method TemplateText(inp: Input, t: Template<Policy>) returns (sec: Section)
    ensures TemplateSection(inp)(t) == Ok(sec)
  {
    var b := new Builder<Decl>();
    WriteTemplate(b, inp, t);
    NothingMore([TemplateDecl(t.name, TemplateOptions(inp, t))]);
    return Section("templates/" + t.name, b.items);
  }

  method TemplateTexts(inp: Input, used: seq<Template<Policy>>) returns (secs: seq<Section>)
    ensures |secs| == |used| && Texts(used, TemplateSection(inp), secs)
  {
    secs := [];
    for k := 0 to |used|
      invariant |secs| == k && Texts(used, TemplateSection(inp), secs)
    {
      var sec := TemplateText(inp, used[k]);
      NextText(used, TemplateSection(inp), secs, sec);
      secs := secs + [sec];
    }
  }

  method PeerTexts(inp: Input, used: seq<Template<Policy>>) returns (secs: seq<Section>)
    ensures |secs| == |inp.peers| && Texts(inp.peers, PeerSection(inp, used), secs)
  {
    secs := [];
    for k := 0 to |inp.peers|
      invariant |secs| == k && Texts(inp.peers, PeerSection(inp, used), secs)
    {
      var sec := PeerText(inp, used, inp.peers[k]);
      NextText(inp.peers, PeerSection(inp, used), secs, sec);
      secs := secs + [sec];
    }
  }

  method PeerText(inp: Input, used: seq<Template<Policy>>, p: Peer<Policy>) returns (sec: Section)
    ensures PeerSection(inp, used)(p) == Ok(sec)
  {
    var b := new Builder<Decl>();
    var inherits := HasTemplate(used, p.templateName);
    WritePeer(b, inp, p, inherits);
    NothingMore(PeerDecls(inp, p, inherits));
    return Section("peers/" + p.name, b.items);
  }

  /** Adds section `k` of the library to those before it. */
  method AddNext(c: Collector, ghost inp: Input, ghost k: nat, path: string, decls: seq<Decl>)
    requires k < 12 && c.secs == DropEmpty(LibrarySections(inp)[..k]) && LibrarySection(inp, k) == Section(path, decls)
    modifies c
    ensures c.secs == DropEmpty(LibrarySections(inp)[..k + 1])
  {
    ghost var l := LibrarySections(inp);
    assert l[..k + 1] == l[..k] + [l[k]];
    DropConcat(l[..k], [l[k]]);
    c.Add(path, decls);
  }

  /** The twelve sections before the policies. */
  method AddLibrary(c: Collector, inp: Input)
    requires c.secs == []
    modifies c
    ensures c.secs == DropEmpty(LibrarySections(inp))
  {
    AddSets(c, inp);
    AddTables(c, inp);
    AddServers(c, inp);
    assert LibrarySections(inp)[..12] == LibrarySections(inp);
  }

  method AddSets(c: Collector, inp: Input)
    requires c.secs == []
    modifies c
    ensures c.secs == DropEmpty(LibrarySections(inp)[..4])
  {
    var communities := CommunityText(inp);
    var sets := SetText(inp.prefixSets);
    var ases := ASText(inp.asSets);
    assert LibrarySections(inp)[..0] == [];
    AddNext(c, inp, 0, "globals", [DefineNumber("LOCAL_ASN", inp.localASN)]);
    AddNext(c, inp, 1, "communities", communities);
    AddNext(c, inp, 2, "sets/prefixes", sets);
    AddNext(c, inp, 3, "sets/as", ases);
  }

  method AddTables(c: Collector, inp: Input)
    requires c.secs == DropEmpty(LibrarySections(inp)[..4])
    modifies c
    ensures c.secs == DropEmpty(LibrarySections(inp)[..8])
  {
    var bogons := BogonText(inp);
    var bfd := UsesBfd(inp.peers);
    AddNext(c, inp, 4, "bogons/asns", bogons);
    AddNext(c, inp, 5, "rpki/tables", if inp.rpkiServers == [] then [] else [RoaTable("rpki4"), RoaTable("rpki6")]);
    AddNext(c, inp, 6, "protocols/base", [OtherProtocol("direct1"), OtherProtocol("kernel4"), OtherProtocol("kernel6")]);
    AddNext(c, inp, 7, "protocols/bfd", if bfd then [OtherProtocol("bfd1")] else []);
  }

  method AddServers(c: Collector, inp: Input)
    requires c.secs == DropEmpty(LibrarySections(inp)[..8])
    modifies c
    ensures c.secs == DropEmpty(LibrarySections(inp)[..12])
  {
    var stations, servers := ServerText(inp);
    var anchors := OriginatorText(inp.prefixSets);
    AddNext(c, inp, 8, "protocols/bmp", stations);
    AddNext(c, inp, 9, "rpki/servers", servers);
    AddNext(c, inp, 10, "sets/originators", anchors);
    AddNext(c, inp, 11, "static", (if inp.staticV4 then [OtherProtocol("static_v4")] else [])
                                  + (if inp.staticV6 then [OtherProtocol("static_v6")] else []));
  }

  method CommunityText(inp: Input) returns (decls: seq<Decl>)
    ensures decls == TagDecls(inp) + CommunityDecls(inp.communities)
  {
    var b := new Builder<Decl>();
    WriteCommunities(b, inp);
    NothingMore(TagDecls(inp) + CommunityDecls(inp.communities));
    return b.items;
  }

  method SetText(sets: seq<PrefixSet>) returns (defines: seq<Decl>)
    ensures defines == PrefixDecls(sets)
  {
    var b := new Builder<Decl>();
    WriteSets(b, sets);
    NothingMore(PrefixDecls(sets));
    return b.items;
  }

  method OriginatorText(sets: seq<PrefixSet>) returns (anchors: seq<Decl>)
    ensures anchors == OriginatorDecls(sets)
  {
    var b := new Builder<Decl>();
    WriteOriginators(b, sets);
    NothingMore(OriginatorDecls(sets));
    return b.items;
  }

  method ASText(sets: seq<ASSet>) returns (defines: seq<Decl>)
    ensures defines == ASDecls(sets)
  {
    var b := new Builder<Decl>();
    WriteASSets(b, sets);
    NothingMore(ASDecls(sets));
    return b.items;
  }

  method BogonText(inp: Input) returns (defines: seq<Decl>)
    ensures defines == BogonDecls(inp)
  {
    var b := new Builder<Decl>();
    WriteBogonASNDefines(b, inp);
    NothingMore(BogonDecls(inp));
    return b.items;
  }

  method ServerText(inp: Input) returns (stations: seq<Decl>, servers: seq<Decl>)
    ensures stations == NamedProtocols(inp.bmpStations) && servers == RpkiDecls(inp.rpkiServers)
  {
    var b := new Builder<Decl>();
    WriteNamed(b, inp.bmpStations, false);
    var c := new Builder<Decl>();
    WriteNamed(c, inp.rpkiServers, true);
    NothingMore(NamedProtocols(inp.bmpStations));
    NothingMore(RpkiDecls(inp.rpkiServers));
    return b.items, c.items;
  }

  method UsesBfd(peers: seq<Peer<Policy>>) returns (bfd: bool)
    ensures bfd <==> exists k | 0 <= k < |peers| :: peers[k].bfd
  {
    for k := 0 to |peers|
      invariant forall j | 0 <= j < k :: !peers[j].bfd
    {
      if peers[k].bfd { return true; }
    }
    return false;
  }

  /** Renders a model, or says why it cannot. Given what the store guarantees of a model, a router
      that runs the result takes in and lets out on every session what the model's policies say. */
  method RenderSections(inp: Input) returns (r: Result<seq<Section>>)
    ensures r == Render(inp)
    ensures r.Ok? && RefersToModel(inp) && ChainsDirected(inp) ==> RunsAsModelled(inp, Decls(r.value))
  {
    RendersRuns(inp);
    if !(1 <= inp.localASN <= 4294967295) { return Err(BadLocalASN); }
    var err := CheckBogons(inp.prefixSets, inp.policies);
    if err.Some? { return Err(err.value); }
    err := CheckServers(inp);
    if err.Some? { return Err(err.value); }
    r := CollectSections(inp);
    if r.Err? { return; }
    var clash := CheckSymbols(r.value);
    if clash.Some? { return Err(DeclaredTwice(clash.value)); }
  }

  lemma {:induction false} RendersRuns(inp: Input)
    ensures Render(inp).Ok? && RefersToModel(inp) && ChainsDirected(inp) ==> RunsAsModelled(inp, Decls(Render(inp).value))
  {
    if Render(inp).Ok? && RefersToModel(inp) && ChainsDirected(inp) { RenderedRuns(inp); }
  }

  method CollectSections(inp: Input) returns (r: Result<seq<Section>>)
    ensures r == AllSections(inp)
  {
    var sets := IndexSets(inp.prefixSets);
    var asSets := IndexASSets(inp.asSets);
    var used := FindUsed(inp.templates, inp.peers);
    var c := new Collector();
    AddLibrary(c, inp);
    var err := AddPolicies(c, inp, sets, asSets);
    if err.Some? { return Err(err.value); }
    var templateTexts := TemplateTexts(inp, used);
    AddEach(c, used, TemplateSection(inp), templateTexts);
    var peerTexts := PeerTexts(inp, used);
    AddEach(c, inp.peers, PeerSection(inp, used), peerTexts);
    ghost var l, pols := LibrarySections(inp), PolicySections(inp).value;
    ghost var templates, peers := Collect(used, TemplateSection(inp)).value, Collect(inp.peers, PeerSection(inp, used)).value;
    DropConcat(l, pols);
    DropConcat(l + pols, templates);
    DropConcat(l + pols + templates, peers);
    return Ok(c.secs);
  }
}
