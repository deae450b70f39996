/** What a peer's export filter means: transforms first, then permission by any policy, default
    deny (section 3 of RFC 8212). */
module ExportMeaning {
  import opened Options
  import opened Bird
  import opened Model
  import opened Compile
  import opened ImportMeaning
  import opened ImportChain

  /** One of the policy's prefix sets, of this family and rendered, holds the prefix. */
  predicate HoldsNet(inp: Input, ids: seq<int>, fam: Family, net: Prefix) {
    exists k | 0 <= k < |ids| ::
      match SetByID(inp.prefixSets, ids[k])
      case None => false
      case Some(ps) => Rendered(ps) && ps.family == fam && InSet(ps, net)
  }

  predicate Announced(inp: Input, ids: seq<int>, fam: Family, r: Route) { HoldsNet(inp, ids, fam, r.net) }

  /** The route carries the tag of a role this policy announces. */
  predicate FromSource(inp: Input, pol: Policy, r: Route) {
    || (pol.announceFromUpstream && Tag(inp.localASN, Upstream) in r.communities)
    || (pol.announceFromIX && Tag(inp.localASN, IXPeer) in r.communities)
    || (pol.announceFromCustomer && Tag(inp.localASN, Customer) in r.communities)
  }

  predicate Permits(inp: Input, pol: Policy, fam: Family, r: Route) {
    || pol.announceEverything
    || (pol.announceDefault && IsDefault(fam, r))
    || Announced(inp, pol.setIDs, fam, r)
    || FromSource(inp, pol, r)
    || BadCommunity(inp, pol, r)  // the matched community: an import veto, an export permission
  }

  predicate BogonVeto(inp: Input, pol: Policy, fam: Family, r: Route) {
    pol.rejectBogonPrefixes && AnyMatches(BogonNets(inp, fam), r.net)
  }

  /** What one export policy decides. */
  function ExportVerdict(inp: Input, pol: Policy, fam: Family, r: Route): Outcome {
    if BogonVeto(inp, pol, fam, r) then Rejected
    else if Permits(inp, pol, fam, r) then Accepted(r)
    else Ended(r)
  }

  // ----- code made of permissions

  ghost predicate PermitsOnly(body: seq<Stmt>) {
    forall k | 0 <= k < |body| :: body[k].If? && body[k].actions == [Accept]
  }

  lemma {:induction false} RunPermits(cfg: Config, roa: Roa, body: seq<Stmt>, r: Route, depth: nat)
    requires PermitsOnly(body)
    ensures Run(cfg, roa, body, r, depth) == if Hits(cfg, roa, body, r) then Accepted(r) else Ended(r)
    decreases |body|
  {
    if body != [] {
      assert ActAll(cfg, [Accept], r) == Accepted(r);
      RunPermits(cfg, roa, body[1..], r, depth);
    }
  }

  lemma {:induction false} PermitHits(cfg: Config, roa: Roa, on: bool, c: Cond, r: Route)
    ensures PermitsOnly(Permit(on, c)) && Hits(cfg, roa, Permit(on, c), r) == (on && Holds(cfg, roa, c, r))
  {
    if on { HitsOne(cfg, roa, If(c, [Accept]), r); }
  }

  lemma {:induction false} SetAcceptsSnoc(sets: seq<PrefixSet>, ids: seq<int>, fam: Family)
    requires ids != [] && SetAccepts(sets, ids, fam).Ok?
    ensures SetByID(sets, ids[|ids| - 1]).Some? && SetAccepts(sets, ids[..|ids| - 1], fam).Ok?
    ensures var ps := SetByID(sets, ids[|ids| - 1]).value;
      SetAccepts(sets, ids, fam).value ==
      SetAccepts(sets, ids[..|ids| - 1], fam).value + Permit(ps.family == fam && Rendered(ps), NetIn(ps.name))
  {
  }

  lemma {:induction false} NetInMeaning(cfg: Config, inp: Input, ps: PrefixSet, roa: Roa, r: Route)
    requires LibrarySymbols(cfg, inp) && ps in inp.prefixSets && Rendered(ps)
    ensures Holds(cfg, roa, NetIn(ps.name), r) == InSet(ps, r.net)
  {
  }

  lemma {:induction false} SetAcceptsMeaning(cfg: Config, inp: Input, ids: seq<int>, fam: Family, roa: Roa, r: Route)
    requires LibrarySymbols(cfg, inp) && SetAccepts(inp.prefixSets, ids, fam).Ok?
    ensures PermitsOnly(SetAccepts(inp.prefixSets, ids, fam).value)
    ensures Hits(cfg, roa, SetAccepts(inp.prefixSets, ids, fam).value, r) == Announced(inp, ids, fam, r)
  {
    if ids != [] {
      var k := |ids| - 1;
      SetAcceptsSnoc(inp.prefixSets, ids, fam);
      SetAcceptsMeaning(cfg, inp, ids[..k], fam, roa, r);
      AnnouncedSnoc(inp, ids, fam, r);
      SetByIDIn(inp.prefixSets, ids[k]);
      var ps := SetByID(inp.prefixSets, ids[k]).value;
      if Rendered(ps) { NetInMeaning(cfg, inp, ps, roa, r); }
      PermitMore(cfg, roa, SetAccepts(inp.prefixSets, ids[..k], fam).value, ps.family == fam && Rendered(ps), NetIn(ps.name), r);
    }
  }

  lemma {:induction false} PermitMore(cfg: Config, roa: Roa, before: seq<Stmt>, on: bool, c: Cond, r: Route)
    requires PermitsOnly(before)
    ensures PermitsOnly(before + Permit(on, c))
    ensures Hits(cfg, roa, before + Permit(on, c), r) <==> Hits(cfg, roa, before, r) || (on && Holds(cfg, roa, c, r))
  {
    PermitHits(cfg, roa, on, c, r);
    HitsConcat(cfg, roa, before, Permit(on, c), r);
  }

  lemma {:induction false} AnnouncedSnoc(inp: Input, ids: seq<int>, fam: Family, r: Route)
    requires ids != [] && SetByID(inp.prefixSets, ids[|ids| - 1]).Some?
    ensures var ps := SetByID(inp.prefixSets, ids[|ids| - 1]).value;
      Announced(inp, ids, fam, r) <==>
        Announced(inp, ids[..|ids| - 1], fam, r) || (Rendered(ps) && ps.family == fam && InSet(ps, r.net))
  {
    var k := |ids| - 1;
    assert forall j | 0 <= j < k :: ids[..k][j] == ids[j];
    if Announced(inp, ids[..k], fam, r) {
      var j :| 0 <= j < k && match SetByID(inp.prefixSets, ids[..k][j])
        case None => false
        case Some(ps) => Rendered(ps) && ps.family == fam && InSet(ps, r.net);
      assert ids[j] == ids[..k][j];
    }
  }

  lemma {:induction false} TagHeld(cfg: Config, inp: Input, role: Role, roa: Roa, r: Route)
    requires FixedSymbols(cfg, inp) && role != IBGP
    ensures Holds(cfg, roa, Carries(Symbol(TagName(role), true)), r) == (Tag(inp.localASN, role) in r.communities)
  {
    assert CommunityOf(cfg, Symbol(TagName(role), true)) == Some(Tag(inp.localASN, role));
  }

  lemma {:induction false} MatchPermits(cfg: Config, inp: Input, pol: Policy, roa: Roa, r: Route)
    requires LibrarySymbols(cfg, inp) && KnownMatch(inp, pol)
    ensures PermitsOnly(MatchPart(inp.communities, pol, Accept))
    ensures Hits(cfg, roa, MatchPart(inp.communities, pol, Accept), r) == BadCommunity(inp, pol, r)
  {
    var part := MatchPart(inp.communities, pol, Accept);
    if part != [] { HitsOne(cfg, roa, part[0], r); }
  }

  lemma {:induction false} TagHits(cfg: Config, inp: Input, pol: Policy, roa: Roa, r: Route, tags: seq<Stmt>)
    requires FixedSymbols(cfg, inp)
    requires tags == Permit(pol.announceFromUpstream, Carries(Symbol("FROM_UPSTREAM", true)))
                     + Permit(pol.announceFromIX, Carries(Symbol("FROM_IX", true)))
                     + Permit(pol.announceFromCustomer, Carries(Symbol("FROM_CUSTOMER", true)))
    ensures PermitsOnly(tags) && (Hits(cfg, roa, tags, r) <==> FromSource(inp, pol, r))
  {
    var a := Permit(pol.announceFromUpstream, Carries(Symbol("FROM_UPSTREAM", true)));
    var b := Permit(pol.announceFromIX, Carries(Symbol("FROM_IX", true)));
    PermitHits(cfg, roa, pol.announceFromUpstream, Carries(Symbol(TagName(Upstream), true)), r);
    PermitMore(cfg, roa, a, pol.announceFromIX, Carries(Symbol(TagName(IXPeer), true)), r);
    PermitMore(cfg, roa, a + b, pol.announceFromCustomer, Carries(Symbol(TagName(Customer), true)), r);
    TagHeld(cfg, inp, Upstream, roa, r);
    TagHeld(cfg, inp, IXPeer, roa, r);
    TagHeld(cfg, inp, Customer, roa, r);
  }

  lemma {:induction false} SourceHits(cfg: Config, inp: Input, pol: Policy, roa: Roa, r: Route)
    requires FixedSymbols(cfg, inp) && LibrarySymbols(cfg, inp) && KnownMatch(inp, pol)
    ensures PermitsOnly(SourceAccepts(inp, pol))
    ensures Hits(cfg, roa, SourceAccepts(inp, pol), r) <==> FromSource(inp, pol, r) || BadCommunity(inp, pol, r)
  {
    var tags := Permit(pol.announceFromUpstream, Carries(Symbol("FROM_UPSTREAM", true)))
                + Permit(pol.announceFromIX, Carries(Symbol("FROM_IX", true)))
                + Permit(pol.announceFromCustomer, Carries(Symbol("FROM_CUSTOMER", true)));
    TagHits(cfg, inp, pol, roa, r, tags);
    MatchPermits(cfg, inp, pol, roa, r);
    HitsConcat(cfg, roa, tags, MatchPart(inp.communities, pol, Accept), r);
  }

  /** The generated function means what its policy says. */
  lemma {:induction false} ExportBodyMeaning(cfg: Config, inp: Input, pol: Policy, fam: Family, roa: Roa, r: Route, depth: nat)
    requires FixedSymbols(cfg, inp) && LibrarySymbols(cfg, inp) && KnownMatch(inp, pol) && ExportBody(inp, pol, fam).Ok?
    ensures Run(cfg, roa, ExportBody(inp, pol, fam).value, r, depth) == ExportVerdict(inp, pol, fam, r)
  {
    var veto := Veto(pol.rejectBogonPrefixes, NetIn(BogonSet(fam)));
    VetoHits(cfg, roa, pol.rejectBogonPrefixes, NetIn(BogonSet(fam)), r);
    RunVetoes(cfg, roa, veto, r, depth);
    if pol.announceEverything {
      RunConcat(cfg, roa, veto, [Do(Accept)], r, depth);
      RunOne(cfg, roa, Do(Accept), r, depth);
    } else {
      var def := Permit(pol.announceDefault, NetIs(AnyRoute(fam)));
      var sets, sources := SetAccepts(inp.prefixSets, pol.setIDs, fam).value, SourceAccepts(inp, pol);
      PermitHits(cfg, roa, pol.announceDefault, NetIs(AnyRoute(fam)), r);
      SetAcceptsMeaning(cfg, inp, pol.setIDs, fam, roa, r);
      SourceHits(cfg, inp, pol, roa, r);
      PermitsRun(cfg, roa, veto, def, sets, sources, r, depth);
    }
  }

  /** Statements that decide every route as an export policy says. */
  ghost predicate DecidesExport(inp: Input, pol: Policy, fam: Family, body: seq<Stmt>) {
    forall cfg, roa, r, depth | FixedSymbols(cfg, inp) && LibrarySymbols(cfg, inp) ::
      Run(cfg, roa, body, r, depth) == ExportVerdict(inp, pol, fam, r)
  }

  lemma {:induction false} ExportBodyDecides(inp: Input, pol: Policy, fam: Family)
    requires KnownMatch(inp, pol) && ExportBody(inp, pol, fam).Ok?
    ensures DecidesExport(inp, pol, fam, ExportBody(inp, pol, fam).value)
  {
    forall cfg, roa, r, depth | FixedSymbols(cfg, inp) && LibrarySymbols(cfg, inp)
      ensures Run(cfg, roa, ExportBody(inp, pol, fam).value, r, depth) == ExportVerdict(inp, pol, fam, r)
    {
      ExportBodyMeaning(cfg, inp, pol, fam, roa, r, depth);
    }
  }

  lemma {:induction false} PermitsRun(cfg: Config, roa: Roa, a: seq<Stmt>, b: seq<Stmt>, c: seq<Stmt>, d: seq<Stmt>, r: Route, depth: nat)
    requires VetoesOnly(a) && PermitsOnly(b) && PermitsOnly(c) && PermitsOnly(d)
    ensures Run(cfg, roa, a + b + c + d, r, depth) ==
            if Hits(cfg, roa, a, r) then Rejected
            else if Hits(cfg, roa, b, r) || Hits(cfg, roa, c, r) || Hits(cfg, roa, d, r) then Accepted(r)
            else Ended(r)
  {
    RunConcat(cfg, roa, a + b + c, d, r, depth);
    RunConcat(cfg, roa, a + b, c, r, depth);
    RunConcat(cfg, roa, a, b, r, depth);
    RunVetoes(cfg, roa, a, r, depth);
    RunPermits(cfg, roa, b, r, depth);
    RunPermits(cfg, roa, c, r, depth);
    RunPermits(cfg, roa, d, r, depth);
  }

  // ----- the filter

  function Prepended(asn: nat, n: nat, path: seq<nat>): seq<nat> {
    if n == 0 then path else Prepended(asn, n - 1, [asn] + path)
  }

  /** The route as it would be announced: drain signal, prepends, the operator's communities. */
  function Egress(inp: Input, p: Peer<Policy>, r: Route): Route {
    r.(communities := r.communities + (if p.drained then {GRACEFUL_SHUTDOWN} else {})
                      + ResolvedRefs(inp.communities, p.exportCommunities),
       path := Prepended(inp.localASN, p.prependCount, r.path))
  }

  lemma {:induction false} PrependMeaning(cfg: Config, inp: Input, n: nat, roa: Roa, r: Route, depth: nat)
    requires FixedSymbols(cfg, inp)
    ensures Run(cfg, roa, Repeat(Do(PrependOwn), n), r, depth) == Ended(r.(path := Prepended(inp.localASN, n, r.path)))
    decreases n
  {
    if n > 0 {
      assert Repeat(Do(PrependOwn), n)[1..] == Repeat(Do(PrependOwn), n - 1);
      PrependMeaning(cfg, inp, n - 1, roa, r.(path := [inp.localASN] + r.path), depth);
    }
  }

  lemma {:induction false} ExportPrologueMeaning(cfg: Config, inp: Input, p: Peer<Policy>, roa: Roa, r: Route, depth: nat)
    requires FixedSymbols(cfg, inp) && LibrarySymbols(cfg, inp) && KnownRefs(inp.communities, p.exportCommunities)
    ensures Run(cfg, roa, ExportPrologue(inp, p), r, depth) == Ended(Egress(inp, p, r))
  {
    var drain := if p.drained then [Do(AddCommunity(Value(GRACEFUL_SHUTDOWN)))] else [];
    var r1 := r.(communities := r.communities + if p.drained then {GRACEFUL_SHUTDOWN} else {});
    if p.drained {
      RunOne(cfg, roa, drain[0], r, depth);
    } else {
      assert r.communities + {} == r.communities;
    }
    RunConcat(cfg, roa, drain + Repeat(Do(PrependOwn), p.prependCount), AddRefs(inp.communities, p.exportCommunities), r, depth);
    RunConcat(cfg, roa, drain, Repeat(Do(PrependOwn), p.prependCount), r, depth);
    PrependMeaning(cfg, inp, p.prependCount, roa, r1, depth);
    AddRefsMeaning(cfg, inp, p.exportCommunities, roa, r1.(path := Prepended(inp.localASN, p.prependCount, r.path)), depth);
  }

  function ExportChain(inp: Input, chain: seq<Policy>, fam: Family, r: Route): Outcome {
    if chain == [] then Ended(r)
    else
      match ExportVerdict(inp, chain[0], fam, r)
      case Ended(_) => ExportChain(inp, chain[1..], fam, r)
      case done => done
  }

  ghost predicate Exports(chain: seq<Policy>) { forall k | 0 <= k < |chain| :: !chain[k].isImport }

  lemma {:induction false} ExportCallsMeaning(cfg: Config, inp: Input, chain: seq<Policy>, fam: Family, roa: Roa, r: Route)
    requires Loaded(cfg, inp) && ChainRenders(inp, chain, fam) && Exports(chain)
    ensures Run(cfg, roa, Calls(chain, fam), r, 1) == ExportChain(inp, chain, fam, r)
    decreases |chain|
  {
    if chain != [] {
      var body := PolicyBody(inp, chain[0], fam).value;
      assert Calls(chain, fam)[0] == Call(PolicyFunc(chain[0], fam));
      assert Calls(chain, fam)[1..] == Calls(chain[1..], fam);
      ExportBodyMeaning(cfg, inp, chain[0], fam, roa, r, 0);
      assert BodyOf(cfg, PolicyFunc(chain[0], fam)) == body;
      assert Step(cfg, roa, Call(PolicyFunc(chain[0], fam)), r, 1) == Run(cfg, roa, body, r, 0);
      assert ChainRenders(inp, chain[1..], fam) && Exports(chain[1..]);
      ExportCallsMeaning(cfg, inp, chain[1..], fam, roa, r);
    }
  }

  /** Some policy permits the transformed route, and no policy up to it vetoes it. */
  ghost predicate Announces(inp: Input, chain: seq<Policy>, fam: Family, t: Route) {
    exists k | 0 <= k < |chain| ::
      && Permits(inp, chain[k], fam, t)
      && forall j | 0 <= j <= k :: !BogonVeto(inp, chain[j], fam, t)
  }

  lemma {:induction false} ExportChainDecides(inp: Input, chain: seq<Policy>, fam: Family, t: Route)
    ensures ExportChain(inp, chain, fam, t).Accepted? <==> Announces(inp, chain, fam, t)
    ensures ExportChain(inp, chain, fam, t).Accepted? ==> ExportChain(inp, chain, fam, t).route == t
  {
    if chain != [] {
      var rest := chain[1..];
      ExportChainDecides(inp, rest, fam, t);
      if ExportVerdict(inp, chain[0], fam, t).Ended? {
        if Announces(inp, rest, fam, t) {
          var k :| 0 <= k < |rest| && Permits(inp, rest[k], fam, t) && forall j | 0 <= j <= k :: !BogonVeto(inp, rest[j], fam, t);
          forall j | 0 <= j <= k + 1
            ensures !BogonVeto(inp, chain[j], fam, t)
          {
            if j > 0 { assert chain[j] == rest[j - 1]; }
          }
          assert Permits(inp, chain[k + 1], fam, t);
        }
        if Announces(inp, chain, fam, t) {
          var k :| 0 <= k < |chain| && Permits(inp, chain[k], fam, t) && forall j | 0 <= j <= k :: !BogonVeto(inp, chain[j], fam, t);
          assert k > 0 && Permits(inp, rest[k - 1], fam, t);
          forall j | 0 <= j <= k - 1
            ensures !BogonVeto(inp, rest[j], fam, t)
          {
            assert rest[j] == chain[j + 1];
          }
        }
      } else if ExportVerdict(inp, chain[0], fam, t).Accepted? {
        assert Permits(inp, chain[0], fam, t);
      } else {
        assert BogonVeto(inp, chain[0], fam, t);
      }
    }
  }

  /** Default deny: the generated export filter announces a route exactly when some policy of
      the chain permits it as transformed and no policy up to that one vetoes it; what is
      announced is the transformed route. */
  lemma {:induction false} ExportFilterMeaning(cfg: Config, inp: Input, p: Peer<Policy>, roa: Roa, r: Route)
    requires Loaded(cfg, inp) && ChainRenders(inp, p.exportPolicies, p.Fam()) && Exports(p.exportPolicies)
    requires KnownRefs(inp.communities, p.exportCommunities)
    ensures RunFilter(cfg, roa, ExportFilterBody(inp, p), r) ==
            if Announces(inp, p.exportPolicies, p.Fam(), Egress(inp, p, r)) then Accepted(Egress(inp, p, r)) else Rejected
  {
    var t := Egress(inp, p, r);
    var pro, calls := ExportPrologue(inp, p), Calls(p.exportPolicies, p.Fam());
    RunConcat(cfg, roa, pro + calls, [Do(Reject)], r, 1);
    RunConcat(cfg, roa, pro, calls, r, 1);
    ExportPrologueMeaning(cfg, inp, p, roa, r, 1);
    ExportCallsMeaning(cfg, inp, p.exportPolicies, p.Fam(), roa, t);
    ExportChainDecides(inp, p.exportPolicies, p.Fam(), t);
    match ExportChain(inp, p.exportPolicies, p.Fam(), t) {
      case Ended(x) => RunOne(cfg, roa, Do(Reject), x, 1);
      case _ =>
    }
  }

  lemma {:induction false} PrependedPath(asn: nat, n: nat, path: seq<nat>)
    ensures var q := Prepended(asn, n, path);
      |q| == n + |path| && (forall k | 0 <= k < n :: q[k] == asn) && q[n..] == path
  {
    if n > 0 {
      PrependedPath(asn, n - 1, [asn] + path);
      var q := Prepended(asn, n, path);
      assert q[n..] == q[n - 1..][1..];
      assert q[n - 1] == q[n - 1..][0];
    }
  }
}
