/** What a session announces at all, against the finding that it announces nothing.
    (internal/render/lint.go, Lint; internal/render/render.go, writeExportBody) */
module ExportTruth {
  import opened Options
  import opened Bird
  import opened Model
  import opened Compile
  import opened ImportMeaning
  import opened ImportChain
  import opened ExportMeaning
  import opened Lint
  import opened Sections
  import opened WellScopedOutput
  import opened Provenance
  import opened RenderedRouter
  import opened LintTruth

  // ----- one policy

  lemma {:induction false} NoLiveSet(inp: Input, ids: seq<int>, fam: Family, t: Route)
    requires LiveSets(inp.prefixSets, ids) == 0
    ensures !Announced(inp, ids, fam, t)
  {
    if ids != [] {
      var n := |ids| - 1;
      NoLiveSet(inp, ids[..n], fam, t);
      forall k | 0 <= k < |ids|
        ensures match SetByID(inp.prefixSets, ids[k]) case None => true case Some(ps) => !Rendered(ps) || !(ps.family == fam && InSet(ps, t.net))
      {
        if k < n { assert ids[..n][k] == ids[k]; }
      }
    }
  }

  /** "Permits nothing" overlooks the community match: a flagged policy accepts exactly the routes
      that carry the community it matches, bogons aside. Without a match it accepts none. */
  lemma {:induction false} PermitsNothingExactly(inp: Input, pol: Policy, fam: Family, t: Route)
    requires SeemsEmpty(inp.prefixSets, pol)
    ensures ExportVerdict(inp, pol, fam, t).Accepted? <==> BadCommunity(inp, pol, t) && !BogonVeto(inp, pol, fam, t)
    ensures pol.matchCommunity.None? ==> !ExportVerdict(inp, pol, fam, t).Accepted?
  {
    NoLiveSet(inp, pol.setIDs, fam, t);
  }

  // ----- the session

  /** Where a policy may get a route to this prefix from: everything, a role's routes, a community
      that is matched, the default route, or one of its sets. */
  predicate Offers(inp: Input, pol: Policy, fam: Family, net: Prefix) {
    || pol.announceEverything
    || pol.announceFromUpstream || pol.announceFromIX || pol.announceFromCustomer
    || (pol.matchCommunity.Some? && Resolve(inp.communities, pol.matchCommunity.value).Some?)
    || (pol.announceDefault && net == AnyRoute(fam))
    || HoldsNet(inp, pol.setIDs, fam, net)
  }

  /** No policy up to the k-th vetoes the prefix as a bogon. */
  predicate Unvetoed(inp: Input, chain: seq<Policy>, k: nat, fam: Family, net: Prefix)
    requires k < |chain|
  {
    forall j | 0 <= j <= k :: !(chain[j].rejectBogonPrefixes && AnyMatches(BogonNets(inp, fam), net))
  }

  predicate NetOf(net: Prefix, fam: Family) { net.family == fam && net.Len() <= fam.HostBits() }

  /** Some policy of the chain offers the prefix, and none up to it vetoes it. */
  predicate ChainOffers(inp: Input, chain: seq<Policy>, fam: Family, net: Prefix) {
    exists k | 0 <= k < |chain| :: Offers(inp, chain[k], fam, net) && Unvetoed(inp, chain, k, fam, net)
  }

  /** A route to a prefix that carries every role's tag, and the community a policy matches. */
  function Tagged(inp: Input, pol: Policy, net: Prefix): Route {
    var tags := {Tag(inp.localASN, Upstream), Tag(inp.localASN, IXPeer), Tag(inp.localASN, Customer)};
    var matched := match pol.matchCommunity
                   case None => {}
                   case Some(ref) => match Resolve(inp.communities, ref) case Some(c) => {c} case None => {};
    Route(net, [], tags + matched, 0, false)
  }

  lemma {:induction false} OfferedIsPermitted(inp: Input, p: Peer<Policy>, pol: Policy, net: Prefix)
    requires Offers(inp, pol, p.Fam(), net)
    ensures Permits(inp, pol, p.Fam(), Egress(inp, p, Tagged(inp, pol, net)))
  {
    var t := Egress(inp, p, Tagged(inp, pol, net));
    assert Tagged(inp, pol, net).communities <= t.communities;
  }

  lemma {:induction false} AnnouncedIsOffered(inp: Input, p: Peer<Policy>, r: Route)
    requires Announces(inp, p.exportPolicies, p.Fam(), Egress(inp, p, r))
    ensures ChainOffers(inp, p.exportPolicies, p.Fam(), r.net)
  {
    var chain, t := p.exportPolicies, Egress(inp, p, r);
    var k :| 0 <= k < |chain| && Permits(inp, chain[k], p.Fam(), t) && forall j | 0 <= j <= k :: !BogonVeto(inp, chain[j], p.Fam(), t);
    assert Offers(inp, chain[k], p.Fam(), r.net);
    forall j | 0 <= j <= k
      ensures !(chain[j].rejectBogonPrefixes && AnyMatches(BogonNets(inp, p.Fam()), r.net))
    {
      assert !BogonVeto(inp, chain[j], p.Fam(), t);
    }
  }

  lemma {:induction false} OfferedIsAnnounced(inp: Input, p: Peer<Policy>, net: Prefix) returns (r: Route)
    requires ChainOffers(inp, p.exportPolicies, p.Fam(), net)
    ensures r.net == net && Announces(inp, p.exportPolicies, p.Fam(), Egress(inp, p, r))
  {
    var chain := p.exportPolicies;
    var k :| 0 <= k < |chain| && Offers(inp, chain[k], p.Fam(), net) && Unvetoed(inp, chain, k, p.Fam(), net);
    r := Tagged(inp, chain[k], net);
    OfferedIsPermitted(inp, p, chain[k], net);
    forall j | 0 <= j <= k
      ensures !BogonVeto(inp, chain[j], p.Fam(), Egress(inp, p, r))
    {
      assert !(chain[j].rejectBogonPrefixes && AnyMatches(BogonNets(inp, p.Fam()), net));
    }
  }

  /** Some route of the session's family is let out exactly when the chain offers a prefix of it. */
  lemma {:induction false} LetsSomethingOut(inp: Input, p: Peer<Policy>)
    requires !p.IsIBGP()
    ensures (exists r | OfFamily(r, p.Fam()) :: LetOut(inp, p, r).Some?) <==>
            exists net | NetOf(net, p.Fam()) :: ChainOffers(inp, p.exportPolicies, p.Fam(), net)
  {
    if net :| NetOf(net, p.Fam()) && ChainOffers(inp, p.exportPolicies, p.Fam(), net) {
      var r := OfferedIsAnnounced(inp, p, net);
      assert OfFamily(r, p.Fam()) && LetOut(inp, p, r).Some?;
    }
    if r :| OfFamily(r, p.Fam()) && LetOut(inp, p, r).Some? {
      AnnouncedIsOffered(inp, p, r);
      assert NetOf(r.net, p.Fam());
    }
  }

  /** The session of a rendered router announces no route at all. */
  ghost predicate AnnouncesNothing(inp: Input, p: Peer<Policy>, roa: Roa) {
    forall r | OfFamily(r, p.Fam()) :: Announce(Router(Configuration(inp), inp, roa), p, r).None?
  }

  /** "This session announces no routes at all" is true of an external session exactly when no policy
      of its chain offers a prefix that none up to it vetoes. */
  lemma {:induction false} AnnouncesNothingExactly(inp: Input, p: Peer<Policy>, roa: Roa)
    requires Render(inp).Ok? && RefersToModel(inp) && ChainsDirected(inp) && p in inp.peers && !p.IsIBGP()
    ensures AnnouncesNothing(inp, p, roa) <==> forall net | NetOf(net, p.Fam()) :: !ChainOffers(inp, p.exportPolicies, p.Fam(), net)
  {
    NothingLetOut(inp, p, roa);
    LetsSomethingOut(inp, p);
  }

  lemma {:induction false} NothingLetOut(inp: Input, p: Peer<Policy>, roa: Roa)
    requires Render(inp).Ok? && RefersToModel(inp) && ChainsDirected(inp) && p in inp.peers
    ensures AnnouncesNothing(inp, p, roa) <==> !exists r | OfFamily(r, p.Fam()) :: LetOut(inp, p, r).Some?
  {
    forall r
      ensures Announce(Router(Configuration(inp), inp, roa), p, r) == LetOut(inp, p, r)
    {
      RenderedAnnounce(inp, p, roa, r);
    }
  }

  lemma {:induction false} EmptyOffers(inp: Input, pol: Policy, fam: Family, net: Prefix)
    requires SeemsEmpty(inp.prefixSets, pol) && pol.matchCommunity.None?
    ensures !Offers(inp, pol, fam, net)
  {
    NoLiveSet(inp, pol.setIDs, fam, Route(net, [], {}, 0, false));
  }

  /** So it is true when the finding could be made of every policy of the chain and none matches a
      community -- with no policy at all, too. */
  lemma {:induction false} AllEmptyAnnouncesNothing(inp: Input, p: Peer<Policy>, roa: Roa)
    requires Render(inp).Ok? && RefersToModel(inp) && ChainsDirected(inp) && p in inp.peers && !p.IsIBGP()
    requires forall k | 0 <= k < |p.exportPolicies| ::
               SeemsEmpty(inp.prefixSets, p.exportPolicies[k]) && p.exportPolicies[k].matchCommunity.None?
    ensures AnnouncesNothing(inp, p, roa)
  {
    forall net | NetOf(net, p.Fam())
      ensures !ChainOffers(inp, p.exportPolicies, p.Fam(), net)
    {
      forall k | 0 <= k < |p.exportPolicies|
        ensures !Offers(inp, p.exportPolicies[k], p.Fam(), net)
      {
        EmptyOffers(inp, p.exportPolicies[k], p.Fam(), net);
      }
    }
    AnnouncesNothingExactly(inp, p, roa);
  }

  /** The finding is raised for each flagged policy, and is false of the session as soon as another
      one offers a prefix: something is announced then. */
  lemma {:induction false} OneOfferIsEnough(inp: Input, p: Peer<Policy>, i: nat, k: nat, net: Prefix, roa: Roa)
    requires Render(inp).Ok? && RefersToModel(inp) && ChainsDirected(inp) && p in inp.peers && !p.IsIBGP()
    requires i < |p.exportPolicies| && SeemsEmpty(inp.prefixSets, p.exportPolicies[i])
    requires k < |p.exportPolicies| && NetOf(net, p.Fam())
    requires Offers(inp, p.exportPolicies[k], p.Fam(), net) && Unvetoed(inp, p.exportPolicies, k, p.Fam(), net)
    ensures var pol := p.exportPolicies[i];
      Warning(Danger, OnePeer(p.name), PermitsNothing(pol.name, pol.setIDs != [])) in PeerFindings(inp, p)
    ensures !AnnouncesNothing(inp, p, roa)
  {
    var pol := p.exportPolicies[i];
    EmptyFound(inp, p, p.exportPolicies, Warning(Danger, OnePeer(p.name), PermitsNothing(pol.name, pol.setIDs != [])));
    assert ChainOffers(inp, p.exportPolicies, p.Fam(), net);
    AnnouncesNothingExactly(inp, p, roa);
  }

  /** A live set offers the base prefix of an entry that does not ask for longer ones only. */
  lemma {:induction false} LiveSetOffers(inp: Input, pol: Policy, k: nat, e: nat)
    requires k < |pol.setIDs| && SetByID(inp.prefixSets, pol.setIDs[k]).Some?
    requires var ps := SetByID(inp.prefixSets, pol.setIDs[k]).value;
      && Rendered(ps) && e < |ps.entries| && !ps.entries[e].modifier.Between?
      && ps.entries[e].prefix.family == ps.family && ps.entries[e].prefix.Len() <= ps.family.HostBits()
    ensures var ps := SetByID(inp.prefixSets, pol.setIDs[k]).value;
      Offers(inp, pol, ps.family, ps.entries[e].prefix) && NetOf(ps.entries[e].prefix, ps.family)
  {
    var ps := SetByID(inp.prefixSets, pol.setIDs[k]).value;
    assert Patterns(ps.entries)[e] == ps.entries[e].AsPattern();
    assert Patterns(ps.entries)[e].Matches(ps.entries[e].prefix);
  }
}
