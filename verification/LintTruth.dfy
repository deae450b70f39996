/** What the findings claim, against what the generated filters do: each claim's exact condition. */
module LintTruth {
  import opened Options
  import opened Bird
  import opened Model
  import opened Compile
  import opened ImportMeaning
  import opened ImportChain
  import opened ExportMeaning
  import opened Lint
  import opened Sections
  import opened Scope
  import opened WellScopedOutput
  import opened Provenance
  import opened RenderedRouter

  // ----- when a finding is made

  lemma {:induction false} PrivateFound(p: Peer<Policy>, chain: seq<Policy>, w: Warning)
    ensures w in PrivateFindings(p, chain) <==>
              exists k | 0 <= k < |chain| ::
                chain[k].bogonASNs == BogonsAll && w == Warning(Danger, OnePeer(p.name), RejectsPrivateASN(p.remoteASN, chain[k].name))
  {
    if chain != [] {
      var n := |chain| - 1;
      PrivateFound(p, chain[..n], w);
      assert forall k | 0 <= k < n :: chain[..n][k] == chain[k];
    }
  }

  lemma {:induction false} RejectingIs(chain: seq<Policy>)
    ensures RejectingDefault(chain) != "" ==> exists k | 0 <= k < |chain| :: chain[k].defaultRoute == RejectDefault
  {
    if chain != [] {
      var n := |chain| - 1;
      RejectingIs(chain[..n]);
      if RejectingDefault(chain[..n]) != "" {
        var k :| 0 <= k < n && chain[..n][k].defaultRoute == RejectDefault;
        assert chain[k].defaultRoute == RejectDefault;
      }
    }
  }

  lemma {:induction false} DefaultFound(p: Peer<Policy>, rejecting: string, chain: seq<Policy>, w: Warning)
    requires w in DefaultFindings(p, rejecting, chain)
    ensures w.message.AcceptsNothingAtAll? ==> exists k | 0 <= k < |chain| :: chain[k].defaultRoute == OnlyDefault
    ensures w.message.AcceptsNothingAtAll? || w.message.DefaultUnreachable?
  {
    var n := |chain| - 1;
    if w in DefaultFindings(p, rejecting, chain[..n]) {
      DefaultFound(p, rejecting, chain[..n], w);
      if w.message.AcceptsNothingAtAll? {
        var k :| 0 <= k < n && chain[..n][k].defaultRoute == OnlyDefault;
        assert chain[k].defaultRoute == OnlyDefault;
      }
    }
  }

  lemma {:induction false} OriginFound(inp: Input, p: Peer<Policy>, chain: seq<Policy>, w: Warning)
    requires w in OriginFindings(inp, p, chain)
    ensures w.message.OriginsExclude?
    ensures exists k | 0 <= k < |chain| :: ExcludingSet(inp.asSets, chain[k], p.remoteASN).Some?
  {
    var n := |chain| - 1;
    if w in OriginFindings(inp, p, chain[..n]) {
      OriginFound(inp, p, chain[..n], w);
      var k :| 0 <= k < n && ExcludingSet(inp.asSets, chain[..n][k], p.remoteASN).Some?;
      assert chain[k] == chain[..n][k];
    } else {
      assert ExcludingSet(inp.asSets, chain[n], p.remoteASN).Some?;
    }
  }

  lemma {:induction false} EmptyFound(inp: Input, p: Peer<Policy>, chain: seq<Policy>, w: Warning)
    ensures w in EmptyFindings(inp, p, chain) <==>
              exists k | 0 <= k < |chain| ::
                SeemsEmpty(inp.prefixSets, chain[k])
                && w == Warning(Danger, OnePeer(p.name), PermitsNothing(chain[k].name, chain[k].setIDs != []))
  {
    if chain != [] {
      var n := |chain| - 1;
      EmptyFound(inp, p, chain[..n], w);
      assert forall k | 0 <= k < n :: chain[..n][k] == chain[k];
    }
  }

  /** Which rule a finding about a peer comes from. */
  lemma {:induction false} PeerFindingFrom(inp: Input, p: Peer<Policy>, w: Warning)
    requires w in PeerFindings(inp, p)
    ensures !p.IsIBGP()
    ensures match w.message
      case RejectsPrivateASN(_, _) => IsPrivate(Bogons(inp), p.remoteASN) && w in PrivateFindings(p, p.importPolicies)
      case AcceptsNothingAtAll(_, _) =>
        RejectingDefault(p.importPolicies) != "" && w in DefaultFindings(p, RejectingDefault(p.importPolicies), p.importPolicies)
      case OriginsExclude(_, _) => p.originPeerOnly && w in OriginFindings(inp, p, p.importPolicies)
      case PermitsNothing(_, _) => w in EmptyFindings(inp, p, p.exportPolicies)
      case _ => true
  {
    var chain, rejecting := p.importPolicies, RejectingDefault(p.importPolicies);
    PrivateFound(p, chain, w);
    EmptyFound(inp, p, p.exportPolicies, w);
    if rejecting != "" && w in DefaultFindings(p, rejecting, chain) { DefaultFound(p, rejecting, chain, w); }
    if p.originPeerOnly && w in OriginFindings(inp, p, chain) { OriginFound(inp, p, chain, w); }
  }

  // ----- when a chain accepts nothing

  lemma {:induction false} SameNet(inp: Input, pol: Policy, fam: Family, roa: Roa, r: Route, x: Route)
    requires x.net == r.net && x.path == r.path
    ensures ObjectsToNet(inp, pol, fam, roa, x) == ObjectsToNet(inp, pol, fam, roa, r)
  {
    assert BadPath(inp, pol, x) == BadPath(inp, pol, r);
  }

  /** Some policy of the chain discards the route's traffic: it honours blackholes, and the route is
      a host route that carries BLACKHOLE when it gets there, inside the policy's allow-list. */
  predicate ByBlackhole(inp: Input, p: Peer<Policy>, roa: Roa, r: Route) {
    exists k | 0 <= k < |p.importPolicies| ::
      Discards(inp, p.importPolicies[k], p.Fam(), After(inp, p.importPolicies, k, roa, Ingress(inp, p, r)))
  }

  /** The findings' claim: the session accepts no route, save to discard its traffic. */
  ghost predicate AcceptsNothing(inp: Input, p: Peer<Policy>) {
    forall roa, r | OfFamily(r, p.Fam()) && FilterVerdict(inp, p, roa, r).Accepted? ::
      ByBlackhole(inp, p, roa, r) && FilterVerdict(inp, p, roa, r).route.blackhole
  }

  /** Some policy of the chain is against the route's prefix or path. */
  predicate Opposed(inp: Input, p: Peer<Policy>, roa: Roa, r: Route) {
    exists k | 0 <= k < |p.importPolicies| :: ObjectsToNet(inp, p.importPolicies[k], p.Fam(), roa, r)
  }

  lemma {:induction false} ObjectionDecides(inp: Input, chain: seq<Policy>, fam: Family, roa: Roa, r: Route, t: Route, k: nat)
    requires k < |chain| && t.net == r.net && t.path == r.path && ObjectsToNet(inp, chain[k], fam, roa, r)
    ensures Decides(inp, chain, fam, roa, t, k)
  {
    AfterIsMarked(inp, chain, k, roa, t);
    SameNet(inp, chain[k], fam, roa, r, After(inp, chain, k, roa, t));
  }

  /** An opposed route gets in only as a blackhole. */
  lemma {:induction false} OpposedGetsInByBlackhole(inp: Input, p: Peer<Policy>, roa: Roa, r: Route)
    requires Opposed(inp, p, roa, r) && FilterVerdict(inp, p, roa, r).Accepted?
    ensures ByBlackhole(inp, p, roa, r) && FilterVerdict(inp, p, roa, r).route.blackhole
  {
    var k :| 0 <= k < |p.importPolicies| && ObjectsToNet(inp, p.importPolicies[k], p.Fam(), roa, r);
    ObjectionDecides(inp, p.importPolicies, p.Fam(), roa, r, Ingress(inp, p, r), k);
    AcceptedLocalPref(inp, p, roa, r);
  }

  lemma {:induction false} OpposedAcceptsNothing(inp: Input, p: Peer<Policy>)
    requires forall roa, r | OfFamily(r, p.Fam()) && PathAllowed(p, r) :: Opposed(inp, p, roa, r)
    ensures AcceptsNothing(inp, p)
  {
    forall roa, r | OfFamily(r, p.Fam()) && FilterVerdict(inp, p, roa, r).Accepted?
      ensures ByBlackhole(inp, p, roa, r) && FilterVerdict(inp, p, roa, r).route.blackhole
    {
      OpposedGetsInByBlackhole(inp, p, roa, r);
    }
  }

  /** So a router running the rendered configuration takes in on that session only what a policy
      discards, and nothing when none honours blackholes. */
  lemma {:induction false} SessionTakesNothingIn(inp: Input, p: Peer<Policy>, roa: Roa, r: Route)
    requires Render(inp).Ok? && RefersToModel(inp) && ChainsDirected(inp) && p in inp.peers && !p.IsIBGP()
    requires AcceptsNothing(inp, p) && OfFamily(r, p.Fam())
    ensures var got := Receive(Router(Configuration(inp), inp, roa), p, r);
      got.Some? ==> ByBlackhole(inp, p, roa, r) && got.value.blackhole
    ensures (forall k | 0 <= k < |p.importPolicies| :: !p.importPolicies[k].acceptBlackhole) ==>
              Receive(Router(Configuration(inp), inp, roa), p, r).None?
  {
    RenderedReceive(inp, p, roa, r);
  }

  /** "Accepts nothing at all": one policy rejects the default route, another everything else. */
  lemma {:induction false} DefaultFindingIsTrue(inp: Input, p: Peer<Policy>, w: Warning)
    requires w in PeerFindings(inp, p) && w.message.AcceptsNothingAtAll?
    ensures AcceptsNothing(inp, p)
  {
    var chain := p.importPolicies;
    PeerFindingFrom(inp, p, w);
    RejectingIs(chain);
    DefaultFound(p, RejectingDefault(chain), chain, w);
    var i :| 0 <= i < |chain| && chain[i].defaultRoute == RejectDefault;
    var j :| 0 <= j < |chain| && chain[j].defaultRoute == OnlyDefault;
    forall roa, r | OfFamily(r, p.Fam()) && PathAllowed(p, r)
      ensures Opposed(inp, p, roa, r)
    {
      if IsDefault(p.Fam(), r) {
        assert ObjectsToNet(inp, chain[i], p.Fam(), roa, r);
      } else {
        assert ObjectsToNet(inp, chain[j], p.Fam(), roa, r);
      }
    }
    OpposedAcceptsNothing(inp, p);
  }

  /** "Can never accept it": no policy order or blackhole gets the default route past the first
      policy that rejects it. */
  lemma {:induction false} DefaultNeverAccepted(inp: Input, p: Peer<Policy>, roa: Roa, r: Route)
    requires RejectingDefault(p.importPolicies) != "" && IsDefault(p.Fam(), r)
    ensures !FilterVerdict(inp, p, roa, r).Accepted?
  {
    var chain := p.importPolicies;
    RejectingIs(chain);
    var i :| 0 <= i < |chain| && chain[i].defaultRoute == RejectDefault;
    assert ObjectsToNet(inp, chain[i], p.Fam(), roa, r);
    forall k | 0 <= k < |chain|
      ensures !Discards(inp, chain[k], p.Fam(), After(inp, chain, k, roa, Ingress(inp, p, r)))
    {
      AfterIsMarked(inp, chain, k, roa, Ingress(inp, p, r));
    }
    if FilterVerdict(inp, p, roa, r).Accepted? { OpposedGetsInByBlackhole(inp, p, roa, r); }
  }

  /** "Will accept nothing": the peer must be the origin, and an AS set leaves it out. */
  lemma {:induction false} OriginFindingIsTrue(inp: Input, p: Peer<Policy>, w: Warning)
    requires w in PeerFindings(inp, p) && w.message.OriginsExclude?
    ensures AcceptsNothing(inp, p)
  {
    var chain := p.importPolicies;
    PeerFindingFrom(inp, p, w);
    OriginFound(inp, p, chain, w);
    var i :| 0 <= i < |chain| && ExcludingSet(inp.asSets, chain[i], p.remoteASN).Some?;
    forall roa, r | OfFamily(r, p.Fam()) && PathAllowed(p, r)
      ensures Opposed(inp, p, roa, r)
    {
      assert BadOrigin(inp, chain[i], r);
      assert ObjectsToNet(inp, chain[i], p.Fam(), roa, r);
    }
    OpposedAcceptsNothing(inp, p);
  }

  lemma {:induction false} PrivateIsBogon(list: seq<BogonASN>, asn: nat)
    requires IsPrivate(list, asn)
    ensures InRanges(asn, BogonRanges(list, false))
  {
    var k :| 0 <= k < |list| && list[k].isPrivate && list[k].range.low <= asn <= list[k].range.high;
    BogonRangesKeep(list, k);
  }

  lemma {:induction false} BogonRangesKeep(list: seq<BogonASN>, k: nat)
    requires k < |list|
    ensures k < |BogonRanges(list, false)| && BogonRanges(list, false)[k] == list[k].range
  {
    if k > 0 { BogonRangesKeep(list[1..], k - 1); }
  }

  /** Every path a session lets in meets the bogon list because of the peer's own private AS number
      exactly when the session checks where that number stands: first, or last. */
  lemma {:induction false} PathsMeetPrivateExactly(inp: Input, p: Peer<Policy>)
    requires IsPrivate(Bogons(inp), p.remoteASN)
    ensures (forall r | OfFamily(r, p.Fam()) && PathAllowed(p, r) :: MeetsAny(r.path, BogonRanges(Bogons(inp), false))) <==>
            p.remoteASN != 0 && (p.enforceFirstAS || p.originPeerOnly)
  {
    PrivateIsBogon(Bogons(inp), p.remoteASN);
    if p.remoteASN != 0 && (p.enforceFirstAS || p.originPeerOnly) {
      forall r | OfFamily(r, p.Fam()) && PathAllowed(p, r)
        ensures MeetsAny(r.path, BogonRanges(Bogons(inp), false))
      {
        var k := if p.enforceFirstAS then 0 else |r.path| - 1;
        assert r.path[k] == p.remoteASN;
      }
    } else {
      var r := Route(AnyRoute(p.Fam()), [], {}, 0, false);
      assert OfFamily(r, p.Fam()) && PathAllowed(p, r) && !MeetsAny(r.path, BogonRanges(Bogons(inp), false));
    }
  }

  /** "Will reject every route it receives" is true of a session that checks the first AS or the
      origin. */
  lemma {:induction false} PrivateFindingIsTrue(inp: Input, p: Peer<Policy>, w: Warning)
    requires w in PeerFindings(inp, p) && w.message.RejectsPrivateASN?
    requires p.remoteASN != 0 && (p.enforceFirstAS || p.originPeerOnly)
    ensures AcceptsNothing(inp, p)
  {
    var chain := p.importPolicies;
    PeerFindingFrom(inp, p, w);
    PrivateFound(p, chain, w);
    PathsMeetPrivateExactly(inp, p);
    var i :| 0 <= i < |chain| && chain[i].bogonASNs == BogonsAll;
    forall roa, r | OfFamily(r, p.Fam()) && PathAllowed(p, r)
      ensures Opposed(inp, p, roa, r)
    {
      assert ObjectsToNet(inp, chain[i], p.Fam(), roa, r);
    }
    OpposedAcceptsNothing(inp, p);
  }

  lemma {:induction false} FewerRanges(list: seq<BogonASN>, asn: nat)
    requires InRanges(asn, BogonRanges(list, true))
    ensures InRanges(asn, BogonRanges(list, false))
  {
    var more := BogonRanges(list, false);
    if list != [] {
      var rest := BogonRanges(list[1..], false);
      assert more == [list[0].range] + rest;
      if !list[0].isPrivate && list[0].range.low <= asn <= list[0].range.high {
        assert more[0] == list[0].range;
      } else {
        var some := BogonRanges(list, true);
        var k :| 0 <= k < |some| && some[k].low <= asn <= some[k].high;
        assert InRanges(asn, BogonRanges(list[1..], true)) by {
          assert BogonRanges(list[1..], true)[if list[0].isPrivate then k else k - 1] == some[k];
        }
        FewerRanges(list[1..], asn);
        var j :| 0 <= j < |rest| && rest[j].low <= asn <= rest[j].high;
        assert more[j + 1] == rest[j];
      }
    }
  }

  /** The policy has nothing else against the route: without its look at bogon AS numbers it lets it
      pass. */
  predicate OnlyLooksAtBogons(inp: Input, pol: Policy, fam: Family, roa: Roa, r: Route) {
    ImportVerdict(inp, pol.(bogonASNs := BogonsOff), fam, roa, r).Ended?
  }

  lemma {:induction false} PassesWithoutBogons(inp: Input, pol: Policy, fam: Family, roa: Roa, r: Route)
    requires OnlyLooksAtBogons(inp, pol, fam, roa, r) && !MeetsAny(r.path, BogonRanges(Bogons(inp), false))
    ensures ImportVerdict(inp, pol, fam, roa, r).Ended?
  {
    var off := pol.(bogonASNs := BogonsOff);
    assert Shut(inp, off, fam) == Shut(inp, pol, fam) && Discards(inp, off, fam, r) == Discards(inp, pol, fam, r);
    assert BadCommunity(inp, off, r) == BadCommunity(inp, pol, r) && NotListed(inp, off, r) == NotListed(inp, pol, r);
    assert BadOrigin(inp, off, r) == BadOrigin(inp, pol, r);
    if MeetsAny(r.path, BogonRanges(Bogons(inp), true)) {
      var k :| 0 <= k < |r.path| && InRanges(r.path[k], BogonRanges(Bogons(inp), true));
      FewerRanges(Bogons(inp), r.path[k]);
    }
  }

  /** Without either check the finding is raised all the same, and the session accepts every route
      whose path holds no bogon AS number and that its policies have nothing else against. */
  lemma {:induction false} PrivateFindingCanBeWrong(inp: Input, p: Peer<Policy>, k: nat, roa: Roa, r: Route)
    requires !p.IsIBGP() && IsPrivate(Bogons(inp), p.remoteASN) && !p.enforceFirstAS && !p.originPeerOnly
    requires k < |p.importPolicies| && p.importPolicies[k].bogonASNs == BogonsAll
    requires !MeetsAny(r.path, BogonRanges(Bogons(inp), false))
    requires forall j | 0 <= j < |p.importPolicies| ::
               OnlyLooksAtBogons(inp, p.importPolicies[j], p.Fam(), roa, After(inp, p.importPolicies, j, roa, Ingress(inp, p, r)))
    ensures Warning(Danger, OnePeer(p.name), RejectsPrivateASN(p.remoteASN, p.importPolicies[k].name)) in PeerFindings(inp, p)
    ensures FilterVerdict(inp, p, roa, r).Accepted?
  {
    var chain, t := p.importPolicies, Ingress(inp, p, r);
    PrivateFound(p, chain, Warning(Danger, OnePeer(p.name), RejectsPrivateASN(p.remoteASN, chain[k].name)));
    forall j | 0 <= j < |chain|
      ensures !Decides(inp, chain, p.Fam(), roa, t, j)
    {
      AfterIsMarked(inp, chain, j, roa, t);
      PassesWithoutBogons(inp, chain[j], p.Fam(), roa, After(inp, chain, j, roa, t));
    }
    FirstDecides(inp, chain, p.Fam(), roa, t, |chain|);
  }

  // ----- disabled allow-lists

  lemma {:induction false} DisabledFound(inp: Input, pols: seq<Policy>, w: Warning)
    ensures w in PolicyFindings(inp, pols) <==>
              exists k | 0 <= k < |pols| ::
                DisabledList(inp.prefixSets, pols[k]).Some?
                && w == Warning(Danger, Nobody, AllowListDisabled(pols[k].name, DisabledList(inp.prefixSets, pols[k]).value.name))
  {
    if pols != [] {
      var n := |pols| - 1;
      DisabledFound(inp, pols[..n], w);
      assert forall k | 0 <= k < n :: pols[..n][k] == pols[k];
    }
  }

  /** "Permits nothing and rejects every route": the finding names exactly the policies whose
      allow-list is off, and the function rendered for either family rejects every route, tagged
      blackholes included. */
  lemma {:induction false} DisabledFindingIsTrue(inp: Input, pol: Policy, fam: Family, roa: Roa, r: Route, depth: nat)
    requires Render(inp).Ok? && RefersToModel(inp) && pol in inp.policies && pol.isImport && OfFamily(r, fam)
    requires DisabledList(inp.prefixSets, pol).Some?
    ensures Warning(Danger, Nobody, AllowListDisabled(pol.name, DisabledList(inp.prefixSets, pol).value.name))
            in PolicyFindings(inp, inp.policies)
    ensures Run(Configuration(inp), roa, BodyOf(Configuration(inp), PolicyFunc(pol, fam)), r, depth) == Rejected
  {
    var cfg := Configuration(inp);
    var k :| 0 <= k < |inp.policies| && inp.policies[k] == pol;
    DisabledFound(inp, inp.policies, Warning(Danger, Nobody, AllowListDisabled(pol.name, DisabledList(inp.prefixSets, pol).value.name)));
    RenderedIsLoaded(inp);
    PolicyInConfig(inp, pol, fam);
    ImportBodyMeaning(cfg, inp, pol, fam, roa, r, depth);
  }

  /** A policy before the k-th discards the route's traffic. */
  predicate DiscardedBefore(inp: Input, chain: seq<Policy>, fam: Family, roa: Roa, t: Route, k: nat)
    requires k <= |chain|
  {
    exists j | 0 <= j < k :: Discards(inp, chain[j], fam, After(inp, chain, j, roa, t))
  }

  lemma {:induction false} ShutChain(inp: Input, chain: seq<Policy>, fam: Family, roa: Roa, t: Route, k: nat)
    requires k < |chain| && DisabledList(inp.prefixSets, chain[k]).Some?
    ensures !ChainVerdict(inp, chain, fam, roa, t).Ended?
    ensures ChainVerdict(inp, chain, fam, roa, t).Accepted? ==> DiscardedBefore(inp, chain, fam, roa, t, k)
  {
    var i := 0;
    while i < k && !Decides(inp, chain, fam, roa, t, i)
      invariant i <= k && forall j | 0 <= j < i :: !Decides(inp, chain, fam, roa, t, j)
    {
      i := i + 1;
    }
    FirstDecides(inp, chain, fam, roa, t, i);
  }

  /** A session with such a policy in its chain takes in at most what an earlier policy discards; one
      whose chain starts with it takes in nothing. */
  lemma {:induction false} DisabledListShutsSession(inp: Input, p: Peer<Policy>, k: nat, roa: Roa, r: Route)
    requires Render(inp).Ok? && RefersToModel(inp) && ChainsDirected(inp) && p in inp.peers && !p.IsIBGP()
    requires k < |p.importPolicies| && DisabledList(inp.prefixSets, p.importPolicies[k]).Some? && OfFamily(r, p.Fam())
    ensures Receive(Router(Configuration(inp), inp, roa), p, r).Some? ==>
              DiscardedBefore(inp, p.importPolicies, p.Fam(), roa, Ingress(inp, p, r), k)
    ensures k == 0 ==> Receive(Router(Configuration(inp), inp, roa), p, r).None?
  {
    RenderedReceive(inp, p, roa, r);
    ShutChain(inp, p.importPolicies, p.Fam(), roa, Ingress(inp, p, r), k);
  }
}
