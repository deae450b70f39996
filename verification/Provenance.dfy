/** Where a route entered the network: the tag stamped at the edge survives every internal
    session, so an export policy that announces customers' routes announces nothing else. */
module Provenance {
  import opened Options
  import opened Bird
  import opened Model
  import opened Compile
  import opened ImportMeaning
  import opened ImportChain
  import opened ExportMeaning
  import opened Sections

  /** A router running the configuration birdy rendered for its model. */
  datatype Router = Router(cfg: Config, inp: Input, roa: Roa)

  /** The channel of a session, as the configuration declares it. */
  function SessionChannel(cfg: Config, name: string): Option<Channel> {
    match Find(cfg, name)
    case Some(BgpProtocol(_, _, _, channel)) => Some(channel)
    case _ => None
  }

  function Kept(o: Outcome): Option<Route> {
    match o
    case Accepted(r) => Some(r)
    case _ => None
  }

  /** What a router makes of a route one of its sessions sends it. */
  function Receive(x: Router, p: Peer<Policy>, r: Route): Option<Route> {
    match SessionChannel(x.cfg, p.name)
    case None => None
    case Some(channel) =>
      match channel.imports
      case ImportAll => Some(r)
      case ImportFilter(f) => Kept(RunFilter(x.cfg, x.roa, BodyOf(x.cfg, f), r))
  }

  /** What a router announces on a session. */
  function Announce(x: Router, p: Peer<Policy>, r: Route): Option<Route> {
    match SessionChannel(x.cfg, p.name)
    case None => None
    case Some(channel) =>
      match channel.exports
      case ExportAll => Some(r)
      case ExportNone => None
      case ExportFilter(f) => Kept(RunFilter(x.cfg, x.roa, BodyOf(x.cfg, f), r))
  }

  /** The session is rendered into the router's configuration, policies and communities included. */
  ghost predicate SessionRendered(x: Router, p: Peer<Policy>) {
    && Loaded(x.cfg, x.inp) && p in x.inp.peers && SessionChannel(x.cfg, p.name) == Some(ChannelOf(p))
    && ChainRenders(x.inp, p.importPolicies, p.Fam()) && Imports(p.importPolicies)
    && ChainRenders(x.inp, p.exportPolicies, p.Fam()) && Exports(p.exportPolicies)
    && KnownRefs(x.inp.communities, p.importCommunities) && KnownRefs(x.inp.communities, p.exportCommunities)
  }

  /** What a session takes in, in the model's own terms: an internal one without policies takes
      everything. */
  function TakenIn(inp: Input, p: Peer<Policy>, roa: Roa, r: Route): Option<Route> {
    if p.IsIBGP() && p.importPolicies == [] then Some(r) else Kept(FilterVerdict(inp, p, roa, r))
  }

  /** What a session lets out: without policies an internal one may announce all it has, an
      external one nothing. */
  ghost function LetOut(inp: Input, p: Peer<Policy>, r: Route): Option<Route> {
    if p.exportPolicies == [] then
      if p.IsIBGP() && p.ibgpExportDefault == AnnounceAll then Some(r) else None
    else if Announces(inp, p.exportPolicies, p.Fam(), Egress(inp, p, r)) then Some(Egress(inp, p, r))
    else None
  }

  lemma {:induction false} ReceiveMeaning(x: Router, p: Peer<Policy>, r: Route)
    requires SessionRendered(x, p) && OfFamily(r, p.Fam())
    ensures Receive(x, p, r) == TakenIn(x.inp, p, x.roa, r)
  {
    ImportFilterMeaning(x.cfg, x.inp, p, x.roa, r);
  }

  lemma {:induction false} AnnounceMeaning(x: Router, p: Peer<Policy>, r: Route)
    requires SessionRendered(x, p)
    ensures Announce(x, p, r) == LetOut(x.inp, p, r)
  {
    ExportFilterMeaning(x.cfg, x.inp, p, x.roa, r);
  }

  /** The origin tags a route carries. */
  function OriginTags(localASN: nat, r: Route): set<Community> {
    set c | c in r.communities && c.Large? && c.a == localASN && c.b == 1
  }

  /** No community the operator attaches on this session is an origin tag. */
  ghost predicate NoForgedTag(x: Router, p: Peer<Policy>) {
    forall c | c in ResolvedRefs(x.inp.communities, p.importCommunities)
               || c in ResolvedRefs(x.inp.communities, p.exportCommunities) ::
      !(c.Large? && c.a == x.inp.localASN && c.b == 1)
  }

  lemma {:induction false} ChainKeepsTags(inp: Input, chain: seq<Policy>, fam: Family, roa: Roa, r: Route)
    requires !ChainVerdict(inp, chain, fam, roa, r).Rejected?
    ensures OriginTags(inp.localASN, ChainVerdict(inp, chain, fam, roa, r).route) == OriginTags(inp.localASN, r)
    ensures ChainVerdict(inp, chain, fam, roa, r).route.net == r.net
    decreases |chain|
  {
    if chain != [] {
      match ImportVerdict(inp, chain[0], fam, roa, r)
      case Ended(r') =>
        assert OriginTags(inp.localASN, r') == OriginTags(inp.localASN, r);
        ChainKeepsTags(inp, chain[1..], fam, roa, r');
      case Accepted(r') =>
        assert r'.communities == r.communities;
      case _ =>
    }
  }

  /** The communities a session's filter starts from: an external one strips every tag the
      neighbour sent and stamps its own. */
  lemma {:induction false} IngressTags(x: Router, p: Peer<Policy>, r: Route)
    requires NoForgedTag(x, p)
    ensures OriginTags(x.inp.localASN, Ingress(x.inp, p, r)) ==
            if p.IsIBGP() then OriginTags(x.inp.localASN, r) else {Tag(x.inp.localASN, p.role)}
  {
  }

  lemma {:induction false} FilterKeepsTags(inp: Input, p: Peer<Policy>, roa: Roa, r: Route)
    requires Kept(FilterVerdict(inp, p, roa, r)).Some?
    ensures var out := Kept(FilterVerdict(inp, p, roa, r)).value;
      OriginTags(inp.localASN, out) == OriginTags(inp.localASN, Ingress(inp, p, r)) && out.net == r.net
  {
    var v := ChainVerdict(inp, p.importPolicies, p.Fam(), roa, Ingress(inp, p, r));
    ChainKeepsTags(inp, p.importPolicies, p.Fam(), roa, Ingress(inp, p, r));
    assert OriginTags(inp.localASN, v.route.(localPref := 0)) == OriginTags(inp.localASN, v.route);
  }

  /** Whatever communities an external neighbour sent, a route accepted from it carries exactly
      the tag of that session's role. */
  lemma {:induction false} EdgeStampsRole(x: Router, p: Peer<Policy>, r: Route)
    requires SessionRendered(x, p) && !p.IsIBGP() && NoForgedTag(x, p) && OfFamily(r, p.Fam())
    requires Receive(x, p, r).Some?
    ensures OriginTags(x.inp.localASN, Receive(x, p, r).value) == {Tag(x.inp.localASN, p.role)}
    ensures Receive(x, p, r).value.net == r.net
  {
    ReceiveMeaning(x, p, r);
    IngressTags(x, p, r);
    FilterKeepsTags(x.inp, p, x.roa, r);
  }

  lemma {:induction false} InternalReceiveKeeps(x: Router, p: Peer<Policy>, r: Route)
    requires SessionRendered(x, p) && p.IsIBGP() && NoForgedTag(x, p) && OfFamily(r, p.Fam())
    requires Receive(x, p, r).Some?
    ensures OriginTags(x.inp.localASN, Receive(x, p, r).value) == OriginTags(x.inp.localASN, r)
    ensures Receive(x, p, r).value.net == r.net
  {
    ReceiveMeaning(x, p, r);
    if p.importPolicies != [] {
      IngressTags(x, p, r);
      FilterKeepsTags(x.inp, p, x.roa, r);
    }
  }

  lemma {:induction false} AnnounceKeeps(x: Router, p: Peer<Policy>, r: Route)
    requires SessionRendered(x, p) && NoForgedTag(x, p) && Announce(x, p, r).Some?
    ensures OriginTags(x.inp.localASN, Announce(x, p, r).value) == OriginTags(x.inp.localASN, r)
    ensures Announce(x, p, r).value.net == r.net
  {
    if p.exportPolicies != [] {
      AnnounceMeaning(x, p, r);
      assert OriginTags(x.inp.localASN, Egress(x.inp, p, r)) == OriginTags(x.inp.localASN, r);
    }
  }

  /** One internal session: `sender` announces on `out`, `receiver` takes it in on `into`. */
  datatype Hop = Hop(sender: Router, out: Peer<Policy>, receiver: Router, into: Peer<Policy>)

  ghost predicate InternalHop(h: Hop, localASN: nat, fam: Family) {
    && SessionRendered(h.sender, h.out) && SessionRendered(h.receiver, h.into)
    && h.sender.inp.localASN == localASN == h.receiver.inp.localASN
    && h.out.IsIBGP() && h.into.IsIBGP() && h.into.Fam() == fam
    && NoForgedTag(h.sender, h.out) && NoForgedTag(h.receiver, h.into)
  }

  function Travel(r: Option<Route>, hops: seq<Hop>): Option<Route>
    decreases |hops|
  {
    if r.None? || hops == [] then r
    else
      match Announce(hops[0].sender, hops[0].out, r.value)
      case None => None
      case Some(a) => Travel(Receive(hops[0].receiver, hops[0].into, a), hops[1..])
  }

  lemma {:induction false} TravelKeepsTags(r: Route, hops: seq<Hop>, localASN: nat, fam: Family)
    requires OfFamily(r, fam) && Travel(Some(r), hops).Some?
    requires forall k | 0 <= k < |hops| :: InternalHop(hops[k], localASN, fam)
    ensures OriginTags(localASN, Travel(Some(r), hops).value) == OriginTags(localASN, r)
    ensures Travel(Some(r), hops).value.net == r.net
    decreases |hops|
  {
    if hops != [] {
      var h := hops[0];
      assert InternalHop(h, localASN, fam);
      AnnounceKeeps(h.sender, h.out, r);
      var a := Announce(h.sender, h.out, r).value;
      if Receive(h.receiver, h.into, a).Some? {
        InternalReceiveKeeps(h.receiver, h.into, a);
        TravelKeepsTags(Receive(h.receiver, h.into, a).value, hops[1..], localASN, fam);
      }
    }
  }

  /** After any number of internal hops between routers birdy rendered, a route carries exactly
      the role tag of the session it entered on. */
  lemma {:induction false} ProvenanceSurvives(edge: Router, p: Peer<Policy>, r: Route, hops: seq<Hop>)
    requires SessionRendered(edge, p) && !p.IsIBGP() && NoForgedTag(edge, p) && OfFamily(r, p.Fam())
    requires forall k | 0 <= k < |hops| :: InternalHop(hops[k], edge.inp.localASN, p.Fam())
    requires Travel(Receive(edge, p, r), hops).Some?
    ensures OriginTags(edge.inp.localASN, Travel(Receive(edge, p, r), hops).value) == {Tag(edge.inp.localASN, p.role)}
    ensures Travel(Receive(edge, p, r), hops).value.net == r.net
  {
    EdgeStampsRole(edge, p, r);
    TravelKeepsTags(Receive(edge, p, r).value, hops, edge.inp.localASN, p.Fam());
  }

  /** The policy announces what one role sent us and nothing else. */
  predicate OnlySource(pol: Policy, role: Role) {
    && !pol.announceEverything && !pol.announceDefault && pol.setIDs == [] && pol.matchCommunity.None?
    && (pol.announceFromUpstream ==> role == Upstream)
    && (pol.announceFromIX ==> role == IXPeer)
    && (pol.announceFromCustomer ==> role == Customer)
  }

  lemma {:induction false} OnlyTagged(inp: Input, pol: Policy, fam: Family, t: Route, tagged: Role, role: Role)
    requires OnlySource(pol, role) && tagged != IBGP
    requires OriginTags(inp.localASN, t) == {Tag(inp.localASN, tagged)}
    requires Permits(inp, pol, fam, t)
    ensures tagged == role
  {
    assert FromSource(inp, pol, t);
    if Tag(inp.localASN, Upstream) in t.communities { assert Tag(inp.localASN, Upstream) in OriginTags(inp.localASN, t); }
    if Tag(inp.localASN, IXPeer) in t.communities { assert Tag(inp.localASN, IXPeer) in OriginTags(inp.localASN, t); }
    if Tag(inp.localASN, Customer) in t.communities { assert Tag(inp.localASN, Customer) in OriginTags(inp.localASN, t); }
  }

  lemma {:induction false} AnnouncedRole(exit: Router, q: Peer<Policy>, x: Route, tagged: Role, role: Role)
    requires SessionRendered(exit, q) && !q.IsIBGP() && NoForgedTag(exit, q) && tagged != IBGP
    requires forall k | 0 <= k < |q.exportPolicies| :: OnlySource(q.exportPolicies[k], role)
    requires OriginTags(exit.inp.localASN, x) == {Tag(exit.inp.localASN, tagged)}
    requires Announce(exit, q, x).Some?
    ensures tagged == role
  {
    AnnounceMeaning(exit, q, x);
    AnnounceKeeps(exit, q, x);
    var t := Egress(exit.inp, q, x);
    var k :| 0 <= k < |q.exportPolicies| && Permits(exit.inp, q.exportPolicies[k], q.Fam(), t);
    OnlyTagged(exit.inp, q.exportPolicies[k], q.Fam(), t, tagged, role);
  }

  /** No leak: a session whose export policies announce only one role's routes announces a
      route that came in from outside only if it came from a session of that role. */
  lemma {:induction false} NoLeak(edge: Router, p: Peer<Policy>, r: Route, hops: seq<Hop>, exit: Router, q: Peer<Policy>, role: Role)
    requires SessionRendered(edge, p) && !p.IsIBGP() && NoForgedTag(edge, p) && OfFamily(r, p.Fam())
    requires forall k | 0 <= k < |hops| :: InternalHop(hops[k], edge.inp.localASN, p.Fam())
    requires SessionRendered(exit, q) && !q.IsIBGP() && NoForgedTag(exit, q) && exit.inp.localASN == edge.inp.localASN
    requires forall k | 0 <= k < |q.exportPolicies| :: OnlySource(q.exportPolicies[k], role)
    requires Travel(Receive(edge, p, r), hops).Some?
    requires Announce(exit, q, Travel(Receive(edge, p, r), hops).value).Some?
    ensures p.role == role
  {
    ProvenanceSurvives(edge, p, r, hops);
    AnnouncedRole(exit, q, Travel(Receive(edge, p, r), hops).value, p.role, role);
  }
}
