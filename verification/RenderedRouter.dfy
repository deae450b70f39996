/** A router that runs what birdy rendered: from "the model renders" to what its sessions do, with
    no assumption left about the configuration. */
module RenderedRouter {
  import opened Options
  import opened Bird
  import opened Model
  import opened Compile
  import opened ImportMeaning
  import opened ImportChain
  import opened ExportMeaning
  import opened Sections
  import opened Scope
  import opened WellScopedOutput
  import opened Provenance

  /** Import chains hold import policies, export chains export policies. */
  ghost predicate ChainsDirected(inp: Input) {
    forall k | 0 <= k < |inp.peers| :: Imports(inp.peers[k].importPolicies) && Exports(inp.peers[k].exportPolicies)
  }

  /** The configuration birdy writes for a model. */
  function Configuration(inp: Input): Config {
    match Render(inp)
    case Ok(secs) => Decls(secs)
    case Err(_) => []
  }

  lemma {:induction false} ProtocolInConfig(inp: Input, p: Peer<Policy>) returns (d: Decl)
    requires AllSections(inp).Ok? && p in inp.peers
    ensures d in Decls(AllSections(inp).value)
    ensures d.BgpProtocol? && d.name == p.name && d.channel == ChannelOf(p)
  {
    var pols, templates, peers := ConfigIs(inp);
    var decls := PeerDecls(inp, p, HasTemplate(UsedTemplates(inp.templates, inp.peers), p.templateName));
    d := decls[|decls| - 1];
    PeerMember(inp, peers, p, d);
  }

  lemma {:induction false} ConfigurationIs(inp: Input)
    requires Render(inp).Ok?
    ensures AllSections(inp).Ok? && Configuration(inp) == Decls(AllSections(inp).value) && UniqueNames(Configuration(inp))
  {
    RenderedUnique(inp);
  }

  lemma {:induction false} SessionDeclared(inp: Input, p: Peer<Policy>)
    requires Render(inp).Ok? && p in inp.peers
    ensures SessionChannel(Configuration(inp), p.name) == Some(ChannelOf(p))
  {
    ConfigurationIs(inp);
    var d := ProtocolInConfig(inp, p);
    ChannelFound(Configuration(inp), d);
  }

  lemma {:induction false} ChannelFound(cfg: Config, d: Decl)
    requires UniqueNames(cfg) && d in cfg && d.BgpProtocol?
    ensures SessionChannel(cfg, d.name) == Some(d.channel)
  {
    FindUnique(cfg, d);
  }

  lemma {:induction false} ChainInConfig(inp: Input, chain: seq<Policy>, fam: Family)
    requires Render(inp).Ok? && RefersToModel(inp) && forall k | 0 <= k < |chain| :: chain[k] in inp.policies
    ensures ChainRenders(inp, chain, fam)
  {
    forall k | 0 <= k < |chain|
      ensures PolicyBody(inp, chain[k], fam).Ok?
    {
      PolicyInConfig(inp, chain[k], fam);
    }
  }

  /** Every session of a model that renders is rendered. */
  lemma {:induction false} RenderedSession(inp: Input, p: Peer<Policy>, roa: Roa)
    requires Render(inp).Ok? && RefersToModel(inp) && ChainsDirected(inp) && p in inp.peers
    ensures SessionRendered(Router(Configuration(inp), inp, roa), p)
  {
    assert PeerResolves(inp, p);
    RenderedIsLoaded(inp);
    SessionDeclared(inp, p);
    ChainInConfig(inp, p.importPolicies, p.Fam());
    ChainInConfig(inp, p.exportPolicies, p.Fam());
  }

  /** What a session of a rendered router takes in, in the model's own terms. */
  lemma {:induction false} RenderedReceive(inp: Input, p: Peer<Policy>, roa: Roa, r: Route)
    requires Render(inp).Ok? && RefersToModel(inp) && ChainsDirected(inp) && p in inp.peers && OfFamily(r, p.Fam())
    ensures Receive(Router(Configuration(inp), inp, roa), p, r) ==
            TakenIn(inp, p, roa, r)
  {
    RenderedSession(inp, p, roa);
    ReceiveMeaning(Router(Configuration(inp), inp, roa), p, r);
  }

  /** What it announces: nothing on an external session without export policies, and otherwise
      what some policy permits and none up to it vetoes. */
  lemma {:induction false} RenderedAnnounce(inp: Input, p: Peer<Policy>, roa: Roa, r: Route)
    requires Render(inp).Ok? && RefersToModel(inp) && ChainsDirected(inp) && p in inp.peers
    ensures Announce(Router(Configuration(inp), inp, roa), p, r) ==
            LetOut(inp, p, r)
  {
    RenderedSession(inp, p, roa);
    AnnounceMeaning(Router(Configuration(inp), inp, roa), p, r);
  }

  /** The route a session announces, next to the one the router holds. Without export policies it is
      that route, whatever the session's prepending; with them its path is the old one behind
      exactly `prependCount` copies of the router's own number, and of its communities none is
      lost and nothing is added but the drain signal and the operator's. */
  lemma {:induction false} AnnouncedRoute(inp: Input, p: Peer<Policy>, roa: Roa, r: Route)
    requires Render(inp).Ok? && RefersToModel(inp) && ChainsDirected(inp) && p in inp.peers
    requires Announce(Router(Configuration(inp), inp, roa), p, r).Some?
    ensures var x := Announce(Router(Configuration(inp), inp, roa), p, r).value;
      && x.net == r.net && x.localPref == r.localPref && x.blackhole == r.blackhole
      && if p.exportPolicies == [] then x == r && p.IsIBGP() else
           && |x.path| == p.prependCount + |r.path| && x.path[p.prependCount..] == r.path
           && (forall k | 0 <= k < p.prependCount :: x.path[k] == inp.localASN)
           && r.communities <= x.communities
           && forall c | c in x.communities - r.communities ::
                (p.drained && c == GRACEFUL_SHUTDOWN) || c in ResolvedRefs(inp.communities, p.exportCommunities)
  {
    RenderedAnnounce(inp, p, roa, r);
    PrependedPath(inp.localASN, p.prependCount, r.path);
  }

  /** What a rendered file means: a router that runs it takes in and lets out on every session what
      the model's policies say. */
  ghost predicate RunsAsModelled(inp: Input, cfg: Config) {
    TakesIn(inp, cfg) && LetsOut(inp, cfg)
  }

  ghost predicate TakesIn(inp: Input, cfg: Config) {
    forall p, roa, r | p in inp.peers && OfFamily(r, p.Fam()) ::
      Receive(Router(cfg, inp, roa), p, r) == TakenIn(inp, p, roa, r)
  }

  ghost predicate LetsOut(inp: Input, cfg: Config) {
    forall p, roa, r | p in inp.peers :: Announce(Router(cfg, inp, roa), p, r) == LetOut(inp, p, r)
  }

  lemma {:induction false} RenderedTakesIn(inp: Input, cfg: Config)
    requires Render(inp).Ok? && RefersToModel(inp) && ChainsDirected(inp) && cfg == Configuration(inp)
    ensures TakesIn(inp, cfg)
  {
    forall p, roa, r | p in inp.peers && OfFamily(r, p.Fam())
      ensures Receive(Router(cfg, inp, roa), p, r) == TakenIn(inp, p, roa, r)
    {
      RenderedReceive(inp, p, roa, r);
    }
  }

  lemma {:induction false} RenderedLetsOut(inp: Input, cfg: Config)
    requires Render(inp).Ok? && RefersToModel(inp) && ChainsDirected(inp) && cfg == Configuration(inp)
    ensures LetsOut(inp, cfg)
  {
    forall p, roa, r | p in inp.peers
      ensures Announce(Router(cfg, inp, roa), p, r) == LetOut(inp, p, r)
    {
      RenderedAnnounce(inp, p, roa, r);
    }
  }

  lemma {:induction false} RenderedRuns(inp: Input)
    requires Render(inp).Ok? && RefersToModel(inp) && ChainsDirected(inp)
    ensures RunsAsModelled(inp, Configuration(inp))
  {
    RenderedTakesIn(inp, Configuration(inp));
    RenderedLetsOut(inp, Configuration(inp));
  }

  /** No leak between rendered routers: a session that announces only one role's routes announces
      what came in on a session of that role, whatever the neighbours sent and however many
      internal sessions lie between. */
  lemma {:induction false} RenderedNoLeak(edge: Input, p: Peer<Policy>, roa: Roa, r: Route, hops: seq<Hop>,
                                          exit: Input, q: Peer<Policy>, roa': Roa, role: Role)
    requires Render(edge).Ok? && RefersToModel(edge) && ChainsDirected(edge) && p in edge.peers && !p.IsIBGP()
    requires Render(exit).Ok? && RefersToModel(exit) && ChainsDirected(exit) && q in exit.peers && !q.IsIBGP()
    requires exit.localASN == edge.localASN && OfFamily(r, p.Fam())
    requires var x, y := Router(Configuration(edge), edge, roa), Router(Configuration(exit), exit, roa');
      && NoForgedTag(x, p) && NoForgedTag(y, q)
      && Travel(Receive(x, p, r), hops).Some? && Announce(y, q, Travel(Receive(x, p, r), hops).value).Some?
    requires forall k | 0 <= k < |hops| :: InternalHop(hops[k], edge.localASN, p.Fam())
    requires forall k | 0 <= k < |q.exportPolicies| :: OnlySource(q.exportPolicies[k], role)
    ensures p.role == role
  {
    RenderedSession(edge, p, roa);
    RenderedSession(exit, q, roa');
    NoLeak(Router(Configuration(edge), edge, roa), p, r, hops, Router(Configuration(exit), exit, roa'), q, role);
  }
}
