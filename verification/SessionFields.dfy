/** What a rendered session is, said of the peer's own fields: the options in force on it kind by kind,
    its channel, what it takes in and what it lets out.
    (internal/render/render.go, writePeer, writeSessionOptions, writeTemplate, writePeerImportFilter
    and writePeerExportFilter) */
module SessionFields {
  import opened Options
  import opened Bird
  import opened Model
  import opened Compile
  import opened ImportMeaning
  import opened ImportChain
  import opened ExportMeaning
  import opened Sections
  import opened Scope
  import opened WellScopedOutput
  import opened Provenance
  import opened RenderedRouter
  import opened PolicyFields
  import opened PeerTemplates
  import opened Factoring

  // ----- options

  /** The option of a kind a session should have. The role of RFC 9234 is our own: to an upstream we
      are the customer, to a customer the provider, at an exchange a peer. */
  function Wanted(inp: Input, p: Peer<Policy>, kind: OptionKind): Option<SessionOption> {
    match kind
    case KLocal => Some(LocalAs(p.localIP))
    case KRole =>
      if !p.bgpRole then None
      else
        (match p.role
         case Upstream => Some(LocalRole("customer"))
         case Customer => Some(LocalRole("provider"))
         case IXPeer => Some(LocalRole("peer"))
         case IBGP => None)
    case KMultihop => if p.multihop == 0 then None else Some(Multihop(p.multihop))
    case KTtl => if p.gtsm then Some(TtlSecurity) else None
    case KPassive => if p.passive then Some(Passive) else None
    case KBfd => if p.bfd then Some(Bfd(p.bfdInterval, p.bfdMultiplier)) else None
    case KGraceful =>
      (match p.gracefulRestart
       case GROn => Some(GracefulRestart(true))
       case GROff => Some(GracefulRestart(false))
       case GRAware => None)
    case KRrClient => if p.role == IBGP && p.rrClient then Some(RrClient) else None
    case KClusterId => if p.role == IBGP && p.rrClient && inp.rrClusterID != "" then Some(RrClusterId(inp.rrClusterID)) else None
    case KDisabled => if p.enabled then None else Some(Disabled)
    case KNeighbor => Some(Neighbor(p.neighborIP, p.remoteASN))
    case KInterface => if p.iface == "" then None else Some(Interface(p.iface))
    case KPassword => if p.password == "" then None else Some(Password(p.password))
  }

  /** The option of a kind in a list with at most one option. */
  function Pick(options: seq<SessionOption>, k: OptionKind): Option<SessionOption> {
    if options != [] && KindOfOption(options[0]) == k then Some(options[0]) else None
  }

  function OneIf(on: bool, o: SessionOption): (s: seq<SessionOption>)
    ensures |s| <= 1
  {
    if on then [o] else []
  }

  lemma {:induction false} LastOfOne(options: seq<SessionOption>, k: OptionKind)
    requires |options| <= 1
    ensures Last(options, k) == Pick(options, k)
  {
    if options != [] { assert options[..0] == []; }
  }

  lemma {:induction false} LastOfSix(a: seq<SessionOption>, b: seq<SessionOption>, c: seq<SessionOption>, d: seq<SessionOption>,
                                     e: seq<SessionOption>, f: seq<SessionOption>, k: OptionKind)
    requires |a| <= 1 && |b| <= 1 && |c| <= 1 && |d| <= 1 && |e| <= 1 && |f| <= 1
    ensures Last(a + b + c + d + e + f, k) ==
            Either(Either(Either(Either(Either(Pick(a, k), Pick(b, k)), Pick(c, k)), Pick(d, k)), Pick(e, k)), Pick(f, k))
  {
    FullLast(a, b, c, d, e, f, k);
    LastOfOne(a, k);
    LastOfOne(b, k);
    LastOfOne(c, k);
    LastOfOne(d, k);
    LastOfOne(e, k);
    LastOfOne(f, k);
  }

  function GracefulOption(m: GracefulMode): (s: seq<SessionOption>)
    ensures |s| <= 1
  {
    match m case GROn => [GracefulRestart(true)] case GROff => [GracefulRestart(false)] case GRAware => []
  }

  lemma {:induction false} ShapeParts(p: Peer<Policy>)
    ensures SessionOptions(TemplateFromPeer(p)) ==
            OneIf(p.bgpRole && p.role != IBGP, LocalRole(RoleName(p.role))) + OneIf(p.multihop > 0, Multihop(p.multihop))
            + OneIf(p.gtsm, TtlSecurity) + OneIf(p.passive, Passive) + OneIf(p.bfd, Bfd(p.bfdInterval, p.bfdMultiplier))
            + GracefulOption(p.gracefulRestart)
  {
  }

  lemma {:induction false} PickIf(on: bool, o: SessionOption, k: OptionKind)
    ensures Pick(OneIf(on, o), k) == if on && KindOfOption(o) == k then Some(o) else None
  {
  }

  lemma {:induction false} RolePart(inp: Input, p: Peer<Policy>, k: OptionKind)
    ensures Pick(OneIf(p.bgpRole && p.role != IBGP, LocalRole(RoleName(p.role))), k) == if k == KRole then Wanted(inp, p, k) else None
  {
  }

  lemma {:induction false} PlainParts(inp: Input, p: Peer<Policy>, k: OptionKind)
    ensures Pick(OneIf(p.multihop > 0, Multihop(p.multihop)), k) == if k == KMultihop then Wanted(inp, p, k) else None
    ensures Pick(OneIf(p.gtsm, TtlSecurity), k) == if k == KTtl then Wanted(inp, p, k) else None
    ensures Pick(OneIf(p.passive, Passive), k) == if k == KPassive then Wanted(inp, p, k) else None
    ensures Pick(OneIf(p.bfd, Bfd(p.bfdInterval, p.bfdMultiplier)), k) == if k == KBfd then Wanted(inp, p, k) else None
  {
  }

  lemma {:induction false} SixKinds(w: Option<SessionOption>, a: Option<SessionOption>, b: Option<SessionOption>, c: Option<SessionOption>,
                                    d: Option<SessionOption>, e: Option<SessionOption>, f: Option<SessionOption>, k: OptionKind)
    requires a == if k == KRole then w else None
    requires b == if k == KMultihop then w else None
    requires c == if k == KTtl then w else None
    requires d == if k == KPassive then w else None
    requires e == if k == KBfd then w else None
    requires f == if k == KGraceful then w else None
    ensures Either(Either(Either(Either(Either(a, b), c), d), e), f) == if k in SHAPE_KINDS then w else None
  {
  }

  lemma {:induction false} ShapeWanted(inp: Input, p: Peer<Policy>, k: OptionKind)
    ensures Last(SessionOptions(TemplateFromPeer(p)), k) == if k in SHAPE_KINDS then Wanted(inp, p, k) else None
  {
    var a, b := OneIf(p.bgpRole && p.role != IBGP, LocalRole(RoleName(p.role))), OneIf(p.multihop > 0, Multihop(p.multihop));
    var c, d, e := OneIf(p.gtsm, TtlSecurity), OneIf(p.passive, Passive), OneIf(p.bfd, Bfd(p.bfdInterval, p.bfdMultiplier));
    var f := GracefulOption(p.gracefulRestart);
    ShapeParts(p);
    LastOfSix(a, b, c, d, e, f, k);
    RolePart(inp, p, k);
    PlainParts(inp, p, k);
    PickGraceful(p.gracefulRestart, k);
    SixKinds(Wanted(inp, p, k), Pick(a, k), Pick(b, k), Pick(c, k), Pick(d, k), Pick(e, k), Pick(f, k), k);
  }

  lemma {:induction false} PickGraceful(m: GracefulMode, k: OptionKind)
    ensures Pick(GracefulOption(m), k) ==
            if k != KGraceful || m == GRAware then None else Some(GracefulRestart(m == GROn))
  {
  }

  lemma {:induction false} ReflectorWanted(inp: Input, p: Peer<Policy>, k: OptionKind)
    ensures Last(ReflectorOptions(inp, TemplateFromPeer(p)), k) == if k in REFLECTOR_KINDS then Wanted(inp, p, k) else None
  {
    if p.role == IBGP && p.rrClient {
      var id := OneIf(inp.rrClusterID != "", RrClusterId(inp.rrClusterID));
      LastConcat([RrClient], id, k);
      LastOfOne([RrClient], k);
      LastOfOne(id, k);
    }
  }

  /** The whole block, in the order of its lines. */
  lemma {:induction false} FullWanted(inp: Input, p: Peer<Policy>, k: OptionKind)
    ensures Last(PeerOptions(inp, p, false), k) == Wanted(inp, p, k)
  {
    var disabled, local := OneIf(!p.enabled, Disabled), [LocalAs(p.localIP)];
    var neighbor, iface := [Neighbor(p.neighborIP, p.remoteASN)], OneIf(p.iface != "", Interface(p.iface));
    var password := OneIf(p.password != "", Password(p.password));
    var shape, reflector := SessionOptions(TemplateFromPeer(p)), ReflectorOptions(inp, TemplateFromPeer(p));
    BlockParts(inp, p);
    ShapeWanted(inp, p, k);
    ReflectorWanted(inp, p, k);
    PartsWanted(inp, p, disabled, local, neighbor, iface, shape, password, reflector, k);
  }

  lemma {:induction false} BlockParts(inp: Input, p: Peer<Policy>)
    ensures PeerOptions(inp, p, false) ==
            OneIf(!p.enabled, Disabled) + [LocalAs(p.localIP)]
            + ([Neighbor(p.neighborIP, p.remoteASN)] + OneIf(p.iface != "", Interface(p.iface)))
            + SessionOptions(TemplateFromPeer(p)) + OneIf(p.password != "", Password(p.password))
            + ReflectorOptions(inp, TemplateFromPeer(p))
  {
    PeerOptionsAre(inp, p, OneIf(!p.enabled, Disabled), OneIf(p.localIP != "", LocalAs(p.localIP)),
                   [Neighbor(p.neighborIP, p.remoteASN)] + OneIf(p.iface != "", Interface(p.iface)),
                   OneIf(p.password != "", Password(p.password)));
  }

  lemma {:induction false} PartsWanted(inp: Input, p: Peer<Policy>, disabled: seq<SessionOption>, local: seq<SessionOption>,
                                       neighbor: seq<SessionOption>, iface: seq<SessionOption>, shape: seq<SessionOption>,
                                       password: seq<SessionOption>, reflector: seq<SessionOption>, k: OptionKind)
    requires disabled == OneIf(!p.enabled, Disabled) && local == [LocalAs(p.localIP)]
    requires neighbor == [Neighbor(p.neighborIP, p.remoteASN)] && iface == OneIf(p.iface != "", Interface(p.iface))
    requires password == OneIf(p.password != "", Password(p.password))
    requires Last(shape, k) == if k in SHAPE_KINDS then Wanted(inp, p, k) else None
    requires Last(reflector, k) == if k in REFLECTOR_KINDS then Wanted(inp, p, k) else None
    ensures Last(disabled + local + (neighbor + iface) + shape + password + reflector, k) == Wanted(inp, p, k)
  {
    FullLast(disabled, local, neighbor + iface, shape, password, reflector, k);
    LastConcat(neighbor, iface, k);
    LastOfOne(disabled, k);
    LastOfOne(local, k);
    LastOfOne(neighbor, k);
    LastOfOne(iface, k);
    LastOfOne(password, k);
    PickIf(!p.enabled, Disabled, k);
    PickIf(p.iface != "", Interface(p.iface), k);
    PickIf(p.password != "", Password(p.password), k);
  }

  /** Kind by kind, what is in force on a rendered session is what the peer's fields ask for, whether
      its block is declared from a template or not. */
  lemma {:induction false} OptionsByFields(inp: Input, p: Peer<Policy>, kind: OptionKind)
    requires Render(inp).Ok? && p in inp.peers && FollowsItsTemplate(inp, p)
    ensures Last(OptionsInForce(Configuration(inp), p.name), kind) == Wanted(inp, p, kind)
  {
    SessionInForce(inp, p);
    FullWanted(inp, p, kind);
  }

  /** So it is for every model loaded from the tables, after any run of edits. */
  lemma {:induction false} LoadedOptionsByFields(run: seq<Op>, inp: Input, library: int -> Policy, p: Peer<Policy>, kind: OptionKind)
    requires FreshRun(EmptyTables(), run) && LoadedFrom(inp, PeerTemplates.After(EmptyTables(), run), library)
    requires Render(inp).Ok? && p in inp.peers
    ensures Last(OptionsInForce(Configuration(inp), p.name), kind) == Wanted(inp, p, kind)
  {
    EverySessionInForce(run, inp, library, p);
    FullWanted(inp, p, kind);
  }

  // ----- the channel

  /** The one channel of a session: its family, filters named after the peer, "all" or "none" where
      there is no filter, and the import limit. */
  function WantedChannel(p: Peer<Policy>): Channel {
    var internal := p.role == IBGP;
    Channel(if p.v6 then V6 else V4,
            if internal && p.importPolicies == [] then ImportAll
            else ImportFilter((if internal then "ibgp_in_" else "ebgp_in_") + p.name),
            if p.exportPolicies != [] then ExportFilter((if internal then "ibgp_out_" else "ebgp_out_") + p.name)
            else if internal && p.ibgpExportDefault == AnnounceAll then ExportAll
            else ExportNone,
            internal && p.nextHopSelf,
            p.importLimit,
            if p.importLimit == 0 then ""
            else match p.importLimitAction case Warn => "warn" case Block => "block" case Restart => "restart" case Disable => "disable")
  }

  lemma {:induction false} ChannelIsWanted(p: Peer<Policy>)
    ensures ChannelOf(p) == WantedChannel(p)
  {
    NamesSplit(p);
  }

  lemma {:induction false} NamesSplit(p: Peer<Policy>)
    ensures ImportFilterName(p) == (if p.role == IBGP then "ibgp_in_" else "ebgp_in_") + p.name
    ensures ExportFilterName(p) == (if p.role == IBGP then "ibgp_out_" else "ebgp_out_") + p.name
  {
    assert "ibgp" + "_in_" == "ibgp_in_" && "ebgp" + "_in_" == "ebgp_in_";
    assert "ibgp" + "_out_" == "ibgp_out_" && "ebgp" + "_out_" == "ebgp_out_";
  }

  /** A rendered session has exactly that channel. */
  lemma {:induction false} ChannelByFields(inp: Input, p: Peer<Policy>)
    requires Render(inp).Ok? && p in inp.peers
    ensures SessionChannel(Configuration(inp), p.name) == Some(WantedChannel(p))
  {
    SessionDeclared(inp, p);
    ChannelIsWanted(p);
  }

  // ----- what comes in

  ghost predicate AddedBy(inp: Input, refs: seq<CommunityRef>, c: Community) {
    exists k | 0 <= k < |refs| :: StandsFor(inp.communities, refs[k], c)
  }

  lemma {:induction false} RefsAre(inp: Input, refs: seq<CommunityRef>, c: Community)
    ensures c in ResolvedRefs(inp.communities, refs) <==> AddedBy(inp, refs, c)
  {
    forall k | 0 <= k < |refs|
      ensures Resolve(inp.communities, refs[k]) == Some(c) <==> StandsFor(inp.communities, refs[k], c)
    {
      RefFound(inp.communities, refs[k], c);
    }
  }

  /** The tag a route gets at the edge. */
  predicate RoleTag(inp: Input, role: Role, c: Community) {
    match role
    case Upstream => c == Large(inp.localASN, 1, 1000)
    case IXPeer => c == Large(inp.localASN, 1, 2000)
    case Customer => c == Large(inp.localASN, 1, 3000)
    case IBGP => false
  }

  /** The route as the chain first sees it: on an external session large communities under our own
      number are gone; the operator's and the role's tag are on; nothing else has changed. */
  ghost predicate Entered(inp: Input, p: Peer<Policy>, r: Route, t: Route) {
    && t == r.(communities := t.communities)
    && forall c :: c in t.communities <==>
         || (c in r.communities && (p.role == IBGP || !(c.Large? && c.a == inp.localASN)))
         || AddedBy(inp, p.importCommunities, c) || RoleTag(inp, p.role, c)
  }

  lemma {:induction false} IngressEnters(inp: Input, p: Peer<Policy>, r: Route)
    ensures Entered(inp, p, r, Ingress(inp, p, r))
  {
    forall c
      ensures c in ResolvedRefs(inp.communities, p.importCommunities) <==> AddedBy(inp, p.importCommunities, c)
    {
      RefsAre(inp, p.importCommunities, c);
    }
  }

  /** The route after the first `k` policies let it pass. */
  function Through(inp: Input, chain: seq<Policy>, k: nat, roa: Roa, t: Route): Route
    requires k <= |chain|
  {
    if k == 0 then t else Marked(inp, chain[k - 1], roa, Through(inp, chain, k - 1, roa, t))
  }

  /** The path checks of the session. */
  predicate PathWanted(p: Peer<Policy>, r: Route) {
    && (p.enforceFirstAS ==> (if r.path == [] then 0 else r.path[0]) == p.remoteASN)
    && (p.originPeerOnly ==> LastAS(r.path) == p.remoteASN)
  }

  /** The first policy of a chain that does not let a route pass, or the length of the chain. */
  ghost predicate StopsAt(inp: Input, chain: seq<Policy>, roa: Roa, t: Route, k: nat) {
    && k <= |chain| && (forall j | 0 <= j < k :: ImportOutcome(inp, chain[j], roa, Through(inp, chain, j, roa, t)).Ended?)
    && (k < |chain| ==> !ImportOutcome(inp, chain[k], roa, Through(inp, chain, k, roa, t)).Ended?)
  }

  lemma {:induction false} ThroughIsAfter(inp: Input, chain: seq<Policy>, k: nat, roa: Roa, t: Route)
    requires k <= |chain|
    ensures Through(inp, chain, k, roa, t) == ImportChain.After(inp, chain, k, roa, t)
    ensures Through(inp, chain, k, roa, t).net == t.net
  {
    if k > 0 {
      ThroughIsAfter(inp, chain, k - 1, roa, t);
      var x := Through(inp, chain, k - 1, roa, t);
      assert InvalidOrigin(chain[k - 1], roa, x) == RpkiInvalid(roa, x);
    }
  }

  lemma {:induction false} OutcomeAt(cfg: Config, inp: Input, chain: seq<Policy>, fam: Family, roa: Roa, t: Route, j: nat)
    requires LibrarySymbols(cfg, inp) && OfFamily(t, fam) && j < |chain|
    ensures ImportVerdict(inp, chain[j], fam, roa, ImportChain.After(inp, chain, j, roa, t)) ==
            ImportOutcome(inp, chain[j], roa, Through(inp, chain, j, roa, t))
  {
    ThroughIsAfter(inp, chain, j, roa, t);
    VerdictIsOutcome(cfg, inp, chain[j], fam, roa, Through(inp, chain, j, roa, t));
  }

  lemma {:induction false} FirstFailing(holds: seq<bool>) returns (k: nat)
    ensures k <= |holds| && (forall j | 0 <= j < k :: holds[j]) && (k < |holds| ==> !holds[k])
  {
    k := 0;
    while k < |holds| && holds[k]
      invariant k <= |holds| && forall j | 0 <= j < k :: holds[j]
    {
      k := k + 1;
    }
  }

  /** Which policies of a chain let the route pass, each asked after those before it. */
  ghost function Passings(inp: Input, chain: seq<Policy>, roa: Roa, t: Route): (holds: seq<bool>)
    ensures |holds| == |chain|
    ensures forall j | 0 <= j < |chain| :: holds[j] == ImportOutcome(inp, chain[j], roa, Through(inp, chain, j, roa, t)).Ended?
  {
    seq(|chain|, j requires 0 <= j < |chain| => ImportOutcome(inp, chain[j], roa, Through(inp, chain, j, roa, t)).Ended?)
  }

  lemma {:induction false} FirstStop(inp: Input, chain: seq<Policy>, roa: Roa, t: Route) returns (k: nat)
    ensures StopsAt(inp, chain, roa, t, k)
  {
    k := FirstFailing(Passings(inp, chain, roa, t));
  }

  lemma {:induction false} ChainStops(cfg: Config, inp: Input, chain: seq<Policy>, fam: Family, roa: Roa, t: Route) returns (k: nat)
    requires LibrarySymbols(cfg, inp) && OfFamily(t, fam)
    ensures StopsAt(inp, chain, roa, t, k)
    ensures ChainVerdict(inp, chain, fam, roa, t) ==
            if k == |chain| then Ended(Through(inp, chain, k, roa, t))
            else ImportOutcome(inp, chain[k], roa, Through(inp, chain, k, roa, t))
  {
    k := FirstStop(inp, chain, roa, t);
    forall j | 0 <= j < |chain|
      ensures Decides(inp, chain, fam, roa, t, j) <==> !ImportOutcome(inp, chain[j], roa, Through(inp, chain, j, roa, t)).Ended?
    {
      OutcomeAt(cfg, inp, chain, fam, roa, t, j);
    }
    FirstDecides(inp, chain, fam, roa, t, k);
    ThroughIsAfter(inp, chain, k, roa, t);
    if k < |chain| { OutcomeAt(cfg, inp, chain, fam, roa, t, k); }
  }

  /** What the chain makes of a route, the drain included. */
  ghost function ChainTakes(inp: Input, p: Peer<Policy>, roa: Roa, t: Route, k: nat): Option<Route>
    requires k <= |p.importPolicies|
  {
    var chain := p.importPolicies;
    if k < |chain| then
      match ImportOutcome(inp, chain[k], roa, Through(inp, chain, k, roa, t))
      case Accepted(x) => Some(x)
      case _ => None
    else
      var x := Through(inp, chain, k, roa, t);
      Some(if p.drained then x.(localPref := 0) else x)
  }

  lemma {:induction false} FilterTakes(cfg: Config, inp: Input, p: Peer<Policy>, roa: Roa, r: Route) returns (k: nat)
    requires LibrarySymbols(cfg, inp) && OfFamily(r, p.Fam())
    ensures StopsAt(inp, p.importPolicies, roa, Ingress(inp, p, r), k)
    ensures Kept(FilterVerdict(inp, p, roa, r)) ==
            if PathWanted(p, r) then ChainTakes(inp, p, roa, Ingress(inp, p, r), k) else None
  {
    var t := Ingress(inp, p, r);
    k := ChainStops(cfg, inp, p.importPolicies, p.Fam(), roa, t);
    assert PathWanted(p, r) <==> PathAllowed(p, r);
  }

  /** What a session of a rendered router takes in: nothing off a path it does not want; otherwise
      the route enters and its policies are asked in turn, up to the first that does not let it
      pass; a route all let pass is taken, at local preference 0 when the peer drains. An internal
      session without policies takes everything. */
  lemma {:induction false} IntakeByFields(inp: Input, p: Peer<Policy>, roa: Roa, r: Route) returns (t: Route, k: nat)
    requires Render(inp).Ok? && RefersToModel(inp) && ChainsDirected(inp) && p in inp.peers
    requires r.net.family == (if p.v6 then V6 else V4) && HostLength(r.net)
    ensures Entered(inp, p, r, t) && StopsAt(inp, p.importPolicies, roa, t, k)
    ensures Receive(Router(Configuration(inp), inp, roa), p, r) ==
            if p.role == IBGP && p.importPolicies == [] then Some(r)
            else if PathWanted(p, r) then ChainTakes(inp, p, roa, t, k) else None
  {
    t := Ingress(inp, p, r);
    IngressEnters(inp, p, r);
    RenderedReceive(inp, p, roa, r);
    RenderedLibrary(inp);
    k := FilterTakes(Configuration(inp), inp, p, roa, r);
  }

  lemma {:induction false} RenderedLibrary(inp: Input)
    requires Render(inp).Ok?
    ensures LibrarySymbols(Configuration(inp), inp)
  {
    RenderedIsLoaded(inp);
  }

  // ----- what goes out

  /** The route as it would be announced: its path behind the configured copies of our own number, and
      the drain signal of RFC 8326 and the operator's communities on. */
  ghost predicate Dressed(inp: Input, p: Peer<Policy>, r: Route, t: Route) {
    && t == r.(communities := t.communities, path := t.path)
    && |t.path| == p.prependCount + |r.path| && t.path[p.prependCount..] == r.path
    && (forall k | 0 <= k < p.prependCount :: t.path[k] == inp.localASN)
    && forall c :: c in t.communities <==>
         c in r.communities || (p.drained && c == Std(65535, 0)) || AddedBy(inp, p.exportCommunities, c)
  }

  lemma {:induction false} EgressDresses(inp: Input, p: Peer<Policy>, r: Route)
    ensures Dressed(inp, p, r, Egress(inp, p, r))
  {
    PrependedPath(inp.localASN, p.prependCount, r.path);
    forall c
      ensures c in ResolvedRefs(inp.communities, p.exportCommunities) <==> AddedBy(inp, p.exportCommunities, c)
    {
      RefsAre(inp, p.exportCommunities, c);
    }
  }

  /** Some policy announces the route and none before it vetoes it. */
  ghost predicate AnnouncedBySome(inp: Input, chain: seq<Policy>, t: Route) {
    exists k | 0 <= k < |chain| ::
      ExportOutcome(inp, chain[k], t).Accepted? && forall j | 0 <= j < k :: ExportOutcome(inp, chain[j], t).Ended?
  }

  lemma {:induction false} AnnouncedTail(inp: Input, chain: seq<Policy>, t: Route)
    requires chain != []
    ensures AnnouncedBySome(inp, chain, t) <==>
              ExportOutcome(inp, chain[0], t).Accepted?
              || (ExportOutcome(inp, chain[0], t).Ended? && AnnouncedBySome(inp, chain[1..], t))
  {
    var rest := chain[1..];
    if ExportOutcome(inp, chain[0], t).Ended? && AnnouncedBySome(inp, rest, t) {
      var k :| 0 <= k < |rest| && ExportOutcome(inp, rest[k], t).Accepted? && forall j | 0 <= j < k :: ExportOutcome(inp, rest[j], t).Ended?;
      assert chain[k + 1] == rest[k] && forall j | 0 < j < k + 1 :: chain[j] == rest[j - 1];
    }
    if AnnouncedBySome(inp, chain, t) && !ExportOutcome(inp, chain[0], t).Accepted? {
      var k :| 0 <= k < |chain| && ExportOutcome(inp, chain[k], t).Accepted? && forall j | 0 <= j < k :: ExportOutcome(inp, chain[j], t).Ended?;
      assert rest[k - 1] == chain[k] && forall j | 0 <= j < k - 1 :: rest[j] == chain[j + 1];
    }
  }

  lemma {:induction false} ExportChainIs(cfg: Config, inp: Input, chain: seq<Policy>, t: Route)
    requires LibrarySymbols(cfg, inp) && HostLength(t.net)
    ensures ExportChain(inp, chain, t.net.family, t).Accepted? <==> AnnouncedBySome(inp, chain, t)
  {
    if chain != [] {
      ExportChainIs(cfg, inp, chain[1..], t);
      ExportVerdictIsOutcome(cfg, inp, chain[0], t);
      AnnouncedTail(inp, chain, t);
    }
  }

  /** What a session of a rendered router lets out: the dressed route, when some policy announces it
      as dressed and none before vetoes it. Without policies an internal session lets out all it
      has, or nothing if so set, and an external one nothing. */
  lemma {:induction false} OutputByFields(inp: Input, p: Peer<Policy>, roa: Roa, r: Route) returns (t: Route)
    requires Render(inp).Ok? && RefersToModel(inp) && ChainsDirected(inp) && p in inp.peers
    requires r.net.family == (if p.v6 then V6 else V4) && HostLength(r.net)
    ensures Dressed(inp, p, r, t)
    ensures Announce(Router(Configuration(inp), inp, roa), p, r) ==
            if p.exportPolicies == [] then (if p.role == IBGP && p.ibgpExportDefault == AnnounceAll then Some(r) else None)
            else if AnnouncedBySome(inp, p.exportPolicies, t) then Some(t) else None
  {
    t := Egress(inp, p, r);
    EgressDresses(inp, p, r);
    RenderedLibrary(inp);
    RenderedAnnounce(inp, p, roa, r);
    ExportChainIs(Configuration(inp), inp, p.exportPolicies, t);
    ExportChainDecides(inp, p.exportPolicies, p.Fam(), t);
  }
}
