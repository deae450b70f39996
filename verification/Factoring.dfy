/** "template bgp" plus "protocol ... from": what a linked peer leaves out of its own block, its
    template supplies, so the session is the one the peer's own fields describe.
    (internal/render/render.go, writeTemplate, writePeer and writeSessionOptions) */
module Factoring {
  import opened Options
  import opened Bird
  import opened Model
  import opened Compile
  import opened Sections
  import opened Scope
  import opened PeerTemplates

  // ----- what a list of options amounts to

  datatype OptionKind =
    | KLocal | KRole | KMultihop | KTtl | KPassive | KBfd | KGraceful | KRrClient | KClusterId | KDisabled | KNeighbor
    | KInterface | KPassword

  function KindOfOption(o: SessionOption): OptionKind {
    match o
    case LocalAs(_) => KLocal
    case LocalRole(_) => KRole
    case Multihop(_) => KMultihop
    case TtlSecurity => KTtl
    case Passive => KPassive
    case Bfd(_, _) => KBfd
    case GracefulRestart(_) => KGraceful
    case RrClient => KRrClient
    case RrClusterId(_) => KClusterId
    case Disabled => KDisabled
    case Neighbor(_, _) => KNeighbor
    case Interface(_) => KInterface
    case Password(_) => KPassword
  }

  /** Of several lines that set the same thing, the last one counts. */
  function Last(options: seq<SessionOption>, k: OptionKind): Option<SessionOption> {
    if options == [] then None
    else if KindOfOption(options[|options| - 1]) == k then Some(options[|options| - 1])
    else Last(options[..|options| - 1], k)
  }

  ghost predicate SameEffect(a: seq<SessionOption>, b: seq<SessionOption>) { forall k :: Last(a, k) == Last(b, k) }

  predicate Only(options: seq<SessionOption>, kinds: set<OptionKind>) {
    forall i | 0 <= i < |options| :: KindOfOption(options[i]) in kinds
  }

  function Either(a: Option<SessionOption>, b: Option<SessionOption>): Option<SessionOption> { if b.Some? then b else a }

  lemma {:induction false} LastConcat(a: seq<SessionOption>, b: seq<SessionOption>, k: OptionKind)
    ensures Last(a + b, k) == Either(Last(a, k), Last(b, k))
    decreases |b|
  {
    if b == [] {
      assert a + b == a;
    } else {
      assert (a + b)[..|a + b| - 1] == a + b[..|b| - 1];
      LastConcat(a, b[..|b| - 1], k);
    }
  }

  lemma {:induction false} LastElsewhere(options: seq<SessionOption>, kinds: set<OptionKind>, k: OptionKind)
    requires Only(options, kinds) && k !in kinds
    ensures Last(options, k).None?
  {
    if options != [] { LastElsewhere(options[..|options| - 1], kinds, k); }
  }

  // ----- the two ways to write a session

  const SHAPE_KINDS := {KRole, KMultihop, KTtl, KPassive, KBfd, KGraceful}
  const REFLECTOR_KINDS := {KRrClient, KClusterId}

  lemma {:induction false} ShapeOnly(t: Template<Policy>)
    ensures Only(SessionOptions(t), SHAPE_KINDS)
  {
    OnlySix(if t.bgpRole && !t.IsIBGP() then [LocalRole(RoleName(t.role))] else [],
            if t.multihop > 0 then [Multihop(t.multihop)] else [], if t.gtsm then [TtlSecurity] else [],
            if t.passive then [Passive] else [], if t.bfd then [Bfd(t.bfdInterval, t.bfdMultiplier)] else [],
            match t.gracefulRestart case GROn => [GracefulRestart(true)] case GROff => [GracefulRestart(false)] case GRAware => [],
            SHAPE_KINDS);
  }

  lemma {:induction false} OnlySix(a: seq<SessionOption>, b: seq<SessionOption>, c: seq<SessionOption>, d: seq<SessionOption>,
                                   e: seq<SessionOption>, f: seq<SessionOption>, kinds: set<OptionKind>)
    requires Only(a, kinds) && Only(b, kinds) && Only(c, kinds) && Only(d, kinds) && Only(e, kinds) && Only(f, kinds)
    ensures Only(a + b + c + d + e + f, kinds)
  {
  }

  lemma {:induction false} ReflectorOnly(inp: Input, t: Template<Policy>)
    ensures Only(ReflectorOptions(inp, t), REFLECTOR_KINDS)
  {
  }

  lemma {:induction false} LastOfFour(a: seq<SessionOption>, b: seq<SessionOption>, c: seq<SessionOption>, d: seq<SessionOption>,
                                      k: OptionKind)
    ensures Last(a + b + c + d, k) == Either(Either(Either(Last(a, k), Last(b, k)), Last(c, k)), Last(d, k))
  {
    LastConcat(a + b + c, d, k);
    LastConcat(a + b, c, k);
    LastConcat(a, b, k);
  }

  /** Shared options first and the peer's own after them, or all of them in the peer's block: the
      order in between does not matter, since no kind is in two parts -- but the local address, where
      the peer's own comes last. */
  lemma {:induction false} PartsCommute(local: seq<SessionOption>, shape: seq<SessionOption>, reflector: seq<SessionOption>,
                                        disabled: seq<SessionOption>, own: seq<SessionOption>, rest: seq<SessionOption>,
                                        password: seq<SessionOption>, k: OptionKind)
    requires Only(local, {KLocal}) && Only(own, {KLocal}) && Only(shape, SHAPE_KINDS) && Only(reflector, REFLECTOR_KINDS)
    requires Only(disabled, {KDisabled}) && Only(rest, {KNeighbor, KInterface}) && Only(password, {KPassword})
    ensures Last((local + shape + reflector) + (disabled + own + rest + password), k) ==
            Last(disabled + (local + own) + rest + shape + password + reflector, k)
  {
    FactoredLast(local, shape, reflector, disabled, own, rest, password, k);
    FullLast(disabled, local + own, rest, shape, password, reflector, k);
    LastConcat(local, own, k);
    OnePartEach(local, shape, reflector, disabled, own, rest, password, k);
  }

  lemma {:induction false} FactoredLast(local: seq<SessionOption>, shape: seq<SessionOption>, reflector: seq<SessionOption>,
                                        disabled: seq<SessionOption>, own: seq<SessionOption>, rest: seq<SessionOption>,
                                        password: seq<SessionOption>, k: OptionKind)
    ensures Last((local + shape + reflector) + (disabled + own + rest + password), k) ==
            Either(Either(Either(Last(local, k), Last(shape, k)), Last(reflector, k)),
                   Either(Either(Either(Last(disabled, k), Last(own, k)), Last(rest, k)), Last(password, k)))
  {
    LastConcat(local + shape + reflector, disabled + own + rest + password, k);
    LastConcat(local + shape, reflector, k);
    LastConcat(local, shape, k);
    LastOfFour(disabled, own, rest, password, k);
  }

  lemma {:induction false} FullLast(a: seq<SessionOption>, b: seq<SessionOption>, c: seq<SessionOption>, d: seq<SessionOption>,
                                    e: seq<SessionOption>, f: seq<SessionOption>, k: OptionKind)
    ensures Last(a + b + c + d + e + f, k) ==
            Either(Either(Either(Either(Either(Last(a, k), Last(b, k)), Last(c, k)), Last(d, k)), Last(e, k)), Last(f, k))
  {
    LastConcat(a + b + c + d + e, f, k);
    LastConcat(a + b + c + d, e, k);
    LastOfFour(a, b, c, d, k);
  }

  /** A kind is in one part only, the local address apart. */
  lemma {:induction false} OnePartEach(local: seq<SessionOption>, shape: seq<SessionOption>, reflector: seq<SessionOption>,
                                       disabled: seq<SessionOption>, own: seq<SessionOption>, rest: seq<SessionOption>,
                                       password: seq<SessionOption>, k: OptionKind)
    requires Only(local, {KLocal}) && Only(own, {KLocal}) && Only(shape, SHAPE_KINDS) && Only(reflector, REFLECTOR_KINDS)
    requires Only(disabled, {KDisabled}) && Only(rest, {KNeighbor, KInterface}) && Only(password, {KPassword})
    ensures k != KLocal ==> Last(local, k).None? && Last(own, k).None?
    ensures k !in SHAPE_KINDS ==> Last(shape, k).None?
    ensures k !in REFLECTOR_KINDS ==> Last(reflector, k).None?
    ensures k != KDisabled ==> Last(disabled, k).None?
    ensures k !in {KNeighbor, KInterface} ==> Last(rest, k).None?
    ensures k != KPassword ==> Last(password, k).None?
  {
    if k != KLocal {
      LastElsewhere(local, {KLocal}, k);
      LastElsewhere(own, {KLocal}, k);
    }
    if k !in SHAPE_KINDS { LastElsewhere(shape, SHAPE_KINDS, k); }
    if k !in REFLECTOR_KINDS { LastElsewhere(reflector, REFLECTOR_KINDS, k); }
    if k != KDisabled { LastElsewhere(disabled, {KDisabled}, k); }
    if k !in {KNeighbor, KInterface} { LastElsewhere(rest, {KNeighbor, KInterface}, k); }
    if k != KPassword { LastElsewhere(password, {KPassword}, k); }
  }

  /** The options two shapes share when the governed fields agree. */
  lemma {:induction false} SameShapeSameOptions(inp: Input, p: Peer<Policy>, t: Template<Policy>)
    requires Follows(p, t)
    ensures SessionOptions(TemplateFromPeer(p)) == SessionOptions(t)
    ensures ReflectorOptions(inp, TemplateFromPeer(p)) == ReflectorOptions(inp, t)
  {
  }

  lemma {:induction false} LocalOverrides(own: seq<SessionOption>, k: OptionKind)
    requires own == [] || (|own| == 1 && own[0].LocalAs?)
    ensures Last([LocalAs("")] + own, k) == Last(if own == [] then [LocalAs("")] else own, k)
  {
    LastConcat([LocalAs("")], own, k);
    if k != KLocal { LastElsewhere([LocalAs("")], {KLocal}, k); }
    if own != [] { assert own[..0] == []; }
  }

  /** The parts of a peer's block, short and long. */
  lemma {:induction false} PeerOptionsAre(inp: Input, p: Peer<Policy>, disabled: seq<SessionOption>, own: seq<SessionOption>,
                                          rest: seq<SessionOption>, password: seq<SessionOption>)
    requires disabled == (if !p.enabled then [Disabled] else []) && own == (if p.localIP != "" then [LocalAs(p.localIP)] else [])
    requires rest == [Neighbor(p.neighborIP, p.remoteASN)] + (if p.iface != "" then [Interface(p.iface)] else [])
    requires password == if p.password != "" then [Password(p.password)] else []
    ensures PeerOptions(inp, p, true) == disabled + own + rest + password
    ensures PeerOptions(inp, p, false) ==
            disabled + (if own == [] then [LocalAs("")] else own) + rest + SessionOptions(TemplateFromPeer(p)) + password
            + ReflectorOptions(inp, TemplateFromPeer(p))
  {
    var neighbor, iface := [Neighbor(p.neighborIP, p.remoteASN)], if p.iface != "" then [Interface(p.iface)] else [];
    Associates(disabled + own, neighbor, iface);
    Associates(disabled + (if own == [] then [LocalAs("")] else own), neighbor, iface);
    assert disabled + own + rest + [] == disabled + own + rest;
    assert disabled + own + rest + password + [] == disabled + own + rest + password;
    assert disabled + own + [] == disabled + own;
  }

  lemma {:induction false} Associates(a: seq<SessionOption>, b: seq<SessionOption>, c: seq<SessionOption>)
    ensures a + b + c == a + (b + c)
  {
  }

  /** Factored or in full, a peer whose governed fields are its template's has the same session
      options. */
  lemma {:induction false} FactoredIsFull(inp: Input, p: Peer<Policy>, t: Template<Policy>)
    requires Follows(p, t)
    ensures SameEffect(TemplateOptions(inp, t) + PeerOptions(inp, p, true), PeerOptions(inp, p, false))
  {
    var local := [LocalAs("")];
    var own := if p.localIP != "" then [LocalAs(p.localIP)] else [];
    var shape, reflector := SessionOptions(t), ReflectorOptions(inp, t);
    var disabled := if !p.enabled then [Disabled] else [];
    var rest := [Neighbor(p.neighborIP, p.remoteASN)] + (if p.iface != "" then [Interface(p.iface)] else []);
    var password := if p.password != "" then [Password(p.password)] else [];
    SameShapeSameOptions(inp, p, t);
    ShapeOnly(t);
    ReflectorOnly(inp, t);
    PeerOptionsAre(inp, p, disabled, own, rest, password);
    SameParts(local, shape, reflector, disabled, own, rest, password);
  }

  lemma {:induction false} SameParts(local: seq<SessionOption>, shape: seq<SessionOption>, reflector: seq<SessionOption>,
                                     disabled: seq<SessionOption>, own: seq<SessionOption>, rest: seq<SessionOption>,
                                     password: seq<SessionOption>)
    requires local == [LocalAs("")] && (own == [] || (|own| == 1 && own[0].LocalAs?))
    requires Only(shape, SHAPE_KINDS) && Only(reflector, REFLECTOR_KINDS)
    requires Only(disabled, {KDisabled}) && Only(rest, {KNeighbor, KInterface}) && Only(password, {KPassword})
    ensures SameEffect((local + shape + reflector) + (disabled + own + rest + password),
                       disabled + (if own == [] then local else own) + rest + shape + password + reflector)
  {
    var chosen := if own == [] then local else own;
    forall k
      ensures Last((local + shape + reflector) + (disabled + own + rest + password), k) ==
              Last(disabled + chosen + rest + shape + password + reflector, k)
    {
      PartsCommute(local, shape, reflector, disabled, own, rest, password, k);
      LocalOverrides(own, k);
      SwapMiddle(disabled, local + own, chosen, rest, shape, password, reflector, k);
    }
  }

  lemma {:induction false} SwapMiddle(a: seq<SessionOption>, b: seq<SessionOption>, b': seq<SessionOption>, c: seq<SessionOption>,
                                      d: seq<SessionOption>, e: seq<SessionOption>, f: seq<SessionOption>, k: OptionKind)
    requires Last(b, k) == Last(b', k)
    ensures Last(a + b + c + d + e + f, k) == Last(a + b' + c + d + e + f, k)
  {
    FullLast(a, b, c, d, e, f, k);
    FullLast(a, b', c, d, e, f, k);
  }

  // ----- in a rendered configuration

  /** The options of a session as BIRD sees them: those of the template it is declared from, then
      its own. */
  function OptionsInForce(cfg: Config, name: string): seq<SessionOption> {
    match Find(cfg, name)
    case Some(BgpProtocol(_, from, options, _)) =>
      (match from
       case None => options
       case Some(t) =>
         match Find(cfg, t)
         case Some(TemplateDecl(_, shared)) => shared + options
         case _ => options)
    case _ => []
  }

  /** The template a peer names, when the model has it. */
  ghost predicate FollowsItsTemplate(inp: Input, p: Peer<Policy>) {
    forall k | 0 <= k < |inp.templates| && inp.templates[k].name == p.templateName != "" :: Follows(p, inp.templates[k])
  }

  lemma {:induction false} TemplateFound(inp: Input, p: Peer<Policy>) returns (t: Template<Policy>)
    requires Render(inp).Ok? && HasTemplate(UsedTemplates(inp.templates, inp.peers), p.templateName)
    ensures t in inp.templates && t.name == p.templateName != ""
    ensures Find(Decls(Render(inp).value), t.name) == Some(TemplateDecl(t.name, TemplateOptions(inp, t)))
  {
    var cfg := Decls(Render(inp).value);
    var used := UsedTemplates(inp.templates, inp.peers);
    var pols, templates, peers := ConfigIs(inp);
    var k :| 0 <= k < |used| && used[k].name == p.templateName;
    t := used[k];
    UsedIsNamed(inp.templates, inp.peers, k);
    CollectAt(used, TemplateSection(inp), k);
    SectionMember(templates, k, TemplateDecl(t.name, TemplateOptions(inp, t)));
    RenderedUnique(inp);
    FindUnique(cfg, TemplateDecl(t.name, TemplateOptions(inp, t)));
  }

  lemma {:induction false} UsedIsNamed(templates: seq<Template<Policy>>, peers: seq<Peer<Policy>>, k: nat)
    requires k < |UsedTemplates(templates, peers)|
    ensures UsedTemplates(templates, peers)[k] in templates && UsedTemplates(templates, peers)[k].name != ""
  {
    var n := |templates| - 1;
    if k < |UsedTemplates(templates[..n], peers)| { UsedIsNamed(templates[..n], peers, k); }
  }

  lemma {:induction false} PeerFound(inp: Input, p: Peer<Policy>)
    requires Render(inp).Ok? && p in inp.peers
    ensures var inherits := HasTemplate(UsedTemplates(inp.templates, inp.peers), p.templateName);
      Find(Decls(Render(inp).value), p.name) ==
        Some(BgpProtocol(p.name, if inherits then Some(p.templateName) else None, PeerOptions(inp, p, inherits), ChannelOf(p)))
  {
    var cfg := Decls(Render(inp).value);
    var inherits := HasTemplate(UsedTemplates(inp.templates, inp.peers), p.templateName);
    var pols, templates, peers := ConfigIs(inp);
    var decls := PeerDecls(inp, p, inherits);
    PeerMember(inp, peers, p, decls[|decls| - 1]);
    RenderedUnique(inp);
    FindUnique(cfg, decls[|decls| - 1]);
  }

  lemma {:induction false} InForce(cfg: Config, name: string, from: Option<string>, own: seq<SessionOption>, channel: Channel,
                                   shared: seq<SessionOption>)
    requires Find(cfg, name) == Some(BgpProtocol(name, from, own, channel))
    requires from.Some? ==> Find(cfg, from.value) == Some(TemplateDecl(from.value, shared))
    ensures OptionsInForce(cfg, name) == if from.Some? then shared + own else own
  {
  }

  /** In a rendered configuration every session is in force with the options of its own fields,
      whether it is declared from a template or not. */
  lemma {:induction false} SessionInForce(inp: Input, p: Peer<Policy>)
    requires Render(inp).Ok? && p in inp.peers && FollowsItsTemplate(inp, p)
    ensures SameEffect(OptionsInForce(Decls(Render(inp).value), p.name), PeerOptions(inp, p, false))
  {
    var cfg := Decls(Render(inp).value);
    PeerFound(inp, p);
    if HasTemplate(UsedTemplates(inp.templates, inp.peers), p.templateName) {
      var t := TemplateFound(inp, p);
      InForce(cfg, p.name, Some(t.name), PeerOptions(inp, p, true), ChannelOf(p), TemplateOptions(inp, t));
      FactoredIsFull(inp, p, t);
    } else {
      InForce(cfg, p.name, None, PeerOptions(inp, p, false), ChannelOf(p), []);
    }
  }

  // ----- from the tables to the renderer

  /** A row as the renderer gets it: chains resolved, and the name of its template. */
  function LoadedPeer(s: Tables, id: int, library: int -> Policy): Peer<Policy>
    requires id in s.peers
  {
    var p := s.peers[id];
    var chain := if id in s.peerChains then s.peerChains[id] else [];
    Peer(p.id, p.name, p.enabled, p.neighborIP, p.v6, p.remoteASN, p.localIP, p.iface, p.password, p.drained,
         p.role, p.multihop, p.passive, p.importLimit, p.importLimitAction, p.importCommunities, p.exportCommunities,
         p.prependCount, p.enforceFirstAS, p.originPeerOnly, p.bgpRole, p.gtsm, p.bfd, p.bfdInterval, p.bfdMultiplier,
         p.gracefulRestart, p.nextHopSelf, p.rrClient, p.ibgpExportDefault,
         Resolved(Directed(s.policies, chain, true), library), Resolved(Directed(s.policies, chain, false), library),
         p.templateID, if p.templateID.Some? && p.templateID.value in s.templates then s.templates[p.templateID.value].name else "",
         p.overridesImportLimit)
  }

  function LoadedTemplate(s: Tables, id: int, library: int -> Policy): Template<Policy>
    requires id in s.templates
  {
    var t := ReadTemplate(s, id);
    Template(t.id, t.name, t.role, t.multihop, t.passive, t.importLimit, t.importLimitAction, t.importCommunities,
             t.exportCommunities, t.prependCount, t.enforceFirstAS, t.originPeerOnly, t.bgpRole, t.gtsm, t.bfd, t.bfdInterval,
             t.bfdMultiplier, t.gracefulRestart, t.nextHopSelf, t.rrClient, t.ibgpExportDefault,
             Resolved(t.importPolicies, library), Resolved(t.exportPolicies, library))
  }

  function Resolved(ids: seq<int>, library: int -> Policy): (r: seq<Policy>)
    ensures |r| == |ids| && forall k | 0 <= k < |r| :: r[k] == library(ids[k])
  {
    seq(|ids|, k requires 0 <= k < |ids| => library(ids[k]))
  }

  /** After any run of edits, a linked peer reaches the renderer with its template's shape, policy
      chains included. */
  lemma {:induction false} LoadedFollows(s: Tables, id: int, library: int -> Policy)
    requires InStep(s) && id in s.peers && s.peers[id].templateID.Some?
    ensures s.peers[id].templateID.value in s.templates
    ensures var p := LoadedPeer(s, id, library);
      var t := LoadedTemplate(s, s.peers[id].templateID.value, library);
      && Follows(p, t) && p.templateName == t.name
      && p.importPolicies == t.importPolicies && p.exportPolicies == t.exportPolicies
      && (p.IsIBGP() ==> !p.drained)
  {
    assert LinkedCopy(s, id);
  }

  /** The renderer's peers and templates are the rows of the tables, whose template names are unique. */
  ghost predicate LoadedFrom(inp: Input, s: Tables, library: int -> Policy) {
    && (forall p | p in inp.peers :: exists id | id in s.peers :: p == LoadedPeer(s, id, library))
    && (forall t | t in inp.templates :: exists id | id in s.templates :: t == LoadedTemplate(s, id, library))
    && (forall i, j | i in s.templates && j in s.templates && i != j :: s.templates[i].name != s.templates[j].name)
  }

  lemma {:induction false} LoadedPeerFollows(inp: Input, s: Tables, library: int -> Policy, p: Peer<Policy>)
    requires InStep(s) && LoadedFrom(inp, s, library) && p in inp.peers
    ensures FollowsItsTemplate(inp, p)
  {
    var id :| id in s.peers && p == LoadedPeer(s, id, library);
    if s.peers[id].templateID.Some? {
      var own := s.peers[id].templateID.value;
      LoadedFollows(s, id, library);
      forall k | 0 <= k < |inp.templates| && inp.templates[k].name == p.templateName != ""
        ensures Follows(p, inp.templates[k])
      {
        assert inp.templates[k] in inp.templates;
        var j :| j in s.templates && inp.templates[k] == LoadedTemplate(s, j, library);
        assert s.templates[j].name == s.templates[own].name;
      }
    }
  }

  /** Over every run of edits: whatever is loaded from the tables it leads to and renders, every
      session is in force with the options of its own fields. */
  lemma {:induction false} EverySessionInForce(run: seq<Op>, inp: Input, library: int -> Policy, p: Peer<Policy>)
    requires FreshRun(EmptyTables(), run) && LoadedFrom(inp, After(EmptyTables(), run), library)
    requires Render(inp).Ok? && p in inp.peers
    ensures SameEffect(OptionsInForce(Decls(Render(inp).value), p.name), PeerOptions(inp, p, false))
  {
    AlwaysInStep(run);
    LoadedPeerFollows(inp, After(EmptyTables(), run), library, p);
    SessionInForce(inp, p);
  }
}
