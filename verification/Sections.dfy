/** The rendered configuration as an ordered list of sections of declarations.
    (internal/render/render.go, Sections, writePeer, writeTemplate and the checks) */
module Sections {
  import opened Options
  import opened Bird
  import opened Model
  import opened Compile
  import opened ImportMeaning

  datatype Section = Section(path: string, decls: seq<Decl>)

  // ----- the fixed and library sections

  function TagDecls(inp: Input): seq<Decl> {
    [DefineCommunity("FROM_UPSTREAM", Tag(inp.localASN, Upstream)), DefineCommunity("FROM_IX", Tag(inp.localASN, IXPeer)),
     DefineCommunity("FROM_CUSTOMER", Tag(inp.localASN, Customer)),
     DefineCommunity("RPKI_INVALID", RpkiInvalidTag(inp.localASN))]
  }

  function CommunityDecls(defs: seq<CommunityDef>): seq<Decl> {
    if defs == [] then []
    else CommunityDecls(defs[..|defs| - 1]) + [DefineCommunity(defs[|defs| - 1].name, defs[|defs| - 1].value)]
  }

  /** A disabled or empty set leaves only a comment. */
  function PrefixDecls(sets: seq<PrefixSet>): seq<Decl> {
    if sets == [] then []
    else
      var ps := sets[|sets| - 1];
      PrefixDecls(sets[..|sets| - 1]) + if Rendered(ps) then [DefinePrefixes(ps.name, Patterns(ps.entries))] else []
  }

  function ASDecls(sets: seq<ASSet>): seq<Decl> {
    if sets == [] then []
    else
      var s := sets[|sets| - 1];
      ASDecls(sets[..|sets| - 1]) + if s.entries != [] then [DefineASNs(s.name, s.entries)] else []
  }

  function BogonDecls(inp: Input): seq<Decl> {
    [DefineASNs("BOGON_ASNS", BogonRanges(Bogons(inp), false)),
     DefineASNs("BOGON_ASNS_EXCEPT_PRIVATE", BogonRanges(Bogons(inp), true))]
  }

  function RoaDecls(inp: Input): seq<Decl> {
    if inp.rpkiServers == [] then [] else [RoaTable("rpki4"), RoaTable("rpki6")]
  }

  function BaseDecls(): seq<Decl> { [OtherProtocol("direct1"), OtherProtocol("kernel4"), OtherProtocol("kernel6")] }

  function BfdDecls(peers: seq<Peer<Policy>>): seq<Decl> {
    if exists k | 0 <= k < |peers| :: peers[k].bfd then [OtherProtocol("bfd1")] else []
  }

  function NamedProtocols(names: seq<string>): seq<Decl> {
    if names == [] then [] else NamedProtocols(names[..|names| - 1]) + [OtherProtocol(names[|names| - 1])]
  }

  function RpkiDecls(names: seq<string>): seq<Decl> {
    if names == [] then [] else RpkiDecls(names[..|names| - 1]) + [RpkiProtocol(names[|names| - 1])]
  }

  function OriginatorName(ps: PrefixSet): string { "originate_" + ps.name }

  function OriginatorDecls(sets: seq<PrefixSet>): seq<Decl> {
    if sets == [] then []
    else
      var ps := sets[|sets| - 1];
      OriginatorDecls(sets[..|sets| - 1]) + if Rendered(ps) && ps.originate then [OtherProtocol(OriginatorName(ps))] else []
  }

  function StaticDecls(inp: Input): seq<Decl> {
    (if inp.staticV4 then [OtherProtocol("static_v4")] else [])
    + (if inp.staticV6 then [OtherProtocol("static_v6")] else [])
  }

  /** The sections before the policies, by their place in the order. */
  function LibrarySection(inp: Input, k: nat): Section
    requires k < 12
  {
    match k
    case 0 => Section("globals", [DefineNumber("LOCAL_ASN", inp.localASN)])
    case 1 => Section("communities", TagDecls(inp) + CommunityDecls(inp.communities))
    case 2 => Section("sets/prefixes", PrefixDecls(inp.prefixSets))
    case 3 => Section("sets/as", ASDecls(inp.asSets))
    case 4 => Section("bogons/asns", BogonDecls(inp))
    case 5 => Section("rpki/tables", RoaDecls(inp))
    case 6 => Section("protocols/base", BaseDecls())
    case 7 => Section("protocols/bfd", BfdDecls(inp.peers))
    case 8 => Section("protocols/bmp", NamedProtocols(inp.bmpStations))
    case 9 => Section("rpki/servers", RpkiDecls(inp.rpkiServers))
    case 10 => Section("sets/originators", OriginatorDecls(inp.prefixSets))
    case _ => Section("static", StaticDecls(inp))
  }

  function LibrarySections(inp: Input): (l: seq<Section>)
    ensures |l| == 12 && forall k | 0 <= k < 12 :: l[k] == LibrarySection(inp, k)
  {
    seq(12, k requires 0 <= k < 12 => LibrarySection(inp, k))
  }

  // ----- policies

  function PolicyDecls(inp: Input, pol: Policy): Result<seq<Decl>> {
    match PolicyBody(inp, pol, V4)
    case Err(e) => Err(e)
    case Ok(v4) =>
      match PolicyBody(inp, pol, V6)
      case Err(e) => Err(e)
      case Ok(v6) => Ok([FunctionDecl(PolicyFunc(pol, V4), v4), FunctionDecl(PolicyFunc(pol, V6), v6)])
  }

  /** One section per item, in order; the first failure stops the collection. */
  function Collect<T>(items: seq<T>, render: T -> Result<Section>): Result<seq<Section>> {
    if items == [] then Ok([])
    else
      match Collect(items[..|items| - 1], render)
      case Err(e) => Err(e)
      case Ok(before) =>
        match render(items[|items| - 1])
        case Err(e) => Err(e)
        case Ok(sec) => Ok(before + [sec])
  }

  function PolicySection(inp: Input): Policy -> Result<Section> {
    (pol: Policy) =>
      match PolicyDecls(inp, pol)
      case Err(e) => Err(e)
      case Ok(decls) => Ok(Section("policies/" + pol.name, decls))
  }

  function PolicySections(inp: Input): Result<seq<Section>> { Collect(inp.policies, PolicySection(inp)) }

  lemma {:induction false} CollectAt<T>(items: seq<T>, render: T -> Result<Section>, k: nat)
    requires k < |items| && Collect(items, render).Ok?
    ensures |Collect(items, render).value| == |items|
    ensures render(items[k]) == Ok(Collect(items, render).value[k])
  {
    var n := |items| - 1;
    if n > 0 { CollectAt(items[..n], render, if k < n then k else n - 1); }
  }

  // ----- templates and peers

  /** A peer's shape as a template: the governed fields, no name. */
  function TemplateFromPeer<P>(p: Peer<P>): Template<P> {
    Template(0, "", p.role, p.multihop, p.passive, p.importLimit, p.importLimitAction, p.importCommunities,
             p.exportCommunities, p.prependCount, p.enforceFirstAS, p.originPeerOnly, p.bgpRole, p.gtsm,
             p.bfd, p.bfdInterval, p.bfdMultiplier, p.gracefulRestart, p.nextHopSelf, p.rrClient,
             p.ibgpExportDefault, p.importPolicies, p.exportPolicies)
  }

  /** RFC 9234: to an upstream we are a customer, to a customer a provider, at an exchange a peer. */
  function RoleName(role: Role): string {
    match role
    case Upstream => "customer"
    case Customer => "provider"
    case IXPeer => "peer"
    case IBGP => ""
  }

  /** The protocol options a template governs. */
  function SessionOptions<P>(t: Template<P>): seq<SessionOption> {
    (if t.bgpRole && !t.IsIBGP() then [LocalRole(RoleName(t.role))] else [])
    + (if t.multihop > 0 then [Multihop(t.multihop)] else [])
    + (if t.gtsm then [TtlSecurity] else [])
    + (if t.passive then [Passive] else [])
    + (if t.bfd then [Bfd(t.bfdInterval, t.bfdMultiplier)] else [])
    + (match t.gracefulRestart case GROn => [GracefulRestart(true)] case GROff => [GracefulRestart(false)] case GRAware => [])
  }

  function ReflectorOptions<P>(inp: Input, t: Template<P>): seq<SessionOption> {
    if t.IsIBGP() && t.rrClient then
      [RrClient] + if inp.rrClusterID != "" then [RrClusterId(inp.rrClusterID)] else []
    else []
  }

  function TemplateOptions<P>(inp: Input, t: Template<P>): seq<SessionOption> {
    [LocalAs("")] + SessionOptions(t) + ReflectorOptions(inp, t)
  }

  /** A linked peer leaves the shared options to its template; an unlinked one states them all. */
  function PeerOptions<P>(inp: Input, p: Peer<P>, inherits: bool): seq<SessionOption> {
    (if !p.enabled then [Disabled] else [])
    + (if p.localIP != "" then [LocalAs(p.localIP)] else if !inherits then [LocalAs("")] else [])
    + [Neighbor(p.neighborIP, p.remoteASN)]
    + (if p.iface != "" then [Interface(p.iface)] else [])
    + (if inherits then [] else SessionOptions(TemplateFromPeer(p)))
    + (if p.password != "" then [Password(p.password)] else [])
    + (if inherits then [] else ReflectorOptions(inp, TemplateFromPeer(p)))
  }

  function LimitName(a: LimitAction): string {
    match a
    case Warn => "warn"
    case Block => "block"
    case Restart => "restart"
    case Disable => "disable"
  }

  function ChannelOf(p: Peer<Policy>): Channel {
    Channel(p.Fam(),
            if p.IsIBGP() && p.importPolicies == [] then ImportAll else ImportFilter(ImportFilterName(p)),
            if p.exportPolicies != [] then ExportFilter(ExportFilterName(p))
            else if p.IsIBGP() && p.ibgpExportDefault == AnnounceAll then ExportAll
            else ExportNone,
            p.IsIBGP() && p.nextHopSelf,
            p.importLimit, if p.importLimit > 0 then LimitName(p.importLimitAction) else "")
  }

  function FilterDecls(inp: Input, p: Peer<Policy>): seq<Decl> {
    (if !p.IsIBGP() || p.importPolicies != [] then [FilterDecl(ImportFilterName(p), ImportFilterBody(inp, p))] else [])
    + (if p.exportPolicies != [] then [FilterDecl(ExportFilterName(p), ExportFilterBody(inp, p))] else [])
  }

  function PeerDecls(inp: Input, p: Peer<Policy>, inherits: bool): seq<Decl> {
    FilterDecls(inp, p)
    + [BgpProtocol(p.name, if inherits then Some(p.templateName) else None, PeerOptions(inp, p, inherits), ChannelOf(p))]
  }

  predicate Names(peers: seq<Peer<Policy>>, name: string) {
    exists k | 0 <= k < |peers| :: peers[k].templateName == name && name != ""
  }

  /** The templates at least one peer names. */
  function UsedTemplates(templates: seq<Template<Policy>>, peers: seq<Peer<Policy>>): seq<Template<Policy>> {
    if templates == [] then []
    else
      var t := templates[|templates| - 1];
      UsedTemplates(templates[..|templates| - 1], peers) + if Names(peers, t.name) then [t] else []
  }

  predicate HasTemplate(templates: seq<Template<Policy>>, name: string) {
    exists k | 0 <= k < |templates| :: templates[k].name == name
  }

  function TemplateSection(inp: Input): Template<Policy> -> Result<Section> {
    (t: Template<Policy>) => Ok(Section("templates/" + t.name, [TemplateDecl(t.name, TemplateOptions(inp, t))]))
  }

  function PeerSection(inp: Input, used: seq<Template<Policy>>): Peer<Policy> -> Result<Section> {
    (p: Peer<Policy>) => Ok(Section("peers/" + p.name, PeerDecls(inp, p, HasTemplate(used, p.templateName))))
  }

  // ----- refusals

  /** A policy that rejects bogon prefixes needs both bogon sets to exist and hold something. */
  function CheckBogonSets(sets: seq<PrefixSet>, pols: seq<Policy>): Option<Error> {
    if !(exists k | 0 <= k < |pols| :: pols[k].rejectBogonPrefixes) then None
    else
      match CheckBogonSet(sets, BogonSet(V4), false)
      case Some(e) => Some(e)
      case None => CheckBogonSet(sets, BogonSet(V6), false)
  }

  function CheckBogonSet(sets: seq<PrefixSet>, name: string, found: bool): Option<Error> {
    if sets == [] then (if found then None else Some(BogonSetMissing(name)))
    else if sets[0].name == name && sets[0].entries == [] then Some(BogonSetEmpty(name))
    else CheckBogonSet(sets[1..], name, found || sets[0].name == name)
  }

  /** A policy that validates origins needs an enabled RTR server. */
  function CheckRPKI(inp: Input, pols: seq<Policy>): Option<Error> {
    if inp.rpkiServers != [] || pols == [] then None
    else if pols[0].rov != RovOff then Some(NoRtrServer(pols[0].name))
    else CheckRPKI(inp, pols[1..])
  }

  // ----- the whole

  function Decls(secs: seq<Section>): Config {
    if secs == [] then [] else Decls(secs[..|secs| - 1]) + secs[|secs| - 1].decls
  }

  function DropEmpty(secs: seq<Section>): seq<Section> {
    if secs == [] then []
    else DropEmpty(secs[..|secs| - 1]) + if secs[|secs| - 1].decls == [] then [] else [secs[|secs| - 1]]
  }

  /** The sections before the check for clashing names. */
  function AllSections(inp: Input): Result<seq<Section>> {
    var used := UsedTemplates(inp.templates, inp.peers);
    match PolicySections(inp)
    case Err(e) => Err(e)
    case Ok(pols) =>
      match Collect(used, TemplateSection(inp))
      case Err(e) => Err(e)
      case Ok(templates) =>
        match Collect(inp.peers, PeerSection(inp, used))
        case Err(e) => Err(e)
        case Ok(peers) => Ok(DropEmpty(LibrarySections(inp) + pols + templates + peers))
  }

  /** One namespace, BIRD's own names included. */
  ghost predicate UniqueNames(cfg: Config) {
    && (forall i, j | 0 <= i < j < |cfg| :: cfg[i].name != cfg[j].name)
    && (forall i | 0 <= i < |cfg| :: cfg[i].name !in {"master4", "master6"})
  }

  /** The first name declared twice, scanning in file order. */
  function FirstDuplicate(cfg: Config, k: nat): Option<string>
    requires k <= |cfg|
    decreases |cfg| - k
  {
    if k == |cfg| then None
    else if cfg[k].name in {"master4", "master6"} || exists i | 0 <= i < k :: cfg[i].name == cfg[k].name then
      Some(cfg[k].name)
    else FirstDuplicate(cfg, k + 1)
  }

  lemma {:induction false} NoDuplicateMeansUnique(cfg: Config, k: nat)
    requires k <= |cfg|
    requires UniqueNames(cfg[..k])
    ensures FirstDuplicate(cfg, k).None? <==> UniqueNames(cfg)
    decreases |cfg| - k
  {
    if k < |cfg| {
      if i :| 0 <= i < k && cfg[i].name == cfg[k].name {
        assert !UniqueNames(cfg);
      } else if cfg[k].name !in {"master4", "master6"} {
        assert cfg[..k + 1] == cfg[..k] + [cfg[k]];
        NoDuplicateMeansUnique(cfg, k + 1);
      }
    } else {
      assert cfg[..k] == cfg;
    }
  }

  /** The rendered sections, or why the model does not render. */
  function Render(inp: Input): Result<seq<Section>> {
    if !(1 <= inp.localASN <= 4294967295) then Err(BadLocalASN)
    else
      match CheckBogonSets(inp.prefixSets, inp.policies)
      case Some(e) => Err(e)
      case None =>
        match CheckRPKI(inp, inp.policies)
        case Some(e) => Err(e)
        case None =>
          match AllSections(inp)
          case Err(e) => Err(e)
          case Ok(secs) =>
            match FirstDuplicate(Decls(secs), 0)
            case Some(name) => Err(DeclaredTwice(name))
            case None => Ok(secs)
  }
}
