/** Birdy's database model: prefix sets, AS sets, communities, policies, peers and templates.
    (internal/store/policies.go, peers.go, peer_templates.go, prefixsets.go, assets.go) */
module Model {
  import opened Options
  import opened Bird

  // ----- the library

  datatype Modifier = Exact | OrLonger | OrShorter | Between(low: nat, high: nat)

  datatype PrefixEntry = PrefixEntry(prefix: Prefix, modifier: Modifier) {
    /** The entry the way BIRD reads "prefix", "prefix+", "prefix-" and "prefix{low,high}". */
    function AsPattern(): Pattern {
      match modifier
      case Exact => Pattern(prefix, prefix.Len(), prefix.Len())
      case OrLonger => Pattern(prefix, prefix.Len(), prefix.family.HostBits())
      case OrShorter => Pattern(prefix, 0, prefix.Len())
      case Between(low, high) => Pattern(prefix, low, high)
    }
  }

  datatype PrefixSet = PrefixSet(id: int, name: string, family: Family, disabled: bool, originate: bool,
                                 entries: seq<PrefixEntry>)

  datatype ASSet = ASSet(id: int, name: string, entries: seq<Range>)

  datatype CommunityDef = CommunityDef(name: string, value: Community)

  /** A community typed into a form: a literal, or the name of one in the library. */
  datatype CommunityRef = Literal(value: Community) | Named(name: string)

  datatype BogonASN = BogonASN(range: Range, isPrivate: bool)

  // ----- policies

  datatype DefaultMode = RejectDefault | AcceptDefault | OnlyDefault
  datatype BogonMode = BogonsOff | BogonsAll | BogonsExceptPrivate
  datatype RovMode = RovOff | RovLog | RovReject

  datatype Policy = Policy(
    id: int, name: string, isImport: bool,
    // import
    defaultRoute: DefaultMode, minLenV4: nat, maxLenV4: nat, minLenV6: nat, maxLenV6: nat,
    rejectOwnASN: bool, maxASPathLen: nat, bogonASNs: BogonMode,
    acceptOnlySet: Option<int>, originASSet: Option<int>, rov: RovMode, setLocalPref: nat, acceptBlackhole: bool,
    // export
    announceEverything: bool, announceDefault: bool, announceFromUpstream: bool, announceFromIX: bool,
    announceFromCustomer: bool, setIDs: seq<int>,
    // both
    rejectBogonPrefixes: bool, matchCommunity: Option<CommunityRef>)

  // ----- peers

  datatype Role = Upstream | IXPeer | Customer | IBGP
  datatype LimitAction = Warn | Block | Restart | Disable
  datatype GracefulMode = GROff | GRAware | GROn
  datatype ExportDefault = AnnounceAll | AnnounceNone

  /** One BGP session. The chains hold whatever names a policy: the policy itself when
      rendering, its id in the store. */
  datatype Peer<P> = Peer(
    // the peer's own
    id: int, name: string, enabled: bool, neighborIP: string, v6: bool, remoteASN: nat, localIP: string,
    iface: string, password: string, drained: bool,
    // governed by a template while linked
    role: Role, multihop: nat, passive: bool, importLimit: nat, importLimitAction: LimitAction,
    importCommunities: seq<CommunityRef>, exportCommunities: seq<CommunityRef>, prependCount: nat,
    enforceFirstAS: bool, originPeerOnly: bool, bgpRole: bool, gtsm: bool,
    bfd: bool, bfdInterval: nat, bfdMultiplier: nat, gracefulRestart: GracefulMode,
    nextHopSelf: bool, rrClient: bool, ibgpExportDefault: ExportDefault,
    importPolicies: seq<P>, exportPolicies: seq<P>,
    // the link
    templateID: Option<int>, templateName: string, overridesImportLimit: bool)
  {
    predicate IsIBGP() { role == IBGP }

    function Fam(): Family { if v6 then V6 else V4 }
  }

  /** A peer without an identity: the shape many sessions share. */
  datatype Template<P> = Template(
    id: int, name: string,
    role: Role, multihop: nat, passive: bool, importLimit: nat, importLimitAction: LimitAction,
    importCommunities: seq<CommunityRef>, exportCommunities: seq<CommunityRef>, prependCount: nat,
    enforceFirstAS: bool, originPeerOnly: bool, bgpRole: bool, gtsm: bool,
    bfd: bool, bfdInterval: nat, bfdMultiplier: nat, gracefulRestart: GracefulMode,
    nextHopSelf: bool, rrClient: bool, ibgpExportDefault: ExportDefault,
    importPolicies: seq<P>, exportPolicies: seq<P>)
  {
    predicate IsIBGP() { role == IBGP }
  }

  // ----- everything the renderer needs

  datatype Input = Input(
    localASN: nat, rrClusterID: string,
    prefixSets: seq<PrefixSet>, asSets: seq<ASSet>, communities: seq<CommunityDef>, bogonASNs: seq<BogonASN>,
    policies: seq<Policy>, templates: seq<Template<Policy>>, peers: seq<Peer<Policy>>,
    rpkiServers: seq<string>, bmpStations: seq<string>, staticV4: bool, staticV6: bool)

  function SetByID(sets: seq<PrefixSet>, id: int): Option<PrefixSet> {
    if sets == [] then None
    else if sets[|sets| - 1].id == id then Some(sets[|sets| - 1])
    else SetByID(sets[..|sets| - 1], id)
  }

  function ASSetByID(sets: seq<ASSet>, id: int): Option<ASSet> {
    if sets == [] then None
    else if sets[|sets| - 1].id == id then Some(sets[|sets| - 1])
    else ASSetByID(sets[..|sets| - 1], id)
  }

  function CommunityByName(defs: seq<CommunityDef>, name: string): Option<CommunityDef> {
    if defs == [] then None
    else if defs[|defs| - 1].name == name then Some(defs[|defs| - 1])
    else CommunityByName(defs[..|defs| - 1], name)
  }

  /** The community a reference stands for; None for a name the library does not have. */
  function Resolve(defs: seq<CommunityDef>, ref: CommunityRef): Option<Community> {
    match ref
    case Literal(c) => Some(c)
    case Named(name) =>
      match CommunityByName(defs, name)
      case Some(def) => Some(def.value)
      case None => None
  }
}
