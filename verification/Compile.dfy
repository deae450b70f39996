/** What birdy writes for a policy and for a peer's filters, as filter code.
    (internal/render/render.go, writeImportBody, writeExportBody, writePeerImportFilter and
    writePeerExportFilter) */
module Compile {
  import opened Options
  import opened Bird
  import opened Model

  datatype Error =
    | BadLocalASN
    | SetNotFound(id: int) | SetEmpty(name: string)
    | ASSetNotFound(id: int) | ASSetEmpty(name: string)
    | BogonSetMissing(name: string) | BogonSetEmpty(name: string)
    | NoRtrServer(policy: string)
    | DeclaredTwice(name: string)

  datatype Result<+T> = Ok(value: T) | Err(error: Error)

  // ----- names

  function Suffix(fam: Family): string { if fam.V4? then "v4" else "v6" }

  function BogonSet(fam: Family): string { if fam.V4? then "BOGONS_V4" else "BOGONS_V6" }

  function RoaTableOf(fam: Family): string { if fam.V4? then "rpki4" else "rpki6" }

  /** The default route of a family. */
  function AnyRoute(fam: Family): Prefix { Prefix(fam, []) }

  function PolicyFunc(pol: Policy, fam: Family): string {
    (if pol.isImport then "imp_" else "exp_") + pol.name + "_" + Suffix(fam)
  }

  function FilterPrefix<P>(p: Peer<P>): string { if p.IsIBGP() then "ibgp" else "ebgp" }

  function ImportFilterName<P>(p: Peer<P>): string { FilterPrefix(p) + "_in_" + p.name }

  function ExportFilterName<P>(p: Peer<P>): string { FilterPrefix(p) + "_out_" + p.name }

  // ----- origin tags

  const TAG_UPSTREAM: nat := 1000
  const TAG_IX: nat := 2000
  const TAG_CUSTOMER: nat := 3000

  function TagValue(role: Role): nat
    requires role != IBGP
  {
    match role
    case Upstream => TAG_UPSTREAM
    case IXPeer => TAG_IX
    case Customer => TAG_CUSTOMER
  }

  function TagName(role: Role): string
    requires role != IBGP
  {
    match role
    case Upstream => "FROM_UPSTREAM"
    case IXPeer => "FROM_IX"
    case Customer => "FROM_CUSTOMER"
  }

  function Tag(localASN: nat, role: Role): Community
    requires role != IBGP
  {
    Large(localASN, 1, TagValue(role))
  }

  function RpkiInvalidTag(localASN: nat): Community { Large(localASN, 2, 1) }

  /** RFC 7999 BLACKHOLE and RFC 8326 GRACEFUL_SHUTDOWN. */
  const BLACKHOLE := Std(65535, 666)
  const GRACEFUL_SHUTDOWN := Std(65535, 0)

  /** A named reference renders as its define, a literal as the tuple; an unknown name is taken
      to be a standard community. */
  function RefExpr(defs: seq<CommunityDef>, ref: CommunityRef): CommunityExpr {
    match ref
    case Literal(c) => Value(c)
    case Named(name) =>
      Symbol(name, match CommunityByName(defs, name) case Some(def) => def.value.Large? case None => false)
  }

  /** The bogon list that ships with birdy, used when the operator's is empty. */
  function DefaultBogons(): seq<BogonASN> {
    [BogonASN(Range(0, 0), false), BogonASN(Range(23456, 23456), false), BogonASN(Range(64496, 64511), false),
     BogonASN(Range(64512, 65534), true), BogonASN(Range(65535, 65535), false), BogonASN(Range(65536, 65551), false),
     BogonASN(Range(65552, 131071), false), BogonASN(Range(4200000000, 4294967294), true),
     BogonASN(Range(4294967295, 4294967295), false)]
  }

  function Bogons(inp: Input): seq<BogonASN> { if inp.bogonASNs == [] then DefaultBogons() else inp.bogonASNs }

  // ----- one policy, one family

  function Veto(on: bool, c: Cond): seq<Stmt> { if on then [If(c, [Reject])] else [] }

  function Permit(on: bool, c: Cond): seq<Stmt> { if on then [If(c, [Accept])] else [] }

  /** What an accept-only set decides before anything else: an error, a policy that permits
      nothing in this family, or (None) that the rest of the body applies. */
  function AllowListGate(sets: seq<PrefixSet>, pol: Policy, fam: Family): Result<Option<seq<Stmt>>> {
    if pol.acceptOnlySet.None? then Ok(None)
    else
      match SetByID(sets, pol.acceptOnlySet.value)
      case None => Err(SetNotFound(pol.acceptOnlySet.value))
      case Some(ps) =>
        if ps.disabled then Ok(Some([Do(Reject)]))
        else if ps.entries == [] then Err(SetEmpty(ps.name))
        else if ps.family != fam then Ok(Some([Do(Reject)]))
        else Ok(None)
  }

  function CoverPatterns(entries: seq<PrefixEntry>): (ps: seq<Pattern>)
    ensures |ps| == |entries|
    ensures forall k | 0 <= k < |ps| :: ps[k] == entries[k].(modifier := OrLonger).AsPattern()
  {
    seq(|entries|, k requires 0 <= k < |entries| => entries[k].(modifier := OrLonger).AsPattern())
  }

  function BlackholeCond(sets: seq<PrefixSet>, pol: Policy, fam: Family): Cond {
    var host := And(Carries(Value(BLACKHOLE)), LenIs(fam.HostBits()));
    match pol.acceptOnlySet
    case None => host
    case Some(id) =>
      match SetByID(sets, id)
      case None => host
      case Some(ps) => And(host, NetInside(CoverPatterns(ps.entries)))
  }

  function BlackholePart(sets: seq<PrefixSet>, pol: Policy, fam: Family): seq<Stmt> {
    if pol.acceptBlackhole then [If(BlackholeCond(sets, pol, fam), [DiscardTraffic, Accept])] else []
  }

  function DefaultPart(pol: Policy, fam: Family): seq<Stmt> {
    match pol.defaultRoute
    case RejectDefault => [If(NetIs(AnyRoute(fam)), [Reject])]
    case OnlyDefault => [If(Not(NetIs(AnyRoute(fam))), [Reject])]
    case AcceptDefault => []
  }

  function MinLen(pol: Policy, fam: Family): nat { if fam.V6? then pol.minLenV6 else pol.minLenV4 }

  function MaxLen(pol: Policy, fam: Family): nat { if fam.V6? then pol.maxLenV6 else pol.maxLenV4 }

  /** Only called with a bound to check. */
  function LengthCond(min: nat, max: nat): Cond {
    if min > 0 && max > 0 then Or(LenBelow(min), LenAbove(max))
    else if min > 0 then LenBelow(min)
    else LenAbove(max)
  }

  function LengthPart(pol: Policy, fam: Family): seq<Stmt> {
    var min, max := MinLen(pol, fam), MaxLen(pol, fam);
    if pol.defaultRoute == OnlyDefault || (min == 0 && max == 0) then []
    else
      var c := LengthCond(min, max);
      [If(if pol.defaultRoute == AcceptDefault then And(Not(NetIs(AnyRoute(fam))), c) else c, [Reject])]
  }

  function MatchPart(defs: seq<CommunityDef>, pol: Policy, act: Action): seq<Stmt> {
    match pol.matchCommunity
    case None => []
    case Some(ref) => [If(Carries(RefExpr(defs, ref)), [act])]
  }

  function AllowListPart(sets: seq<PrefixSet>, pol: Policy): seq<Stmt> {
    match pol.acceptOnlySet
    case None => []
    case Some(id) =>
      match SetByID(sets, id)
      case None => []
      case Some(ps) => [If(Not(NetIn(ps.name)), [Reject])]
  }

  function OriginPart(asSets: seq<ASSet>, pol: Policy): Result<seq<Stmt>> {
    match pol.originASSet
    case None => Ok([])
    case Some(id) =>
      match ASSetByID(asSets, id)
      case None => Err(ASSetNotFound(id))
      case Some(asSet) =>
        if asSet.entries == [] then Err(ASSetEmpty(asSet.name)) else Ok([If(Not(OriginIn(asSet.name)), [Reject])])
  }

  function RovPart(pol: Policy, fam: Family): seq<Stmt> {
    match pol.rov
    case RovOff => []
    case RovReject => [If(RoaInvalid(RoaTableOf(fam)), [Reject])]
    case RovLog => [If(RoaInvalid(RoaTableOf(fam)), [AddCommunity(Symbol("RPKI_INVALID", true))])]
  }

  function BogonASNPart(pol: Policy): seq<Stmt> {
    match pol.bogonASNs
    case BogonsOff => []
    case BogonsAll => [If(PathMeets("BOGON_ASNS"), [Reject])]
    case BogonsExceptPrivate => [If(PathMeets("BOGON_ASNS_EXCEPT_PRIVATE"), [Reject])]
  }

  function LocalPrefPart(pol: Policy): seq<Stmt> {
    if pol.setLocalPref > 0 then [Do(SetLocalPref(pol.setLocalPref))] else []
  }

  /** The checks before the origin check, in emission order. */
  function EarlyChecks(inp: Input, pol: Policy, fam: Family): seq<Stmt> {
    DefaultPart(pol, fam) + LengthPart(pol, fam)
    + Veto(pol.rejectBogonPrefixes, NetIn(BogonSet(fam)))
    + MatchPart(inp.communities, pol, Reject)
    + AllowListPart(inp.prefixSets, pol)
  }

  /** The checks after the route-origin check, and the local preference. */
  function LateChecks(inp: Input, pol: Policy): seq<Stmt> {
    Veto(pol.maxASPathLen > 0, PathAbove(pol.maxASPathLen))
    + Veto(pol.rejectOwnASN, PathHas(inp.localASN))
    + BogonASNPart(pol) + LocalPrefPart(pol)
  }

  /** The body of an import policy's function: it only ever rejects, except an RFC 7999 discard.
      Falling off the end means no objection. */
  function ImportBody(inp: Input, pol: Policy, fam: Family): Result<seq<Stmt>> {
    match AllowListGate(inp.prefixSets, pol, fam)
    case Err(e) => Err(e)
    case Ok(Some(shut)) => Ok(shut)
    case Ok(None) =>
      match OriginPart(inp.asSets, pol)
      case Err(e) => Err(e)
      case Ok(origin) =>
        Ok(BlackholePart(inp.prefixSets, pol, fam) + EarlyChecks(inp, pol, fam)
           + origin + RovPart(pol, fam) + LateChecks(inp, pol))
  }

  /** The accepts for an export policy's prefix sets. */
  function SetAccepts(sets: seq<PrefixSet>, ids: seq<int>, fam: Family): Result<seq<Stmt>> {
    if ids == [] then Ok([])
    else
      match SetAccepts(sets, ids[..|ids| - 1], fam)
      case Err(e) => Err(e)
      case Ok(before) =>
        match SetByID(sets, ids[|ids| - 1])
        case None => Err(SetNotFound(ids[|ids| - 1]))
        case Some(ps) =>
          Ok(before + Permit(ps.family == fam && !ps.disabled && ps.entries != [], NetIn(ps.name)))
  }

  function SourceAccepts(inp: Input, pol: Policy): seq<Stmt> {
    Permit(pol.announceFromUpstream, Carries(Symbol("FROM_UPSTREAM", true)))
    + Permit(pol.announceFromIX, Carries(Symbol("FROM_IX", true)))
    + Permit(pol.announceFromCustomer, Carries(Symbol("FROM_CUSTOMER", true)))
    + MatchPart(inp.communities, pol, Accept)
  }

  /** The body of an export policy's function: it only ever accepts, except a bogon veto.
      Falling off the end means not permitted by this policy. */
  function ExportBody(inp: Input, pol: Policy, fam: Family): Result<seq<Stmt>> {
    var veto := Veto(pol.rejectBogonPrefixes, NetIn(BogonSet(fam)));
    if pol.announceEverything then Ok(veto + [Do(Accept)])
    else
      match SetAccepts(inp.prefixSets, pol.setIDs, fam)
      case Err(e) => Err(e)
      case Ok(accepts) =>
        Ok(veto + Permit(pol.announceDefault, NetIs(AnyRoute(fam))) + accepts + SourceAccepts(inp, pol))
  }

  function PolicyBody(inp: Input, pol: Policy, fam: Family): Result<seq<Stmt>> {
    if pol.isImport then ImportBody(inp, pol, fam) else ExportBody(inp, pol, fam)
  }

  // ----- a peer's filters

  function AddRefs(defs: seq<CommunityDef>, refs: seq<CommunityRef>): (s: seq<Stmt>)
    ensures |s| == |refs|
    ensures forall k | 0 <= k < |s| :: s[k] == Do(AddCommunity(RefExpr(defs, refs[k])))
  {
    seq(|refs|, k requires 0 <= k < |refs| => Do(AddCommunity(RefExpr(defs, refs[k]))))
  }

  function Calls(chain: seq<Policy>, fam: Family): (s: seq<Stmt>)
    ensures |s| == |chain| && forall k | 0 <= k < |s| :: s[k] == Call(PolicyFunc(chain[k], fam))
  {
    seq(|chain|, k requires 0 <= k < |chain| => Call(PolicyFunc(chain[k], fam)))
  }

  /** What an import filter does before the policy calls: the path checks, then our own
      communities -- forged ones off on an external session -- and the tags. */
  function ImportPrologue(inp: Input, p: Peer<Policy>): seq<Stmt> {
    Veto(p.enforceFirstAS, Not(FirstIs(p.remoteASN)))
    + Veto(p.originPeerOnly, Not(OriginIs(p.remoteASN)))
    + (if p.IsIBGP() then [] else [Do(DeleteLargeOf(inp.localASN))])
    + AddRefs(inp.communities, p.importCommunities)
    + (if p.role == IBGP then [] else [Do(AddCommunity(Symbol(TagName(p.role), true)))])
  }

  /** What it does after the chain: drain, then accept. */
  function ImportEpilogue(p: Peer<Policy>): seq<Stmt> {
    (if p.drained then [Do(SetLocalPref(0))] else []) + [Do(Accept)]
  }

  function ImportFilterBody(inp: Input, p: Peer<Policy>): seq<Stmt> {
    ImportPrologue(inp, p) + Calls(p.importPolicies, p.Fam()) + ImportEpilogue(p)
  }

  function Repeat(s: Stmt, n: nat): (r: seq<Stmt>)
    ensures |r| == n && forall k | 0 <= k < n :: r[k] == s
  {
    seq(n, _ => s)
  }

  /** The transforms an export filter makes before it asks any policy. */
  function ExportPrologue(inp: Input, p: Peer<Policy>): seq<Stmt> {
    (if p.drained then [Do(AddCommunity(Value(GRACEFUL_SHUTDOWN)))] else [])
    + Repeat(Do(PrependOwn), p.prependCount)
    + AddRefs(inp.communities, p.exportCommunities)
  }

  function ExportFilterBody(inp: Input, p: Peer<Policy>): seq<Stmt> {
    ExportPrologue(inp, p) + Calls(p.exportPolicies, p.Fam()) + [Do(Reject)]
  }
}
