/** The part of BIRD birdy targets: routes, prefix patterns, and a filter language small enough
    to evaluate. One node stands for one emitted line. */
module Bird {
  import opened Options

  // ----- routes

  datatype Family = V4 | V6 {
    /** The length of a host route. */
    function HostBits(): nat { if V4? then 32 else 128 }
  }

  /** A prefix is its family and its leading bits; 0.0.0.0/0 and ::/0 have none. */
  datatype Prefix = Prefix(family: Family, bits: seq<bool>) {
    function Len(): nat { |bits| }

    /** `other` is this prefix or lies inside it. */
    predicate Covers(other: Prefix) {
      family == other.family && bits <= other.bits
    }
  }

  /** "base{low,high}": prefixes of a length in the range that agree with the base as far as both
      of them reach. */
  datatype Pattern = Pattern(base: Prefix, low: nat, high: nat) {
    predicate Matches(net: Prefix) {
      && net.family == base.family && low <= net.Len() <= high
      && (base.Covers(net) || net.Covers(base))
    }
  }

  predicate AnyMatches(patterns: seq<Pattern>, net: Prefix) {
    exists k | 0 <= k < |patterns| :: patterns[k].Matches(net)
  }

  datatype Range = Range(low: nat, high: nat)

  predicate InRanges(asn: nat, ranges: seq<Range>) {
    exists k | 0 <= k < |ranges| :: ranges[k].low <= asn <= ranges[k].high
  }

  /** Some AS of the path lies in one of the ranges. */
  predicate MeetsAny(path: seq<nat>, ranges: seq<Range>) {
    exists k | 0 <= k < |path| :: InRanges(path[k], ranges)
  }

  /** A standard community has two parts, a large one three. */
  datatype Community = Std(a: nat, b: nat) | Large(a: nat, b: nat, c: nat)

  datatype Route = Route(net: Prefix, path: seq<nat>, communities: set<Community>, localPref: nat, blackhole: bool) {
    /** bgp_path.first, 0 on an empty path. */
    function FirstAS(): nat { if path == [] then 0 else path[0] }

    /** bgp_path.last, the AS that originated the route; 0 on an empty path. */
    function OriginAS(): nat { if path == [] then 0 else path[|path| - 1] }
  }

  // ----- the filter language

  /** A community written out, or named by a define. `large` says which attribute the line names. */
  datatype CommunityExpr = Value(value: Community) | Symbol(name: string, large: bool)

  datatype Cond =
    | NetIs(net: Prefix)
    | LenIs(n: nat)
    | LenBelow(n: nat)
    | LenAbove(n: nat)
    | NetIn(symbol: string)
    | NetInside(patterns: seq<Pattern>)
    | Carries(community: CommunityExpr)
    | OriginIn(symbol: string)
    | FirstIs(asn: nat)
    | OriginIs(asn: nat)
    | RoaInvalid(table: string)
    | PathAbove(n: nat)
    | PathHas(asn: nat)
    | PathMeets(symbol: string)
    | Not(c: Cond)
    | And(left: Cond, right: Cond)
    | Or(left: Cond, right: Cond)

  datatype Action =
    | Accept
    | Reject
    | DiscardTraffic
    | AddCommunity(community: CommunityExpr)
    | DeleteLargeOf(asn: nat)
    | SetLocalPref(n: nat)
    | PrependOwn

  datatype Stmt = If(cond: Cond, actions: seq<Action>) | Do(action: Action) | Call(name: string)

  // ----- a configuration is a list of declarations

  datatype SessionOption =
    | LocalAs(address: string)
    | LocalRole(role: string)
    | Multihop(hops: nat)
    | TtlSecurity
    | Passive
    | Bfd(interval: nat, multiplier: nat)
    | GracefulRestart(on: bool)
    | RrClient
    | RrClusterId(id: string)
    | Disabled
    | Neighbor(address: string, asn: nat)
    | Interface(name: string)
    | Password(secret: string)

  datatype ChannelImport = ImportAll | ImportFilter(filter: string)
  datatype ChannelExport = ExportAll | ExportNone | ExportFilter(filter: string)

  datatype Channel = Channel(family: Family, imports: ChannelImport, exports: ChannelExport,
                             nextHopSelf: bool, limit: nat, limitAction: string)

  datatype Decl =
    | DefineNumber(name: string, number: nat)
    | DefineCommunity(name: string, value: Community)
    | DefinePrefixes(name: string, patterns: seq<Pattern>)
    | DefineASNs(name: string, ranges: seq<Range>)
    | RoaTable(name: string)
    | FunctionDecl(name: string, body: seq<Stmt>)
    | FilterDecl(name: string, body: seq<Stmt>)
    | TemplateDecl(name: string, options: seq<SessionOption>)
    | BgpProtocol(name: string, from: Option<string>, options: seq<SessionOption>, channel: Channel)
    | RpkiProtocol(name: string)
    | OtherProtocol(name: string)

  type Config = seq<Decl>

  /** BIRD resolves a symbol to its declaration. */
  function Find(cfg: Config, name: string): Option<Decl> {
    if cfg == [] then None else if cfg[0].name == name then Some(cfg[0]) else Find(cfg[1..], name)
  }

  function PrefixesOf(cfg: Config, name: string): seq<Pattern> {
    match Find(cfg, name)
    case Some(DefinePrefixes(_, patterns)) => patterns
    case _ => []
  }

  function RangesOf(cfg: Config, name: string): seq<Range> {
    match Find(cfg, name)
    case Some(DefineASNs(_, ranges)) => ranges
    case _ => []
  }

  function CommunityOf(cfg: Config, e: CommunityExpr): Option<Community> {
    match e
    case Value(c) => Some(c)
    case Symbol(name, _) =>
      match Find(cfg, name)
      case Some(DefineCommunity(_, c)) => Some(c)
      case _ => None
  }

  function BodyOf(cfg: Config, name: string): seq<Stmt> {
    match Find(cfg, name)
    case Some(FunctionDecl(_, body)) => body
    case Some(FilterDecl(_, body)) => body
    case _ => []
  }

  /** The AS that stands for LOCAL_ASN. */
  function NumberOf(cfg: Config, name: string): nat {
    match Find(cfg, name)
    case Some(DefineNumber(_, n)) => n
    case _ => 0
  }

  // ----- evaluation

  /** What a route-origin check says: table, prefix and origin AS to "invalid". */
  type Roa = (string, Prefix, nat) -> bool

  predicate Holds(cfg: Config, roa: Roa, c: Cond, r: Route) {
    match c
    case NetIs(net) => r.net == net
    case LenIs(n) => r.net.Len() == n
    case LenBelow(n) => r.net.Len() < n
    case LenAbove(n) => r.net.Len() > n
    case NetIn(s) => AnyMatches(PrefixesOf(cfg, s), r.net)
    case NetInside(patterns) => AnyMatches(patterns, r.net)
    case Carries(e) => CommunityOf(cfg, e).Some? && CommunityOf(cfg, e).value in r.communities
    case OriginIn(s) => InRanges(r.OriginAS(), RangesOf(cfg, s))
    case FirstIs(asn) => r.FirstAS() == asn
    case OriginIs(asn) => r.OriginAS() == asn
    case RoaInvalid(table) => roa(table, r.net, r.OriginAS())
    case PathAbove(n) => |r.path| > n
    case PathHas(asn) => asn in r.path
    case PathMeets(s) => MeetsAny(r.path, RangesOf(cfg, s))
    case Not(d) => !Holds(cfg, roa, d, r)
    case And(d, e) => Holds(cfg, roa, d, r) && Holds(cfg, roa, e, r)
    case Or(d, e) => Holds(cfg, roa, d, r) || Holds(cfg, roa, e, r)
  }

  /** How running a piece of filter code ends. */
  datatype Outcome = Accepted(route: Route) | Rejected | Ended(route: Route)

  function DeleteLarge(s: set<Community>, asn: nat): set<Community> {
    set c | c in s && !(c.Large? && c.a == asn)
  }

  function Act(cfg: Config, a: Action, r: Route): Outcome {
    match a
    case Accept => Accepted(r)
    case Reject => Rejected
    case DiscardTraffic => Ended(r.(blackhole := true))
    case AddCommunity(e) =>
      (match CommunityOf(cfg, e)
       case Some(c) => Ended(r.(communities := r.communities + {c}))
       case None => Ended(r))
    case DeleteLargeOf(asn) => Ended(r.(communities := DeleteLarge(r.communities, asn)))
    case SetLocalPref(n) => Ended(r.(localPref := n))
    case PrependOwn => Ended(r.(path := [NumberOf(cfg, "LOCAL_ASN")] + r.path))
  }

  function ActAll(cfg: Config, acts: seq<Action>, r: Route): Outcome {
    if acts == [] then Ended(r)
    else
      match Act(cfg, acts[0], r)
      case Ended(r') => ActAll(cfg, acts[1..], r')
      case done => done
  }

  /** Runs a body. An accept or reject inside a called function ends the whole filter. BIRD has
      no recursion; generated functions call nothing, so one level of calls is all there is. */
  function Run(cfg: Config, roa: Roa, body: seq<Stmt>, r: Route, depth: nat): Outcome
    decreases depth, |body|
  {
    if body == [] then Ended(r)
    else
      match Step(cfg, roa, body[0], r, depth)
      case Ended(r') => Run(cfg, roa, body[1..], r', depth)
      case done => done
  }

  function Step(cfg: Config, roa: Roa, s: Stmt, r: Route, depth: nat): Outcome
    decreases depth, 0
  {
    match s
    case If(c, acts) => if Holds(cfg, roa, c, r) then ActAll(cfg, acts, r) else Ended(r)
    case Do(a) => Act(cfg, a, r)
    case Call(f) => if depth == 0 then Ended(r) else Run(cfg, roa, BodyOf(cfg, f), r, depth - 1)
  }

  /** Running a filter: reaching its end without a verdict rejects. */
  function RunFilter(cfg: Config, roa: Roa, body: seq<Stmt>, r: Route): Outcome {
    match Run(cfg, roa, body, r, 1)
    case Ended(_) => Rejected
    case done => done
  }

  /** Code one after the other: the second part runs where the first ended. */
  function Then(o: Outcome, cfg: Config, roa: Roa, body: seq<Stmt>, depth: nat): Outcome {
    match o
    case Ended(r) => Run(cfg, roa, body, r, depth)
    case done => done
  }

  lemma {:induction false} RunConcat(cfg: Config, roa: Roa, a: seq<Stmt>, b: seq<Stmt>, r: Route, depth: nat)
    ensures Run(cfg, roa, a + b, r, depth) == Then(Run(cfg, roa, a, r, depth), cfg, roa, b, depth)
    decreases |a|
  {
    if a == [] {
      assert a + b == b;
    } else {
      assert (a + b)[0] == a[0] && (a + b)[1..] == a[1..] + b;
      match Step(cfg, roa, a[0], r, depth)
      case Ended(r') => RunConcat(cfg, roa, a[1..], b, r', depth);
      case _ =>
    }
  }

  lemma {:induction false} RunOne(cfg: Config, roa: Roa, s: Stmt, r: Route, depth: nat)
    ensures Run(cfg, roa, [s], r, depth) == Step(cfg, roa, s, r, depth)
  {
    assert [s][1..] == [];
    match Step(cfg, roa, s, r, depth)
    case Ended(r') => assert Run(cfg, roa, [], r', depth) == Ended(r');
    case _ =>
  }
}
