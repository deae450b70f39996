/** What a rendered policy function does with a route, said of the policy's fields, the rows they name
    and the bits of the prefix: nothing of how the function is built comes into it.
    (internal/render/render.go, writeImportBody and writeExportBody) */
module PolicyFields {
  import opened Options
  import opened Bird
  import opened Model
  import opened Compile
  import opened ImportMeaning
  import opened ImportChain
  import opened ExportMeaning
  import opened Sections
  import opened Scope
  import opened WellScopedOutput
  import opened RenderedRouter

  // ----- sets of prefixes

  /** "prefix" is that prefix, "prefix+" what lies inside it, "prefix-" what it lies inside, and
      "prefix{low,high}" what agrees with it and has a length in the bounds. */
  predicate EntryHolds(e: PrefixEntry, net: Prefix) {
    && net.family == e.prefix.family
    && match e.modifier
       case Exact => net.bits == e.prefix.bits
       case OrLonger => e.prefix.bits <= net.bits
       case OrShorter => net.bits <= e.prefix.bits
       case Between(low, high) => low <= |net.bits| <= high && (e.prefix.bits <= net.bits || net.bits <= e.prefix.bits)
  }

  predicate SetHolds(ps: PrefixSet, net: Prefix) { exists k | 0 <= k < |ps.entries| :: EntryHolds(ps.entries[k], net) }

  predicate HostLength(net: Prefix) { |net.bits| <= if net.family.V4? then 32 else 128 }

  lemma {:induction false} EntryMatches(e: PrefixEntry, net: Prefix)
    requires HostLength(net)
    ensures e.AsPattern().Matches(net) <==> EntryHolds(e, net)
  {
    if net.bits <= e.prefix.bits && |net.bits| == |e.prefix.bits| { assert net.bits == e.prefix.bits; }
    if e.prefix.bits <= net.bits && |net.bits| == |e.prefix.bits| { assert net.bits == e.prefix.bits; }
  }

  /** Being matched by a set's patterns is being held by one of its entries. */
  lemma {:induction false} InSetByModifier(ps: PrefixSet, net: Prefix)
    requires HostLength(net)
    ensures InSet(ps, net) <==> SetHolds(ps, net)
  {
    var pats := Patterns(ps.entries);
    forall k | 0 <= k < |ps.entries|
      ensures pats[k].Matches(net) <==> EntryHolds(ps.entries[k], net)
    {
      EntryMatches(ps.entries[k], net);
    }
    if k :| 0 <= k < |ps.entries| && EntryHolds(ps.entries[k], net) { assert pats[k].Matches(net); }
    if k :| 0 <= k < |pats| && pats[k].Matches(net) { assert EntryHolds(ps.entries[k], net); }
  }

  // ----- rows by id, communities by name

  /** The row with an id; of several the last one, as an index by id has it. */
  predicate IsSet(sets: seq<PrefixSet>, id: int, ps: PrefixSet) {
    exists k | 0 <= k < |sets| :: sets[k] == ps && ps.id == id && forall j | k < j < |sets| :: sets[j].id != id
  }

  predicate IsASSet(sets: seq<ASSet>, id: int, s: ASSet) {
    exists k | 0 <= k < |sets| :: sets[k] == s && s.id == id && forall j | k < j < |sets| :: sets[j].id != id
  }

  /** The community a reference stands for. */
  predicate StandsFor(defs: seq<CommunityDef>, ref: CommunityRef, c: Community) {
    match ref
    case Literal(v) => c == v
    case Named(name) =>
      exists k | 0 <= k < |defs| ::
        defs[k].value == c && defs[k].name == name && forall j | k < j < |defs| :: defs[j].name != name
  }

  lemma {:induction false} LastSet(sets: seq<PrefixSet>, id: int) returns (k: int)
    ensures -1 <= k < |sets| && forall j | k < j < |sets| :: sets[j].id != id
    ensures SetByID(sets, id) == (if k == -1 then None else Some(sets[k])) && (k >= 0 ==> sets[k].id == id)
  {
    var n := |sets| - 1;
    if sets == [] || sets[n].id == id {
      k := n;
    } else {
      k := LastSet(sets[..n], id);
      assert forall j | 0 <= j < n :: sets[..n][j] == sets[j];
    }
  }

  lemma {:induction false} SetFound(sets: seq<PrefixSet>, id: int, ps: PrefixSet)
    ensures SetByID(sets, id) == Some(ps) <==> IsSet(sets, id, ps)
  {
    var k := LastSet(sets, id);
  }

  lemma {:induction false} LastASSet(sets: seq<ASSet>, id: int) returns (k: int)
    ensures -1 <= k < |sets| && forall j | k < j < |sets| :: sets[j].id != id
    ensures ASSetByID(sets, id) == (if k == -1 then None else Some(sets[k])) && (k >= 0 ==> sets[k].id == id)
  {
    var n := |sets| - 1;
    if sets == [] || sets[n].id == id {
      k := n;
    } else {
      k := LastASSet(sets[..n], id);
      assert forall j | 0 <= j < n :: sets[..n][j] == sets[j];
    }
  }

  lemma {:induction false} ASSetFound(sets: seq<ASSet>, id: int, s: ASSet)
    ensures ASSetByID(sets, id) == Some(s) <==> IsASSet(sets, id, s)
  {
    var k := LastASSet(sets, id);
  }

  lemma {:induction false} LastNamed(defs: seq<CommunityDef>, name: string) returns (k: int)
    ensures -1 <= k < |defs| && forall j | k < j < |defs| :: defs[j].name != name
    ensures CommunityByName(defs, name) == if k == -1 then None else Some(defs[k])
    ensures k >= 0 ==> defs[k].name == name
  {
    var n := |defs| - 1;
    if defs == [] || defs[n].name == name {
      k := n;
    } else {
      k := LastNamed(defs[..n], name);
      assert forall j | 0 <= j < n :: defs[..n][j] == defs[j];
    }
  }

  lemma {:induction false} NameFound(defs: seq<CommunityDef>, name: string, c: Community)
    ensures StandsFor(defs, Named(name), c) <==> CommunityByName(defs, name).Some? && CommunityByName(defs, name).value.value == c
  {
    var k := LastNamed(defs, name);
  }

  lemma {:induction false} RefFound(defs: seq<CommunityDef>, ref: CommunityRef, c: Community)
    ensures Resolve(defs, ref) == Some(c) <==> StandsFor(defs, ref, c)
  {
    if ref.Named? { NameFound(defs, ref.name, c); }
  }

  // ----- import policies

  /** The fields and names a policy's function uses in a family. */
  datatype Bounds = Bounds(shortest: nat, longest: nat, host: nat, bogons: string, roaTable: string)

  function BoundsOf(pol: Policy, fam: Family): Bounds {
    match fam
    case V4 => Bounds(pol.minLenV4, pol.maxLenV4, 32, "BOGONS_V4", "rpki4")
    case V6 => Bounds(pol.minLenV6, pol.maxLenV6, 128, "BOGONS_V6", "rpki6")
  }

  function LastAS(path: seq<nat>): nat { if path == [] then 0 else path[|path| - 1] }

  /** The policy's allow-list is off, or of the other family: it lets nothing pass. */
  predicate Closed(inp: Input, pol: Policy, fam: Family) {
    pol.acceptOnlySet.Some?
    && exists k | 0 <= k < |inp.prefixSets| ::
         && IsSet(inp.prefixSets, pol.acceptOnlySet.value, inp.prefixSets[k])
         && (inp.prefixSets[k].disabled || inp.prefixSets[k].family != fam)
  }

  /** The route asks for its traffic to be dropped, as section 3.3 of RFC 7999 has it, and the policy
      honours that: a host route with the community 65535:666, inside a base prefix of the
      allow-list. */
  predicate AsksToDrop(inp: Input, pol: Policy, r: Route) {
    && pol.acceptBlackhole && Std(65535, 666) in r.communities && |r.net.bits| == BoundsOf(pol, r.net.family).host
    && (pol.acceptOnlySet.Some? ==>
          forall k | 0 <= k < |inp.prefixSets| && IsSet(inp.prefixSets, pol.acceptOnlySet.value, inp.prefixSets[k]) ::
            exists e | 0 <= e < |inp.prefixSets[k].entries| ::
              && inp.prefixSets[k].entries[e].prefix.family == r.net.family
              && inp.prefixSets[k].entries[e].prefix.bits <= r.net.bits)
  }

  /** The default route and the length of the others. */
  predicate LengthFits(pol: Policy, r: Route) {
    var n, b := |r.net.bits|, BoundsOf(pol, r.net.family);
    match pol.defaultRoute
    case OnlyDefault => n == 0
    case AcceptDefault => n == 0 || ((b.shortest == 0 || b.shortest <= n) && (b.longest == 0 || n <= b.longest))
    case RejectDefault => n != 0 && (b.shortest == 0 || b.shortest <= n) && (b.longest == 0 || n <= b.longest)
  }

  /** No bogon set that is on holds the prefix, where the policy rejects those. */
  predicate NoBogonPrefix(inp: Input, pol: Policy, net: Prefix) {
    pol.rejectBogonPrefixes ==>
      forall k | 0 <= k < |inp.prefixSets| ::
        var ps := inp.prefixSets[k];
        ps.name == BoundsOf(pol, net.family).bogons && !ps.disabled ==> !SetHolds(ps, net)
  }

  ghost predicate Tagged(inp: Input, pol: Policy, r: Route) {
    pol.matchCommunity.Some? && exists c | c in r.communities :: StandsFor(inp.communities, pol.matchCommunity.value, c)
  }

  predicate OnAllowList(inp: Input, pol: Policy, net: Prefix) {
    pol.acceptOnlySet.Some? ==>
      forall k | 0 <= k < |inp.prefixSets| && IsSet(inp.prefixSets, pol.acceptOnlySet.value, inp.prefixSets[k]) ::
        SetHolds(inp.prefixSets[k], net)
  }

  predicate OriginFits(inp: Input, pol: Policy, path: seq<nat>) {
    pol.originASSet.Some? ==>
      forall k | 0 <= k < |inp.asSets| && IsASSet(inp.asSets, pol.originASSet.value, inp.asSets[k]) ::
        exists e | 0 <= e < |inp.asSets[k].entries| :: inp.asSets[k].entries[e].low <= LastAS(path) <= inp.asSets[k].entries[e].high
  }

  /** The number is in a range of the list; `shared` says whether private ranges count. */
  predicate Listed(list: seq<BogonASN>, shared: bool, asn: nat) {
    exists b | 0 <= b < |list| :: list[b].range.low <= asn <= list[b].range.high && (shared || !list[b].isPrivate)
  }

  predicate PathMeetsList(list: seq<BogonASN>, shared: bool, path: seq<nat>) {
    exists k | 0 <= k < |path| :: Listed(list, shared, path[k])
  }

  predicate PathFits(inp: Input, pol: Policy, path: seq<nat>) {
    && (pol.maxASPathLen == 0 || |path| <= pol.maxASPathLen)
    && (pol.rejectOwnASN ==> inp.localASN !in path)
    && match pol.bogonASNs
       case BogonsOff => true
       case BogonsAll => !PathMeetsList(Bogons(inp), true, path)
       case BogonsExceptPrivate => !PathMeetsList(Bogons(inp), false, path)
  }

  predicate InvalidOrigin(pol: Policy, roa: Roa, r: Route) {
    roa(BoundsOf(pol, r.net.family).roaTable, r.net, LastAS(r.path))
  }

  ghost predicate Passes(inp: Input, pol: Policy, roa: Roa, r: Route) {
    && LengthFits(pol, r) && NoBogonPrefix(inp, pol, r.net) && !Tagged(inp, pol, r)
    && OnAllowList(inp, pol, r.net) && OriginFits(inp, pol, r.path) && PathFits(inp, pol, r.path)
    && (pol.rov == RovReject ==> !InvalidOrigin(pol, roa, r))
  }

  /** A route that passes: log-only validation marks an invalid one, and the policy may set the local
      preference. */
  function Marked(inp: Input, pol: Policy, roa: Roa, r: Route): Route {
    r.(communities := if pol.rov == RovLog && InvalidOrigin(pol, roa, r) then r.communities + {Large(inp.localASN, 2, 1)}
                      else r.communities,
       localPref := if pol.setLocalPref == 0 then r.localPref else pol.setLocalPref)
  }

  /** What an import policy does with a route, on its fields. */
  ghost function ImportOutcome(inp: Input, pol: Policy, roa: Roa, r: Route): Outcome {
    if Closed(inp, pol, r.net.family) then Rejected
    else if AsksToDrop(inp, pol, r) then Accepted(r.(blackhole := true))
    else if !Passes(inp, pol, roa, r) then Rejected
    else Ended(Marked(inp, pol, roa, r))
  }

  // ----- the verdict is that outcome, condition by condition

  lemma {:induction false} ClosedIsShut(inp: Input, pol: Policy, fam: Family)
    ensures Closed(inp, pol, fam) <==> Shut(inp, pol, fam)
  {
    if pol.acceptOnlySet.Some? {
      var id := pol.acceptOnlySet.value;
      var k := LastSet(inp.prefixSets, id);
      forall j | 0 <= j < |inp.prefixSets|
        ensures IsSet(inp.prefixSets, id, inp.prefixSets[j]) <==> SetByID(inp.prefixSets, id) == Some(inp.prefixSets[j])
      {
        SetFound(inp.prefixSets, id, inp.prefixSets[j]);
      }
    }
  }

  lemma {:induction false} DropIsDiscard(inp: Input, pol: Policy, fam: Family, r: Route)
    requires r.net.family == fam
    ensures AsksToDrop(inp, pol, r) <==> Discards(inp, pol, fam, r)
  {
    if pol.acceptOnlySet.Some? {
      var sets, id := inp.prefixSets, pol.acceptOnlySet.value;
      var k := LastSet(sets, id);
      forall j | 0 <= j < |sets|
        ensures IsSet(sets, id, sets[j]) <==> SetByID(sets, id) == Some(sets[j])
      {
        SetFound(sets, id, sets[j]);
      }
      if k >= 0 { InsideBaseIs(sets[k], r.net); }
    }
  }

  lemma {:induction false} InsideBaseIs(ps: PrefixSet, net: Prefix)
    ensures InsideBase(ps, net) <==>
              exists e | 0 <= e < |ps.entries| :: ps.entries[e].prefix.family == net.family && ps.entries[e].prefix.bits <= net.bits
  {
    forall e | 0 <= e < |ps.entries|
      ensures ps.entries[e].prefix.Covers(net) <==> ps.entries[e].prefix.family == net.family && ps.entries[e].prefix.bits <= net.bits
    {
    }
  }

  lemma {:induction false} LengthIs(pol: Policy, fam: Family, r: Route)
    requires r.net.family == fam
    ensures LengthFits(pol, r) <==> !BadDefault(pol, fam, r) && !BadLength(pol, fam, r)
  {
    assert IsDefault(fam, r) <==> |r.net.bits| == 0 by { if |r.net.bits| == 0 { assert r.net.bits == []; } }
  }

  lemma {:induction false} BogonsAre(cfg: Config, inp: Input, pol: Policy, net: Prefix)
    requires LibrarySymbols(cfg, inp) && HostLength(net)
    ensures NoBogonPrefix(inp, pol, net) <==> !(pol.rejectBogonPrefixes && AnyMatches(BogonNets(inp, net.family), net))
  {
    var sets, name, fam := inp.prefixSets, BoundsOf(pol, net.family).bogons, net.family;
    assert name == BogonSet(fam);
    forall k | 0 <= k < |sets| && sets[k].name == name && Rendered(sets[k])
      ensures BogonNets(inp, fam) == Patterns(sets[k].entries)
    {
      assert sets[k] in sets && PrefixesOf(cfg, BogonSet(fam)) == BogonNets(inp, fam);
    }
    forall k | 0 <= k < |sets|
      ensures InSet(sets[k], net) <==> SetHolds(sets[k], net)
    {
      InSetByModifier(sets[k], net);
    }
    var k := FirstBogonSet(sets, fam);
  }

  lemma {:induction false} FirstBogonSet(sets: seq<PrefixSet>, fam: Family) returns (k: int)
    ensures -1 <= k < |sets|
    ensures k == -1 ==> BogonNetsIn(sets, fam) == [] && forall j | 0 <= j < |sets| :: !(sets[j].name == BogonSet(fam) && Rendered(sets[j]))
    ensures k >= 0 ==> sets[k].name == BogonSet(fam) && Rendered(sets[k]) && BogonNetsIn(sets, fam) == Patterns(sets[k].entries)
  {
    if sets == [] {
      k := -1;
    } else if sets[0].name == BogonSet(fam) && Rendered(sets[0]) {
      k := 0;
    } else {
      k := FirstBogonSet(sets[1..], fam);
      assert forall j | 0 < j < |sets| :: sets[j] == sets[1..][j - 1];
      if k >= 0 { k := k + 1; }
    }
  }

  lemma {:induction false} TaggedIs(inp: Input, pol: Policy, r: Route)
    ensures Tagged(inp, pol, r) <==> BadCommunity(inp, pol, r)
  {
    if pol.matchCommunity.Some? {
      var ref := pol.matchCommunity.value;
      forall c
        ensures Resolve(inp.communities, ref) == Some(c) <==> StandsFor(inp.communities, ref, c)
      {
        RefFound(inp.communities, ref, c);
      }
    }
  }

  lemma {:induction false} AllowListIs(inp: Input, pol: Policy, r: Route)
    requires HostLength(r.net)
    ensures OnAllowList(inp, pol, r.net) <==> !NotListed(inp, pol, r)
  {
    if pol.acceptOnlySet.Some? {
      var sets, id := inp.prefixSets, pol.acceptOnlySet.value;
      var k := LastSet(sets, id);
      forall j | 0 <= j < |sets|
        ensures IsSet(sets, id, sets[j]) <==> SetByID(sets, id) == Some(sets[j])
      {
        SetFound(sets, id, sets[j]);
      }
      if k >= 0 { InSetByModifier(sets[k], r.net); }
    }
  }

  lemma {:induction false} OriginIs(inp: Input, pol: Policy, r: Route)
    ensures OriginFits(inp, pol, r.path) <==> !BadOrigin(inp, pol, r)
  {
    if pol.originASSet.Some? {
      var sets, id := inp.asSets, pol.originASSet.value;
      var k := LastASSet(sets, id);
      forall j | 0 <= j < |sets|
        ensures IsASSet(sets, id, sets[j]) <==> ASSetByID(sets, id) == Some(sets[j])
      {
        ASSetFound(sets, id, sets[j]);
      }
    }
  }

  lemma {:induction false} ListedHead(list: seq<BogonASN>, shared: bool, asn: nat)
    requires list != []
    ensures Listed(list, shared, asn) <==>
              (list[0].range.low <= asn <= list[0].range.high && (shared || !list[0].isPrivate)) || Listed(list[1..], shared, asn)
  {
    if b :| 0 <= b < |list[1..]| && list[1..][b].range.low <= asn <= list[1..][b].range.high && (shared || !list[1..][b].isPrivate) {
      assert list[b + 1] == list[1..][b];
    }
    if b :| 1 <= b < |list| && list[b].range.low <= asn <= list[b].range.high && (shared || !list[b].isPrivate) {
      assert list[1..][b - 1] == list[b];
    }
  }

  lemma {:induction false} InEither(a: seq<Range>, b: seq<Range>, asn: nat)
    ensures InRanges(asn, a + b) <==> InRanges(asn, a) || InRanges(asn, b)
  {
    if k :| 0 <= k < |a| && a[k].low <= asn <= a[k].high { assert (a + b)[k] == a[k]; }
    if k :| 0 <= k < |b| && b[k].low <= asn <= b[k].high { assert (a + b)[|a| + k] == b[k]; }
  }

  lemma {:induction false} RangesAre(list: seq<BogonASN>, shared: bool, asn: nat)
    ensures InRanges(asn, BogonRanges(list, !shared)) <==> Listed(list, shared, asn)
  {
    if list != [] {
      RangesAre(list[1..], shared, asn);
      ListedHead(list, shared, asn);
      var first := if !shared && list[0].isPrivate then [] else [list[0].range];
      InEither(first, BogonRanges(list[1..], !shared), asn);
      if first != [] { assert first[0] == list[0].range; }
    }
  }

  lemma {:induction false} PathIs(inp: Input, pol: Policy, r: Route)
    ensures PathFits(inp, pol, r.path) <==> !BadPath(inp, pol, r)
  {
    if pol.bogonASNs != BogonsOff { PathMeets(Bogons(inp), pol.bogonASNs == BogonsExceptPrivate, r.path); }
  }

  lemma {:induction false} PathMeets(list: seq<BogonASN>, exceptPrivate: bool, path: seq<nat>)
    ensures PathMeetsList(list, !exceptPrivate, path) <==> MeetsAny(path, BogonRanges(list, exceptPrivate))
  {
    forall k | 0 <= k < |path|
      ensures InRanges(path[k], BogonRanges(list, exceptPrivate)) <==> Listed(list, !exceptPrivate, path[k])
    {
      RangesAre(list, !exceptPrivate, path[k]);
    }
  }

  lemma {:induction false} PassesIs(cfg: Config, inp: Input, pol: Policy, fam: Family, roa: Roa, r: Route)
    requires LibrarySymbols(cfg, inp) && OfFamily(r, fam)
    ensures Passes(inp, pol, roa, r) <==> !Objects(inp, pol, fam, roa, r)
  {
    LengthIs(pol, fam, r);
    BogonsAre(cfg, inp, pol, r.net);
    TaggedIs(inp, pol, r);
    AllowListIs(inp, pol, r);
    OriginIs(inp, pol, r);
    PathIs(inp, pol, r);
    InvalidIs(pol, roa, r);
  }

  lemma {:induction false} InvalidIs(pol: Policy, roa: Roa, r: Route)
    ensures InvalidOrigin(pol, roa, r) == RpkiInvalid(roa, r)
  {
  }

  lemma {:induction false} VerdictIsOutcome(cfg: Config, inp: Input, pol: Policy, fam: Family, roa: Roa, r: Route)
    requires LibrarySymbols(cfg, inp) && OfFamily(r, fam)
    ensures ImportVerdict(inp, pol, fam, roa, r) == ImportOutcome(inp, pol, roa, r)
  {
    ClosedIsShut(inp, pol, fam);
    DropIsDiscard(inp, pol, fam, r);
    PassesIs(cfg, inp, pol, fam, roa, r);
    InvalidIs(pol, roa, r);
    assert Marked(inp, pol, roa, r) == Mark(inp, pol, roa, r);
  }

  // ----- the rendered functions

  /** The name of a policy's function in the file. */
  function FunctionName(pol: Policy, fam: Family): string {
    (if pol.isImport then "imp_" else "exp_") + pol.name + match fam case V4 => "_v4" case V6 => "_v6"
  }

  /** The function is in the file, and the file's names stand for what the model says. */
  lemma {:induction false} FunctionRendered(inp: Input, pol: Policy, fam: Family)
    requires Render(inp).Ok? && RefersToModel(inp) && pol in inp.policies
    ensures var cfg := Configuration(inp);
      && FixedSymbols(cfg, inp) && LibrarySymbols(cfg, inp) && KnownMatch(inp, pol) && PolicyBody(inp, pol, fam).Ok?
      && BodyOf(cfg, FunctionName(pol, fam)) == PolicyBody(inp, pol, fam).value
  {
    RenderedIsLoaded(inp);
    PolicyInConfig(inp, pol, fam);
    LoadedFunction(Configuration(inp), inp, pol, fam);
    MatchKnown(inp, pol);
  }

  lemma {:induction false} LoadedFunction(cfg: Config, inp: Input, pol: Policy, fam: Family)
    requires Loaded(cfg, inp) && pol in inp.policies && PolicyBody(inp, pol, fam).Ok?
    ensures FixedSymbols(cfg, inp) && LibrarySymbols(cfg, inp)
    ensures BodyOf(cfg, FunctionName(pol, fam)) == PolicyBody(inp, pol, fam).value
  {
    assert FunctionName(pol, fam) == PolicyFunc(pol, fam);
  }

  lemma {:induction false} MatchKnown(inp: Input, pol: Policy)
    requires RefersToModel(inp) && pol in inp.policies
    ensures KnownMatch(inp, pol)
  {
  }

  lemma {:induction false} ImportBodyOutcome(cfg: Config, inp: Input, pol: Policy, roa: Roa, r: Route, depth: nat, body: seq<Stmt>)
    requires FixedSymbols(cfg, inp) && LibrarySymbols(cfg, inp) && KnownMatch(inp, pol)
    requires PolicyBody(inp, pol, r.net.family) == Ok(body) && pol.isImport && HostLength(r.net)
    ensures Run(cfg, roa, body, r, depth) == ImportOutcome(inp, pol, roa, r)
  {
    ImportBodyMeaning(cfg, inp, pol, r.net.family, roa, r, depth);
    VerdictIsOutcome(cfg, inp, pol, r.net.family, roa, r);
  }

  /** The function rendered for an import policy does with every route of its family what the
      policy's fields say. */
  lemma {:induction false} ImportByFields(inp: Input, pol: Policy, roa: Roa, r: Route, depth: nat)
    requires Render(inp).Ok? && RefersToModel(inp) && pol in inp.policies && pol.isImport && HostLength(r.net)
    ensures Run(Configuration(inp), roa, BodyOf(Configuration(inp), FunctionName(pol, r.net.family)), r, depth)
            == ImportOutcome(inp, pol, roa, r)
  {
    FunctionRendered(inp, pol, r.net.family);
    ImportBodyOutcome(Configuration(inp), inp, pol, roa, r, depth, PolicyBody(inp, pol, r.net.family).value);
  }

  /** A prefix outside the bounds of its own family never passes, save to be dropped; the default
      route of a policy that takes it is not measured. */
  lemma {:induction false} OutOfBoundsNeverPasses(inp: Input, pol: Policy, roa: Roa, r: Route, depth: nat)
    requires Render(inp).Ok? && RefersToModel(inp) && pol in inp.policies && pol.isImport && HostLength(r.net)
    requires r.net.bits != [] || pol.defaultRoute == RejectDefault
    requires match r.net.family
      case V4 => (pol.minLenV4 > 0 && |r.net.bits| < pol.minLenV4) || (pol.maxLenV4 > 0 && |r.net.bits| > pol.maxLenV4)
      case V6 => (pol.minLenV6 > 0 && |r.net.bits| < pol.minLenV6) || (pol.maxLenV6 > 0 && |r.net.bits| > pol.maxLenV6)
    ensures Run(Configuration(inp), roa, BodyOf(Configuration(inp), FunctionName(pol, r.net.family)), r, depth) ==
            if AsksToDrop(inp, pol, r) && !Closed(inp, pol, r.net.family) then Accepted(r.(blackhole := true)) else Rejected
  {
    ImportByFields(inp, pol, roa, r, depth);
    OutOfBounds(pol, r);
  }

  lemma {:induction false} OutOfBounds(pol: Policy, r: Route)
    requires r.net.bits != [] || pol.defaultRoute == RejectDefault
    requires match r.net.family
      case V4 => (pol.minLenV4 > 0 && |r.net.bits| < pol.minLenV4) || (pol.maxLenV4 > 0 && |r.net.bits| > pol.maxLenV4)
      case V6 => (pol.minLenV6 > 0 && |r.net.bits| < pol.minLenV6) || (pol.maxLenV6 > 0 && |r.net.bits| > pol.maxLenV6)
    ensures !LengthFits(pol, r)
  {
  }

  /** The bounds of the other family make no difference. */
  lemma {:induction false} OtherBoundsDoNotMatter(inp: Input, pol: Policy, shortest: nat, longest: nat)
    requires pol.isImport
    ensures PolicyBody(inp, pol.(minLenV4 := shortest, maxLenV4 := longest), V6) == PolicyBody(inp, pol, V6)
    ensures PolicyBody(inp, pol.(minLenV6 := shortest, maxLenV6 := longest), V4) == PolicyBody(inp, pol, V4)
  {
    SameBody(inp, pol.(minLenV4 := shortest, maxLenV4 := longest), pol, V6);
    SameBody(inp, pol.(minLenV6 := shortest, maxLenV6 := longest), pol, V4);
  }

  lemma {:induction false} SameBody(inp: Input, a: Policy, b: Policy, fam: Family)
    requires a.isImport && b.isImport && BoundsOf(a, fam) == BoundsOf(b, fam)
    requires a == b.(minLenV4 := a.minLenV4, maxLenV4 := a.maxLenV4, minLenV6 := a.minLenV6, maxLenV6 := a.maxLenV6)
    ensures PolicyBody(inp, a, fam) == PolicyBody(inp, b, fam)
  {
    assert LengthPart(a, fam) == LengthPart(b, fam) && DefaultPart(a, fam) == DefaultPart(b, fam);
    assert AllowListPart(inp.prefixSets, a) == AllowListPart(inp.prefixSets, b);
    assert MatchPart(inp.communities, a, Reject) == MatchPart(inp.communities, b, Reject);
    assert EarlyChecks(inp, a, fam) == EarlyChecks(inp, b, fam);
    assert LateChecks(inp, a) == LateChecks(inp, b);
    assert OriginPart(inp.asSets, a) == OriginPart(inp.asSets, b) && RovPart(a, fam) == RovPart(b, fam);
    assert AllowListGate(inp.prefixSets, a, fam) == AllowListGate(inp.prefixSets, b, fam);
    assert BlackholePart(inp.prefixSets, a, fam) == BlackholePart(inp.prefixSets, b, fam);
  }

  // ----- export policies

  /** Something the policy announces: everything, the default route, a prefix of a set of the family
      that is on, a route with a role's tag, or one with the matched community. */
  ghost predicate Announceable(inp: Input, pol: Policy, r: Route) {
    || pol.announceEverything
    || (pol.announceDefault && r.net.bits == [])
    || (exists i, k | 0 <= i < |pol.setIDs| && 0 <= k < |inp.prefixSets| ::
          var ps := inp.prefixSets[k];
          IsSet(inp.prefixSets, pol.setIDs[i], ps) && !ps.disabled && ps.family == r.net.family && SetHolds(ps, r.net))
    || (pol.announceFromUpstream && Large(inp.localASN, 1, 1000) in r.communities)
    || (pol.announceFromIX && Large(inp.localASN, 1, 2000) in r.communities)
    || (pol.announceFromCustomer && Large(inp.localASN, 1, 3000) in r.communities)
    || Tagged(inp, pol, r)
  }

  ghost function ExportOutcome(inp: Input, pol: Policy, r: Route): Outcome {
    if !NoBogonPrefix(inp, pol, r.net) then Rejected else if Announceable(inp, pol, r) then Accepted(r) else Ended(r)
  }

  lemma {:induction false} HoldsNetIs(inp: Input, ids: seq<int>, net: Prefix)
    requires HostLength(net)
    ensures HoldsNet(inp, ids, net.family, net) <==>
              exists i, k | 0 <= i < |ids| && 0 <= k < |inp.prefixSets| ::
                var ps := inp.prefixSets[k];
                IsSet(inp.prefixSets, ids[i], ps) && !ps.disabled && ps.family == net.family && SetHolds(ps, net)
  {
    var sets := inp.prefixSets;
    forall k | 0 <= k < |sets|
      ensures InSet(sets[k], net) <==> SetHolds(sets[k], net)
    {
      InSetByModifier(sets[k], net);
    }
    forall i, k | 0 <= i < |ids| && 0 <= k < |sets|
      ensures SetByID(sets, ids[i]) == Some(sets[k]) <==> IsSet(sets, ids[i], sets[k])
    {
      SetFound(sets, ids[i], sets[k]);
    }
    forall i | 0 <= i < |ids| && SetByID(sets, ids[i]).Some?
      ensures exists k | 0 <= k < |sets| :: SetByID(sets, ids[i]) == Some(sets[k])
    {
      var k := LastSet(sets, ids[i]);
    }
  }

  lemma {:induction false} ExportVerdictIsOutcome(cfg: Config, inp: Input, pol: Policy, r: Route)
    requires LibrarySymbols(cfg, inp) && HostLength(r.net)
    ensures ExportVerdict(inp, pol, r.net.family, r) == ExportOutcome(inp, pol, r)
  {
    BogonsAre(cfg, inp, pol, r.net);
    HoldsNetIs(inp, pol.setIDs, r.net);
    TaggedIs(inp, pol, r);
    assert IsDefault(r.net.family, r) <==> r.net.bits == [];
  }

  lemma {:induction false} ExportBodyOutcome(cfg: Config, inp: Input, pol: Policy, roa: Roa, r: Route, depth: nat, body: seq<Stmt>)
    requires FixedSymbols(cfg, inp) && LibrarySymbols(cfg, inp) && KnownMatch(inp, pol)
    requires PolicyBody(inp, pol, r.net.family) == Ok(body) && !pol.isImport && HostLength(r.net)
    ensures Run(cfg, roa, body, r, depth) == ExportOutcome(inp, pol, r)
  {
    ExportBodyMeaning(cfg, inp, pol, r.net.family, roa, r, depth);
    ExportVerdictIsOutcome(cfg, inp, pol, r);
  }

  /** The function rendered for an export policy vetoes, announces or passes over every route as the
      policy's fields say. */
  lemma {:induction false} ExportByFields(inp: Input, pol: Policy, roa: Roa, r: Route, depth: nat)
    requires Render(inp).Ok? && RefersToModel(inp) && pol in inp.policies && !pol.isImport && HostLength(r.net)
    ensures Run(Configuration(inp), roa, BodyOf(Configuration(inp), FunctionName(pol, r.net.family)), r, depth)
            == ExportOutcome(inp, pol, r)
  {
    FunctionRendered(inp, pol, r.net.family);
    ExportBodyOutcome(Configuration(inp), inp, pol, roa, r, depth, PolicyBody(inp, pol, r.net.family).value);
  }

  // ----- the shipped list of bogon AS numbers

  /** With no list of the operator's own, the numbers that count are 0, AS_TRANS, and everything
      reserved, private or for documentation; 64512-65534 and 4200000000-4294967294 are private. */
  lemma {:induction false} ShippedBogons(inp: Input, asn: nat)
    requires inp.bogonASNs == []
    ensures Listed(Bogons(inp), true, asn) <==>
              asn == 0 || asn == 23456 || 64496 <= asn <= 131071 || 4200000000 <= asn <= 4294967295
    ensures Listed(Bogons(inp), false, asn) <==>
              asn == 0 || asn == 23456 || 64496 <= asn <= 64511 || 65535 <= asn <= 131071 || asn == 4294967295
  {
    var l := DefaultBogons();
    assert |l| == 9;
    assert l[0].range == Range(0, 0) && l[1].range == Range(23456, 23456) && l[2].range == Range(64496, 64511);
    assert l[3].range == Range(64512, 65534) && l[4].range == Range(65535, 65535) && l[5].range == Range(65536, 65551);
    assert l[6].range == Range(65552, 131071) && l[7].range == Range(4200000000, 4294967294);
    assert l[8].range == Range(4294967295, 4294967295);
    assert forall b | 0 <= b < 9 :: l[b].isPrivate <==> b == 3 || b == 7;
  }
}
