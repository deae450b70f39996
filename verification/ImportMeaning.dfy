/** What a generated import policy means, in the policy model's own terms. */
module ImportMeaning {
  import opened Options
  import opened Bird
  import opened Model
  import opened Compile

  // ----- the symbols of a loaded configuration

  function Patterns(entries: seq<PrefixEntry>): (ps: seq<Pattern>)
    ensures |ps| == |entries| && forall k | 0 <= k < |ps| :: ps[k] == entries[k].AsPattern()
  {
    seq(|entries|, k requires 0 <= k < |entries| => entries[k].AsPattern())
  }

  predicate Rendered(ps: PrefixSet) { !ps.disabled && ps.entries != [] }

  function BogonRanges(list: seq<BogonASN>, exceptPrivate: bool): seq<Range> {
    if list == [] then []
    else (if exceptPrivate && list[0].isPrivate then [] else [list[0].range]) + BogonRanges(list[1..], exceptPrivate)
  }

  /** The prefixes a family's bogon set holds; none when the set is not rendered. */
  function BogonNets(inp: Input, fam: Family): seq<Pattern> { BogonNetsIn(inp.prefixSets, fam) }

  function BogonNetsIn(sets: seq<PrefixSet>, fam: Family): seq<Pattern> {
    if sets == [] then []
    else if sets[0].name == BogonSet(fam) && Rendered(sets[0]) then Patterns(sets[0].entries)
    else BogonNetsIn(sets[1..], fam)
  }

  /** The names birdy declares on its own stand for what it says they do. */
  ghost predicate FixedSymbols(cfg: Config, inp: Input) {
    && NumberOf(cfg, "LOCAL_ASN") == inp.localASN
    && (forall role | role != IBGP ::
          CommunityOf(cfg, Symbol(TagName(role), true)) == Some(Tag(inp.localASN, role)))
    && CommunityOf(cfg, Symbol("RPKI_INVALID", true)) == Some(RpkiInvalidTag(inp.localASN))
    && RangesOf(cfg, "BOGON_ASNS") == BogonRanges(Bogons(inp), false)
    && RangesOf(cfg, "BOGON_ASNS_EXCEPT_PRIVATE") == BogonRanges(Bogons(inp), true)
  }

  /** So do the library's sets and communities. */
  ghost predicate LibrarySymbols(cfg: Config, inp: Input) {
    && (forall fam :: PrefixesOf(cfg, BogonSet(fam)) == BogonNets(inp, fam))
    && (forall ps | ps in inp.prefixSets && Rendered(ps) :: PrefixesOf(cfg, ps.name) == Patterns(ps.entries))
    && (forall s | s in inp.asSets && s.entries != [] :: RangesOf(cfg, s.name) == s.entries)
    && (forall ref | Resolve(inp.communities, ref).Some? ::
          CommunityOf(cfg, RefExpr(inp.communities, ref)) == Resolve(inp.communities, ref))
  }

  /** So do the functions and filters. */
  ghost predicate CodeSymbols(cfg: Config, inp: Input) {
    && (forall pol, fam | pol in inp.policies && PolicyBody(inp, pol, fam).Ok? ::
          BodyOf(cfg, PolicyFunc(pol, fam)) == PolicyBody(inp, pol, fam).value)
    && (forall p | p in inp.peers && (!p.IsIBGP() || p.importPolicies != []) ::
          BodyOf(cfg, ImportFilterName(p)) == ImportFilterBody(inp, p))
    && (forall p | p in inp.peers && p.exportPolicies != [] ::
          BodyOf(cfg, ExportFilterName(p)) == ExportFilterBody(inp, p))
  }

  /** Every symbol generated filters use stands for what the model says. */
  ghost predicate Loaded(cfg: Config, inp: Input) {
    FixedSymbols(cfg, inp) && LibrarySymbols(cfg, inp) && CodeSymbols(cfg, inp)
  }

  /** A route of a family. */
  predicate OfFamily(r: Route, fam: Family) { r.net.family == fam && r.net.Len() <= fam.HostBits() }

  /** The policy's community match, if any, names something. */
  ghost predicate KnownMatch(inp: Input, pol: Policy) {
    pol.matchCommunity.Some? ==> Resolve(inp.communities, pol.matchCommunity.value).Some?
  }

  lemma {:induction false} SetByIDIn(sets: seq<PrefixSet>, id: int)
    ensures SetByID(sets, id).Some? ==> SetByID(sets, id).value in sets
  {
    if sets != [] { SetByIDIn(sets[..|sets| - 1], id); }
  }

  lemma {:induction false} ASSetByIDIn(sets: seq<ASSet>, id: int)
    ensures ASSetByID(sets, id).Some? ==> ASSetByID(sets, id).value in sets
  {
    if sets != [] { ASSetByIDIn(sets[..|sets| - 1], id); }
  }

  // ----- the meaning of one policy

  predicate InSet(ps: PrefixSet, net: Prefix) { AnyMatches(Patterns(ps.entries), net) }

  /** The prefix lies inside one of the set's base prefixes. */
  predicate InsideBase(ps: PrefixSet, net: Prefix) {
    exists k | 0 <= k < |ps.entries| :: ps.entries[k].prefix.Covers(net)
  }

  /** The allow-list this policy is built on is off, or belongs to the other family. */
  predicate Shut(inp: Input, pol: Policy, fam: Family) {
    pol.acceptOnlySet.Some? &&
    match SetByID(inp.prefixSets, pol.acceptOnlySet.value)
    case None => false
    case Some(ps) => ps.disabled || ps.family != fam
  }

  /** RFC 7999: a host route tagged BLACKHOLE, inside an authorised prefix when there is an
      allow-list, is accepted and discarded. */
  predicate Discards(inp: Input, pol: Policy, fam: Family, r: Route) {
    && pol.acceptBlackhole && BLACKHOLE in r.communities && r.net.Len() == fam.HostBits()
    && (pol.acceptOnlySet.Some? ==>
          match SetByID(inp.prefixSets, pol.acceptOnlySet.value)
          case None => true
          case Some(ps) => InsideBase(ps, r.net))
  }

  predicate IsDefault(fam: Family, r: Route) { r.net == AnyRoute(fam) }

  predicate BadDefault(pol: Policy, fam: Family, r: Route) {
    || (pol.defaultRoute == RejectDefault && IsDefault(fam, r))
    || (pol.defaultRoute == OnlyDefault && !IsDefault(fam, r))
  }

  /** Outside the length window; a policy that takes the default does not measure it. */
  predicate BadLength(pol: Policy, fam: Family, r: Route) {
    && pol.defaultRoute != OnlyDefault
    && !(pol.defaultRoute == AcceptDefault && IsDefault(fam, r))
    && ((MinLen(pol, fam) > 0 && r.net.Len() < MinLen(pol, fam))
        || (MaxLen(pol, fam) > 0 && r.net.Len() > MaxLen(pol, fam)))
  }

  predicate BadCommunity(inp: Input, pol: Policy, r: Route) {
    pol.matchCommunity.Some? &&
    match Resolve(inp.communities, pol.matchCommunity.value)
    case None => false
    case Some(c) => c in r.communities
  }

  predicate NotListed(inp: Input, pol: Policy, r: Route) {
    pol.acceptOnlySet.Some? &&
    match SetByID(inp.prefixSets, pol.acceptOnlySet.value)
    case None => false
    case Some(ps) => !InSet(ps, r.net)
  }

  /** The ROA table of the route's own family calls its origin invalid. */
  predicate RpkiInvalid(roa: Roa, r: Route) { roa(RoaTableOf(r.net.family), r.net, r.OriginAS()) }

  predicate BadOrigin(inp: Input, pol: Policy, r: Route) {
    pol.originASSet.Some? &&
    match ASSetByID(inp.asSets, pol.originASSet.value)
    case None => false
    case Some(s) => !InRanges(r.OriginAS(), s.entries)
  }

  predicate BadPath(inp: Input, pol: Policy, r: Route) {
    || (pol.maxASPathLen > 0 && |r.path| > pol.maxASPathLen)
    || (pol.rejectOwnASN && inp.localASN in r.path)
    || (pol.bogonASNs != BogonsOff
        && MeetsAny(r.path, BogonRanges(Bogons(inp), pol.bogonASNs == BogonsExceptPrivate)))
  }

  /** The objections that do not look at communities. */
  predicate ObjectsToNet(inp: Input, pol: Policy, fam: Family, roa: Roa, r: Route) {
    || BadDefault(pol, fam, r)
    || BadLength(pol, fam, r)
    || (pol.rejectBogonPrefixes && AnyMatches(BogonNets(inp, fam), r.net))
    || NotListed(inp, pol, r)
    || BadOrigin(inp, pol, r)
    || (pol.rov == RovReject && RpkiInvalid(roa, r))
    || BadPath(inp, pol, r)
  }

  /** Any one of these is a veto. */
  predicate Objects(inp: Input, pol: Policy, fam: Family, roa: Roa, r: Route) {
    ObjectsToNet(inp, pol, fam, roa, r) || BadCommunity(inp, pol, r)
  }

  /** What a policy that has no objection does to a route. */
  function Mark(inp: Input, pol: Policy, roa: Roa, r: Route): Route {
    r.(communities := if pol.rov == RovLog && RpkiInvalid(roa, r)
                      then r.communities + {RpkiInvalidTag(inp.localASN)} else r.communities,
       localPref := if pol.setLocalPref > 0 then pol.setLocalPref else r.localPref)
  }

  /** What one import policy decides about a route. */
  function ImportVerdict(inp: Input, pol: Policy, fam: Family, roa: Roa, r: Route): Outcome {
    if Shut(inp, pol, fam) then Rejected
    else if Discards(inp, pol, fam, r) then Accepted(r.(blackhole := true))
    else if Objects(inp, pol, fam, roa, r) then Rejected
    else Ended(Mark(inp, pol, roa, r))
  }

  // ----- code made of vetoes

  ghost predicate VetoesOnly(body: seq<Stmt>) {
    forall k | 0 <= k < |body| :: body[k].If? && body[k].actions == [Reject]
  }

  /** Some line of the code applies to the route. */
  predicate Hits(cfg: Config, roa: Roa, body: seq<Stmt>, r: Route) {
    body != [] && ((body[0].If? && Holds(cfg, roa, body[0].cond, r)) || Hits(cfg, roa, body[1..], r))
  }

  lemma {:induction false} HitsConcat(cfg: Config, roa: Roa, a: seq<Stmt>, b: seq<Stmt>, r: Route)
    ensures Hits(cfg, roa, a + b, r) == (Hits(cfg, roa, a, r) || Hits(cfg, roa, b, r))
  {
    if a == [] {
      assert a + b == b;
    } else {
      assert (a + b)[0] == a[0] && (a + b)[1..] == a[1..] + b;
      HitsConcat(cfg, roa, a[1..], b, r);
    }
  }

  lemma {:induction false} HitsOne(cfg: Config, roa: Roa, s: Stmt, r: Route)
    ensures Hits(cfg, roa, [s], r) == (s.If? && Holds(cfg, roa, s.cond, r))
  {
    assert [s][1..] == [];
  }

  /** Vetoes reject a route one of them applies to, and leave any other as it was. */
  lemma {:induction false} RunVetoes(cfg: Config, roa: Roa, body: seq<Stmt>, r: Route, depth: nat)
    requires VetoesOnly(body)
    ensures Run(cfg, roa, body, r, depth) == if Hits(cfg, roa, body, r) then Rejected else Ended(r)
    decreases |body|
  {
    if body != [] {
      assert ActAll(cfg, [Reject], r) == Rejected;
      RunVetoes(cfg, roa, body[1..], r, depth);
    }
  }

  lemma {:induction false} HitsFive(cfg: Config, roa: Roa, a: seq<Stmt>, b: seq<Stmt>, c: seq<Stmt>, d: seq<Stmt>, e: seq<Stmt>, r: Route)
    ensures Hits(cfg, roa, a + b + c + d + e, r) ==
            (Hits(cfg, roa, a, r) || Hits(cfg, roa, b, r) || Hits(cfg, roa, c, r) || Hits(cfg, roa, d, r)
             || Hits(cfg, roa, e, r))
    ensures VetoesOnly(a) && VetoesOnly(b) && VetoesOnly(c) && VetoesOnly(d) && VetoesOnly(e) ==>
              VetoesOnly(a + b + c + d + e)
  {
    HitsConcat(cfg, roa, a + b + c + d, e, r);
    HitsConcat(cfg, roa, a + b + c, d, r);
    HitsConcat(cfg, roa, a + b, c, r);
    HitsConcat(cfg, roa, a, b, r);
  }

  lemma {:induction false} VetoHits(cfg: Config, roa: Roa, on: bool, c: Cond, r: Route)
    ensures VetoesOnly(Veto(on, c)) && Hits(cfg, roa, Veto(on, c), r) == (on && Holds(cfg, roa, c, r))
  {
    if on { HitsOne(cfg, roa, If(c, [Reject]), r); }
  }

  lemma {:induction false} MatchHits(cfg: Config, inp: Input, pol: Policy, roa: Roa, r: Route)
    requires LibrarySymbols(cfg, inp) && KnownMatch(inp, pol)
    ensures VetoesOnly(MatchPart(inp.communities, pol, Reject))
    ensures Hits(cfg, roa, MatchPart(inp.communities, pol, Reject), r) == BadCommunity(inp, pol, r)
  {
    var part := MatchPart(inp.communities, pol, Reject);
    if part != [] { HitsOne(cfg, roa, part[0], r); }
  }

  lemma {:induction false} AllowListHits(cfg: Config, inp: Input, pol: Policy, fam: Family, roa: Roa, r: Route)
    requires LibrarySymbols(cfg, inp) && AllowListGate(inp.prefixSets, pol, fam) == Ok(None)
    ensures VetoesOnly(AllowListPart(inp.prefixSets, pol))
    ensures Hits(cfg, roa, AllowListPart(inp.prefixSets, pol), r) == NotListed(inp, pol, r)
  {
    var part := AllowListPart(inp.prefixSets, pol);
    if part != [] {
      HitsOne(cfg, roa, part[0], r);
      SetByIDIn(inp.prefixSets, pol.acceptOnlySet.value);
    }
  }

  lemma {:induction false} EarlyChecksMeaning(cfg: Config, inp: Input, pol: Policy, fam: Family, roa: Roa, r: Route)
    requires LibrarySymbols(cfg, inp) && KnownMatch(inp, pol)
    requires AllowListGate(inp.prefixSets, pol, fam) == Ok(None)
    ensures VetoesOnly(EarlyChecks(inp, pol, fam))
    ensures Hits(cfg, roa, EarlyChecks(inp, pol, fam), r) <==>
              || BadDefault(pol, fam, r) || BadLength(pol, fam, r)
              || (pol.rejectBogonPrefixes && AnyMatches(BogonNets(inp, fam), r.net))
              || BadCommunity(inp, pol, r) || NotListed(inp, pol, r)
  {
    HitsFive(cfg, roa, DefaultPart(pol, fam), LengthPart(pol, fam),
             Veto(pol.rejectBogonPrefixes, NetIn(BogonSet(fam))),
             MatchPart(inp.communities, pol, Reject), AllowListPart(inp.prefixSets, pol), r);
    DefaultHits(cfg, pol, fam, roa, r);
    LengthHits(cfg, pol, fam, roa, r);
    VetoHits(cfg, roa, pol.rejectBogonPrefixes, NetIn(BogonSet(fam)), r);
    MatchHits(cfg, inp, pol, roa, r);
    AllowListHits(cfg, inp, pol, fam, roa, r);
  }

  lemma {:induction false} DefaultHits(cfg: Config, pol: Policy, fam: Family, roa: Roa, r: Route)
    ensures VetoesOnly(DefaultPart(pol, fam))
    ensures Hits(cfg, roa, DefaultPart(pol, fam), r) == BadDefault(pol, fam, r)
  {
    var a := DefaultPart(pol, fam);
    if a != [] { HitsOne(cfg, roa, a[0], r); }
  }

  lemma {:induction false} LengthHits(cfg: Config, pol: Policy, fam: Family, roa: Roa, r: Route)
    ensures VetoesOnly(LengthPart(pol, fam))
    ensures Hits(cfg, roa, LengthPart(pol, fam), r) == BadLength(pol, fam, r)
  {
    var min, max := MinLen(pol, fam), MaxLen(pol, fam);
    var c, notDefault := LengthCond(min, max), Not(NetIs(AnyRoute(fam)));
    if pol.defaultRoute != OnlyDefault && (min > 0 || max > 0) {
      assert Holds(cfg, roa, LenBelow(min), r) == (r.net.Len() < min);
      assert Holds(cfg, roa, LenAbove(max), r) == (r.net.Len() > max);
      assert Holds(cfg, roa, c, r) == ((min > 0 && r.net.Len() < min) || (max > 0 && r.net.Len() > max));
      assert Holds(cfg, roa, NetIs(AnyRoute(fam)), r) == IsDefault(fam, r);
      assert Holds(cfg, roa, notDefault, r) == !IsDefault(fam, r);
      var guard := if pol.defaultRoute == AcceptDefault then And(notDefault, c) else c;
      HitsOne(cfg, roa, If(guard, [Reject]), r);
      assert LengthPart(pol, fam) == [If(guard, [Reject])];
    }
  }

  lemma {:induction false} BogonASNHits(cfg: Config, inp: Input, pol: Policy, roa: Roa, r: Route)
    requires FixedSymbols(cfg, inp)
    ensures VetoesOnly(BogonASNPart(pol))
    ensures Hits(cfg, roa, BogonASNPart(pol), r) ==
            (pol.bogonASNs != BogonsOff
             && MeetsAny(r.path, BogonRanges(Bogons(inp), pol.bogonASNs == BogonsExceptPrivate)))
  {
    var part := BogonASNPart(pol);
    if part != [] { HitsOne(cfg, roa, part[0], r); }
  }

  lemma {:induction false} PathVetoes(cfg: Config, inp: Input, pol: Policy, roa: Roa, r: Route)
    requires FixedSymbols(cfg, inp)
    ensures var vetoes := Veto(pol.maxASPathLen > 0, PathAbove(pol.maxASPathLen))
                          + Veto(pol.rejectOwnASN, PathHas(inp.localASN)) + BogonASNPart(pol);
      VetoesOnly(vetoes) && Hits(cfg, roa, vetoes, r) == BadPath(inp, pol, r)
  {
    var a, b, c := Veto(pol.maxASPathLen > 0, PathAbove(pol.maxASPathLen)),
                   Veto(pol.rejectOwnASN, PathHas(inp.localASN)), BogonASNPart(pol);
    HitsConcat(cfg, roa, a + b, c, r);
    HitsConcat(cfg, roa, a, b, r);
    VetoHits(cfg, roa, pol.maxASPathLen > 0, PathAbove(pol.maxASPathLen), r);
    VetoHits(cfg, roa, pol.rejectOwnASN, PathHas(inp.localASN), r);
    BogonASNHits(cfg, inp, pol, roa, r);
  }

  lemma {:induction false} LateChecksMeaning(cfg: Config, inp: Input, pol: Policy, roa: Roa, r: Route, depth: nat)
    requires FixedSymbols(cfg, inp)
    ensures Run(cfg, roa, LateChecks(inp, pol), r, depth) ==
            if BadPath(inp, pol, r) then Rejected
            else Ended(r.(localPref := if pol.setLocalPref > 0 then pol.setLocalPref else r.localPref))
  {
    var vetoes := Veto(pol.maxASPathLen > 0, PathAbove(pol.maxASPathLen))
                  + Veto(pol.rejectOwnASN, PathHas(inp.localASN)) + BogonASNPart(pol);
    PathVetoes(cfg, inp, pol, roa, r);
    RunVetoes(cfg, roa, vetoes, r, depth);
    RunConcat(cfg, roa, vetoes, LocalPrefPart(pol), r, depth);
    LocalPrefMeaning(cfg, pol, roa, r, depth);
  }

  lemma {:induction false} LocalPrefMeaning(cfg: Config, pol: Policy, roa: Roa, r: Route, depth: nat)
    ensures Run(cfg, roa, LocalPrefPart(pol), r, depth) ==
            Ended(r.(localPref := if pol.setLocalPref > 0 then pol.setLocalPref else r.localPref))
  {
    if pol.setLocalPref > 0 { RunOne(cfg, roa, Do(SetLocalPref(pol.setLocalPref)), r, depth); }
  }

  lemma {:induction false} OriginMeaning(cfg: Config, inp: Input, pol: Policy, roa: Roa, r: Route)
    requires LibrarySymbols(cfg, inp) && OriginPart(inp.asSets, pol).Ok?
    ensures VetoesOnly(OriginPart(inp.asSets, pol).value)
    ensures Hits(cfg, roa, OriginPart(inp.asSets, pol).value, r) == BadOrigin(inp, pol, r)
  {
    var part := OriginPart(inp.asSets, pol).value;
    if part != [] {
      HitsOne(cfg, roa, part[0], r);
      ASSetByIDIn(inp.asSets, pol.originASSet.value);
    }
  }

  lemma {:induction false} RovMeaning(cfg: Config, inp: Input, pol: Policy, fam: Family, roa: Roa, r: Route, depth: nat)
    requires FixedSymbols(cfg, inp) && r.net.family == fam
    ensures Run(cfg, roa, RovPart(pol, fam), r, depth) ==
            if pol.rov == RovReject && RpkiInvalid(roa, r) then Rejected
            else Ended(r.(communities := if pol.rov == RovLog && RpkiInvalid(roa, r)
                                         then r.communities + {RpkiInvalidTag(inp.localASN)} else r.communities))
  {
    var part := RovPart(pol, fam);
    if part != [] {
      RunOne(cfg, roa, part[0], r, depth);
      assert part[0].actions[1..] == [];
      assert ActAll(cfg, part[0].actions, r) ==
        if pol.rov == RovReject then Rejected
        else Ended(r.(communities := r.communities + {RpkiInvalidTag(inp.localASN)}));
    }
  }

  lemma {:induction false} BlackholeMeaning(cfg: Config, inp: Input, pol: Policy, fam: Family, roa: Roa, r: Route, depth: nat)
    requires AllowListGate(inp.prefixSets, pol, fam) == Ok(None)
    requires OfFamily(r, fam)
    ensures Run(cfg, roa, BlackholePart(inp.prefixSets, pol, fam), r, depth) ==
            if Discards(inp, pol, fam, r) then Accepted(r.(blackhole := true)) else Ended(r)
  {
    if pol.acceptBlackhole {
      var c := BlackholeCond(inp.prefixSets, pol, fam);
      var host := And(Carries(Value(BLACKHOLE)), LenIs(fam.HostBits()));
      RunOne(cfg, roa, If(c, [DiscardTraffic, Accept]), r, depth);
      assert [DiscardTraffic, Accept][1..] == [Accept];
      assert ActAll(cfg, [DiscardTraffic, Accept], r) == Accepted(r.(blackhole := true));
      assert Holds(cfg, roa, host, r) == (BLACKHOLE in r.communities && r.net.Len() == fam.HostBits());
      if pol.acceptOnlySet.Some? {
        var ps := SetByID(inp.prefixSets, pol.acceptOnlySet.value).value;
        if r.net.Len() == fam.HostBits() { CoversAreSupernets(ps.entries, r.net); }
        assert Holds(cfg, roa, c, r) == (Holds(cfg, roa, host, r) && Holds(cfg, roa, NetInside(CoverPatterns(ps.entries)), r));
      }
    }
  }

  /** For a host route, matching one of the "prefix+" patterns is lying inside a base prefix. */
  lemma {:induction false} CoversAreSupernets(entries: seq<PrefixEntry>, net: Prefix)
    requires net.Len() == net.family.HostBits()
    ensures AnyMatches(CoverPatterns(entries), net) <==>
              exists k | 0 <= k < |entries| :: entries[k].prefix.Covers(net)
  {
    var ps := CoverPatterns(entries);
    forall k | 0 <= k < |entries|
      ensures ps[k].Matches(net) <==> entries[k].prefix.Covers(net)
    {
    }
    if AnyMatches(ps, net) {
      var k :| 0 <= k < |ps| && ps[k].Matches(net);
      assert entries[k].prefix.Covers(net);
    }
    if k :| 0 <= k < |entries| && entries[k].prefix.Covers(net) {
      assert ps[k].Matches(net);
    }
  }

  /** The generated function means what its policy says. */
  lemma {:induction false} ImportBodyMeaning(cfg: Config, inp: Input, pol: Policy, fam: Family, roa: Roa, r: Route, depth: nat)
    requires FixedSymbols(cfg, inp) && LibrarySymbols(cfg, inp) && KnownMatch(inp, pol) && ImportBody(inp, pol, fam).Ok?
    requires OfFamily(r, fam)
    ensures Run(cfg, roa, ImportBody(inp, pol, fam).value, r, depth) == ImportVerdict(inp, pol, fam, roa, r)
  {
    var body := ImportBody(inp, pol, fam).value;
    if AllowListGate(inp.prefixSets, pol, fam) != Ok(None) {
      RunOne(cfg, roa, Do(Reject), r, depth);
    } else {
      var origin := OriginPart(inp.asSets, pol).value;
      BlackholeMeaning(cfg, inp, pol, fam, roa, r, depth);
      EarlyChecksMeaning(cfg, inp, pol, fam, roa, r);
      OriginMeaning(cfg, inp, pol, roa, r);
      ChecksRun(cfg, roa, BlackholePart(inp.prefixSets, pol, fam), EarlyChecks(inp, pol, fam), origin,
                RovPart(pol, fam), LateChecks(inp, pol), r, depth);
      RovMeaning(cfg, inp, pol, fam, roa, r, depth);
      var r' := r.(communities := if pol.rov == RovLog && RpkiInvalid(roa, r)
                                  then r.communities + {RpkiInvalidTag(inp.localASN)} else r.communities);
      LateChecksMeaning(cfg, inp, pol, roa, r', depth);
      assert BadPath(inp, pol, r') == BadPath(inp, pol, r);
    }
  }

  /** Statements that decide every route of a family as an import policy says, in any configuration
      that declares what the model declares. */
  ghost predicate DecidesImport(inp: Input, pol: Policy, fam: Family, body: seq<Stmt>) {
    forall cfg, roa, r, depth | FixedSymbols(cfg, inp) && LibrarySymbols(cfg, inp) && OfFamily(r, fam) ::
      Run(cfg, roa, body, r, depth) == ImportVerdict(inp, pol, fam, roa, r)
  }

  lemma {:induction false} ImportBodyDecides(inp: Input, pol: Policy, fam: Family)
    requires KnownMatch(inp, pol) && ImportBody(inp, pol, fam).Ok?
    ensures DecidesImport(inp, pol, fam, ImportBody(inp, pol, fam).value)
  {
    forall cfg, roa, r, depth | FixedSymbols(cfg, inp) && LibrarySymbols(cfg, inp) && OfFamily(r, fam)
      ensures Run(cfg, roa, ImportBody(inp, pol, fam).value, r, depth) == ImportVerdict(inp, pol, fam, roa, r)
    {
      ImportBodyMeaning(cfg, inp, pol, fam, roa, r, depth);
    }
  }

  /** The five parts of an import body, run one after the other. */
  lemma {:induction false} ChecksRun(cfg: Config, roa: Roa, a: seq<Stmt>, b: seq<Stmt>, c: seq<Stmt>, d: seq<Stmt>, e: seq<Stmt>,
                  r: Route, depth: nat)
    requires VetoesOnly(b) && VetoesOnly(c)
    requires Run(cfg, roa, a, r, depth).Ended? ==> Run(cfg, roa, a, r, depth) == Ended(r)
    ensures Run(cfg, roa, a + b + c + d + e, r, depth) ==
            if !Run(cfg, roa, a, r, depth).Ended? then Run(cfg, roa, a, r, depth)
            else if Hits(cfg, roa, b, r) || Hits(cfg, roa, c, r) then Rejected
            else Then(Run(cfg, roa, d, r, depth), cfg, roa, e, depth)
  {
    RunConcat(cfg, roa, a + b + c + d, e, r, depth);
    RunConcat(cfg, roa, a + b + c, d, r, depth);
    RunConcat(cfg, roa, a + b, c, r, depth);
    RunConcat(cfg, roa, a, b, r, depth);
    RunVetoes(cfg, roa, b, r, depth);
    RunVetoes(cfg, roa, c, r, depth);
  }
}
