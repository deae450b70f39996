/** What a peer's import filter means: the path checks and tags, then the chain of policies,
    decided by the first one with an opinion. */
module ImportChain {
  import opened Options
  import opened Bird
  import opened Model
  import opened Compile
  import opened ImportMeaning

  // ----- before the chain

  /** The peer is the first AS where that is enforced, and the origin where only its own routes
      are wanted. */
  predicate PathAllowed(p: Peer<Policy>, r: Route) {
    && (p.enforceFirstAS ==> r.FirstAS() == p.remoteASN)
    && (p.originPeerOnly ==> r.OriginAS() == p.remoteASN)
  }

  function ResolvedRefs(defs: seq<CommunityDef>, refs: seq<CommunityRef>): set<Community> {
    set k | 0 <= k < |refs| && Resolve(defs, refs[k]).Some? :: Resolve(defs, refs[k]).value
  }

  ghost predicate KnownRefs(defs: seq<CommunityDef>, refs: seq<CommunityRef>) {
    forall k | 0 <= k < |refs| :: Resolve(defs, refs[k]).Some?
  }

  /** The route as the chain sees it. On an external session every large community under our own
      ASN goes, then the operator's ingress communities and the role's tag come on. */
  function Ingress(inp: Input, p: Peer<Policy>, r: Route): Route {
    r.(communities :=
         (if p.IsIBGP() then r.communities else DeleteLarge(r.communities, inp.localASN))
         + ResolvedRefs(inp.communities, p.importCommunities)
         + (if p.role == IBGP then {} else {Tag(inp.localASN, p.role)}))
  }

  lemma {:induction false} AddRefsMeaning(cfg: Config, inp: Input, refs: seq<CommunityRef>, roa: Roa, r: Route, depth: nat)
    requires LibrarySymbols(cfg, inp) && KnownRefs(inp.communities, refs)
    ensures Run(cfg, roa, AddRefs(inp.communities, refs), r, depth) ==
            Ended(r.(communities := r.communities + ResolvedRefs(inp.communities, refs)))
    decreases |refs|
  {
    var defs := inp.communities;
    if refs == [] {
      assert r.communities + ResolvedRefs(defs, refs) == r.communities;
    } else {
      var c := Resolve(defs, refs[0]).value;
      assert AddRefs(defs, refs)[1..] == AddRefs(defs, refs[1..]);
      assert CommunityOf(cfg, RefExpr(defs, refs[0])) == Some(c);
      AddRefsMeaning(cfg, inp, refs[1..], roa, r.(communities := r.communities + {c}), depth);
      RefsHead(defs, refs);
      assert r.communities + {c} + ResolvedRefs(defs, refs[1..]) == r.communities + ResolvedRefs(defs, refs);
    }
  }

  lemma {:induction false} RefsHead(defs: seq<CommunityDef>, refs: seq<CommunityRef>)
    requires refs != [] && Resolve(defs, refs[0]).Some?
    ensures ResolvedRefs(defs, refs) == {Resolve(defs, refs[0]).value} + ResolvedRefs(defs, refs[1..])
  {
    forall c | c in ResolvedRefs(defs, refs[1..])
      ensures c in ResolvedRefs(defs, refs)
    {
      var k :| 0 <= k < |refs[1..]| && Resolve(defs, refs[1..][k]).Some? && Resolve(defs, refs[1..][k]).value == c;
      assert refs[k + 1] == refs[1..][k];
    }
    forall c | c in ResolvedRefs(defs, refs) && c != Resolve(defs, refs[0]).value
      ensures c in ResolvedRefs(defs, refs[1..])
    {
      var k :| 0 <= k < |refs| && Resolve(defs, refs[k]).Some? && Resolve(defs, refs[k]).value == c;
      assert refs[1..][k - 1] == refs[k];
    }
  }

  lemma {:induction false} PathChecks(cfg: Config, p: Peer<Policy>, roa: Roa, r: Route, depth: nat)
    ensures Run(cfg, roa, Veto(p.enforceFirstAS, Not(FirstIs(p.remoteASN)))
                          + Veto(p.originPeerOnly, Not(OriginIs(p.remoteASN))), r, depth) ==
            if PathAllowed(p, r) then Ended(r) else Rejected
  {
    var a, b := Veto(p.enforceFirstAS, Not(FirstIs(p.remoteASN))), Veto(p.originPeerOnly, Not(OriginIs(p.remoteASN)));
    VetoHits(cfg, roa, p.enforceFirstAS, Not(FirstIs(p.remoteASN)), r);
    VetoHits(cfg, roa, p.originPeerOnly, Not(OriginIs(p.remoteASN)), r);
    HitsConcat(cfg, roa, a, b, r);
    RunVetoes(cfg, roa, a + b, r, depth);
  }

  lemma {:induction false} PrologueMeaning(cfg: Config, inp: Input, p: Peer<Policy>, roa: Roa, r: Route, depth: nat)
    requires FixedSymbols(cfg, inp) && LibrarySymbols(cfg, inp) && KnownRefs(inp.communities, p.importCommunities)
    ensures Run(cfg, roa, ImportPrologue(inp, p), r, depth) ==
            if PathAllowed(p, r) then Ended(Ingress(inp, p, r)) else Rejected
  {
    var checks := Veto(p.enforceFirstAS, Not(FirstIs(p.remoteASN))) + Veto(p.originPeerOnly, Not(OriginIs(p.remoteASN)));
    var strip := if p.IsIBGP() then [] else [Do(DeleteLargeOf(inp.localASN))];
    var refs := AddRefs(inp.communities, p.importCommunities);
    var tag := if p.role == IBGP then [] else [Do(AddCommunity(Symbol(TagName(p.role), true)))];
    RunConcat(cfg, roa, checks + strip + refs, tag, r, depth);
    RunConcat(cfg, roa, checks + strip, refs, r, depth);
    RunConcat(cfg, roa, checks, strip, r, depth);
    PathChecks(cfg, p, roa, r, depth);
    var r1 := if p.IsIBGP() then r else r.(communities := DeleteLarge(r.communities, inp.localASN));
    if strip != [] { RunOne(cfg, roa, strip[0], r, depth); }
    AddRefsMeaning(cfg, inp, p.importCommunities, roa, r1, depth);
    var r2 := r1.(communities := r1.communities + ResolvedRefs(inp.communities, p.importCommunities));
    if tag != [] {
      RunOne(cfg, roa, tag[0], r2, depth);
      assert CommunityOf(cfg, Symbol(TagName(p.role), true)) == Some(Tag(inp.localASN, p.role));
    } else {
      assert r2.communities + {} == r2.communities;
    }
  }

  // ----- the chain

  /** Every policy of the chain renders, is in the configuration, and names known communities. */
  ghost predicate ChainRenders(inp: Input, chain: seq<Policy>, fam: Family) {
    forall k | 0 <= k < |chain| ::
      && chain[k] in inp.policies && PolicyBody(inp, chain[k], fam).Ok? && KnownMatch(inp, chain[k])
  }

  ghost predicate Imports(chain: seq<Policy>) { forall k | 0 <= k < |chain| :: chain[k].isImport }

  /** The verdict of a chain of import policies called in order. */
  function ChainVerdict(inp: Input, chain: seq<Policy>, fam: Family, roa: Roa, r: Route): Outcome {
    if chain == [] then Ended(r)
    else
      match ImportVerdict(inp, chain[0], fam, roa, r)
      case Ended(r') => ChainVerdict(inp, chain[1..], fam, roa, r')
      case done => done
  }

  lemma {:induction false} CallsMeaning(cfg: Config, inp: Input, chain: seq<Policy>, fam: Family, roa: Roa, r: Route)
    requires Loaded(cfg, inp) && ChainRenders(inp, chain, fam) && Imports(chain) && OfFamily(r, fam)
    ensures Run(cfg, roa, Calls(chain, fam), r, 1) == ChainVerdict(inp, chain, fam, roa, r)
    decreases |chain|
  {
    if chain != [] {
      var body := PolicyBody(inp, chain[0], fam).value;
      assert Calls(chain, fam)[0] == Call(PolicyFunc(chain[0], fam));
      assert Calls(chain, fam)[1..] == Calls(chain[1..], fam);
      ImportBodyMeaning(cfg, inp, chain[0], fam, roa, r, 0);
      assert BodyOf(cfg, PolicyFunc(chain[0], fam)) == body;
      assert Step(cfg, roa, Call(PolicyFunc(chain[0], fam)), r, 1) == Run(cfg, roa, body, r, 0);
      match ImportVerdict(inp, chain[0], fam, roa, r) {
        case Ended(r') =>
          assert ChainRenders(inp, chain[1..], fam) && Imports(chain[1..]);
          CallsMeaning(cfg, inp, chain[1..], fam, roa, r');
        case _ =>
      }
    }
  }

  /** What an import filter does with a route, all told. */
  function FilterVerdict(inp: Input, p: Peer<Policy>, roa: Roa, r: Route): Outcome {
    if !PathAllowed(p, r) then Rejected
    else
      match ChainVerdict(inp, p.importPolicies, p.Fam(), roa, Ingress(inp, p, r))
      case Ended(r') => Accepted(if p.drained then r'.(localPref := 0) else r')
      case done => done
  }

  /** The generated import filter means what the peer's model says. */
  lemma {:induction false} ImportFilterMeaning(cfg: Config, inp: Input, p: Peer<Policy>, roa: Roa, r: Route)
    requires Loaded(cfg, inp) && ChainRenders(inp, p.importPolicies, p.Fam()) && Imports(p.importPolicies)
    requires KnownRefs(inp.communities, p.importCommunities) && OfFamily(r, p.Fam())
    ensures RunFilter(cfg, roa, ImportFilterBody(inp, p), r) == FilterVerdict(inp, p, roa, r)
  {
    var pro, calls, epi := ImportPrologue(inp, p), Calls(p.importPolicies, p.Fam()), ImportEpilogue(p);
    RunConcat(cfg, roa, pro + calls, epi, r, 1);
    RunConcat(cfg, roa, pro, calls, r, 1);
    PrologueMeaning(cfg, inp, p, roa, r, 1);
    if PathAllowed(p, r) {
      var t := Ingress(inp, p, r);
      CallsMeaning(cfg, inp, p.importPolicies, p.Fam(), roa, t);
      match ChainVerdict(inp, p.importPolicies, p.Fam(), roa, t) {
        case Ended(r') => EpilogueMeaning(cfg, p, roa, r', 1);
        case _ =>
      }
    }
  }

  lemma {:induction false} EpilogueMeaning(cfg: Config, p: Peer<Policy>, roa: Roa, r: Route, depth: nat)
    ensures Run(cfg, roa, ImportEpilogue(p), r, depth) == Accepted(if p.drained then r.(localPref := 0) else r)
  {
    var drain := if p.drained then [Do(SetLocalPref(0))] else [];
    var r' := if p.drained then r.(localPref := 0) else r;
    RunConcat(cfg, roa, drain, [Do(Accept)], r, depth);
    if p.drained { RunOne(cfg, roa, Do(SetLocalPref(0)), r, depth); }
    RunOne(cfg, roa, Do(Accept), r', depth);
  }

  // ----- who decides

  /** The route after `k` policies of the chain had nothing to object. */
  function After(inp: Input, chain: seq<Policy>, k: nat, roa: Roa, r: Route): Route
    requires k <= |chain|
  {
    if k == 0 then r else Mark(inp, chain[k - 1], roa, After(inp, chain, k - 1, roa, r))
  }

  /** Policy `k` rejects the route, or accepts it as a blackhole, when its turn comes. */
  predicate Decides(inp: Input, chain: seq<Policy>, fam: Family, roa: Roa, r: Route, k: nat)
    requires k < |chain|
  {
    !ImportVerdict(inp, chain[k], fam, roa, After(inp, chain, k, roa, r)).Ended?
  }

  lemma {:induction false} AfterTail(inp: Input, chain: seq<Policy>, k: nat, roa: Roa, r: Route)
    requires chain != [] && k < |chain|
    ensures After(inp, chain[1..], k, roa, Mark(inp, chain[0], roa, r)) == After(inp, chain, k + 1, roa, r)
  {
    if k > 0 { AfterTail(inp, chain, k - 1, roa, r); }
  }

  /** The first policy with an opinion decides; with none, the route goes on with every
      policy's marks. */
  lemma {:induction false} FirstDecides(inp: Input, chain: seq<Policy>, fam: Family, roa: Roa, r: Route, k: nat)
    requires k <= |chain|
    requires forall j | 0 <= j < k :: !Decides(inp, chain, fam, roa, r, j)
    requires k < |chain| ==> Decides(inp, chain, fam, roa, r, k)
    ensures ChainVerdict(inp, chain, fam, roa, r) ==
            if k == |chain| then Ended(After(inp, chain, k, roa, r))
            else ImportVerdict(inp, chain[k], fam, roa, After(inp, chain, k, roa, r))
    decreases |chain|
  {
    if chain != [] && k > 0 {
      assert !Decides(inp, chain, fam, roa, r, 0);
      var r', rest := Mark(inp, chain[0], roa, r), chain[1..];
      assert ImportVerdict(inp, chain[0], fam, roa, r) == Ended(r');
      forall j | 0 <= j < |rest|
        ensures Decides(inp, rest, fam, roa, r', j) == Decides(inp, chain, fam, roa, r, j + 1)
      {
        AfterTail(inp, chain, j, roa, r);
      }
      FirstDecides(inp, rest, fam, roa, r', k - 1);
      AfterTail(inp, chain, k - 1, roa, r);
    }
  }

  /** The last policy that sets a local preference wins. */
  function LastPref(chain: seq<Policy>, k: nat, base: nat): nat
    requires k <= |chain|
  {
    if k == 0 then base
    else if chain[k - 1].setLocalPref > 0 then chain[k - 1].setLocalPref
    else LastPref(chain, k - 1, base)
  }

  lemma {:induction false} AfterIsMarked(inp: Input, chain: seq<Policy>, k: nat, roa: Roa, r: Route)
    requires k <= |chain|
    ensures var x := After(inp, chain, k, roa, r);
      && x.net == r.net && x.path == r.path && x.blackhole == r.blackhole
      && x.localPref == LastPref(chain, k, r.localPref)
      && r.communities <= x.communities <= r.communities + {RpkiInvalidTag(inp.localASN)}
  {
    if k > 0 { AfterIsMarked(inp, chain, k - 1, roa, r); }
  }

  /** An accepted route either passed the whole chain, and carries the last local preference set
      (0 when the peer drains), or was accepted as a blackhole by a policy all earlier ones let
      pass, and carries what those had set: drain does not reach it. */
  lemma {:induction false} AcceptedLocalPref(inp: Input, p: Peer<Policy>, roa: Roa, r: Route)
    requires FilterVerdict(inp, p, roa, r).Accepted?
    ensures var x := FilterVerdict(inp, p, roa, r).route;
      var t := Ingress(inp, p, r);
      || ((forall j | 0 <= j < |p.importPolicies| :: !Decides(inp, p.importPolicies, p.Fam(), roa, t, j))
          && x.localPref == if p.drained then 0 else LastPref(p.importPolicies, |p.importPolicies|, r.localPref))
      || (exists k | 0 <= k < |p.importPolicies| ::
            && (forall j | 0 <= j < k :: !Decides(inp, p.importPolicies, p.Fam(), roa, t, j))
            && Discards(inp, p.importPolicies[k], p.Fam(), After(inp, p.importPolicies, k, roa, t))
            && x.blackhole && x.localPref == LastPref(p.importPolicies, k, r.localPref))
  {
    var chain, fam, t := p.importPolicies, p.Fam(), Ingress(inp, p, r);
    var k := 0;
    while k < |chain| && !Decides(inp, chain, fam, roa, t, k)
      invariant k <= |chain| && forall j | 0 <= j < k :: !Decides(inp, chain, fam, roa, t, j)
    {
      k := k + 1;
    }
    FirstDecides(inp, chain, fam, roa, t, k);
    AfterIsMarked(inp, chain, k, roa, t);
  }

  // ----- when order does not matter

  /** No policy honours blackholes, and none matches the tag log-only RPKI validation leaves. */
  ghost predicate PureVetoes(inp: Input, chain: seq<Policy>) {
    forall k | 0 <= k < |chain| ::
      && !chain[k].acceptBlackhole
      && (chain[k].matchCommunity.Some? ==>
            Resolve(inp.communities, chain[k].matchCommunity.value) != Some(RpkiInvalidTag(inp.localASN)))
  }

  /** A policy's veto, judged on the route as it entered the chain. */
  predicate Vetoes(inp: Input, pol: Policy, fam: Family, roa: Roa, r: Route) {
    Shut(inp, pol, fam) || Objects(inp, pol, fam, roa, r)
  }

  /** Such a chain is a conjunction of independent vetoes: it rejects exactly when some policy
      objects to the route as it came in, and never accepts early. */
  lemma {:induction false} ConjunctionOfVetoes(inp: Input, chain: seq<Policy>, fam: Family, roa: Roa, r: Route)
    requires PureVetoes(inp, chain)
    ensures ChainVerdict(inp, chain, fam, roa, r).Rejected? <==> exists pol | pol in chain :: Vetoes(inp, pol, fam, roa, r)
    ensures !ChainVerdict(inp, chain, fam, roa, r).Accepted?
  {
    var k := 0;
    while k < |chain| && !Decides(inp, chain, fam, roa, r, k)
      invariant k <= |chain| && forall j | 0 <= j < k :: !Decides(inp, chain, fam, roa, r, j)
    {
      k := k + 1;
    }
    FirstDecides(inp, chain, fam, roa, r, k);
    forall j | 0 <= j < |chain|
      ensures Decides(inp, chain, fam, roa, r, j) <==> Vetoes(inp, chain[j], fam, roa, r)
      ensures !ImportVerdict(inp, chain[j], fam, roa, After(inp, chain, j, roa, r)).Accepted?
    {
      AfterIsMarked(inp, chain, j, roa, r);
      ObjectsSame(inp, chain[j], fam, roa, r, After(inp, chain, j, roa, r));
    }
    if k < |chain| { assert Vetoes(inp, chain[k], fam, roa, r) && chain[k] in chain; }
  }

  lemma {:induction false} ObjectsSame(inp: Input, pol: Policy, fam: Family, roa: Roa, r: Route, x: Route)
    requires x.net == r.net && x.path == r.path
    requires r.communities <= x.communities <= r.communities + {RpkiInvalidTag(inp.localASN)}
    requires pol.matchCommunity.Some? ==>
               Resolve(inp.communities, pol.matchCommunity.value) != Some(RpkiInvalidTag(inp.localASN))
    ensures Objects(inp, pol, fam, roa, x) == Objects(inp, pol, fam, roa, r)
  {
    assert BadPath(inp, pol, x) == BadPath(inp, pol, r);
  }

  /** Reordering such a chain changes no verdict. */
  lemma {:induction false} OrderDoesNotMatter(inp: Input, chain: seq<Policy>, other: seq<Policy>, fam: Family, roa: Roa, r: Route)
    requires PureVetoes(inp, chain) && multiset(chain) == multiset(other)
    ensures ChainVerdict(inp, chain, fam, roa, r).Rejected? <==> ChainVerdict(inp, other, fam, roa, r).Rejected?
  {
    forall k | 0 <= k < |other|
      ensures other[k] in chain
    {
      assert other[k] in multiset(other);
      assert other[k] in multiset(chain);
    }
    forall pol | pol in chain
      ensures pol in other
    {
      assert pol in multiset(chain);
      assert pol in multiset(other);
    }
    ConjunctionOfVetoes(inp, chain, fam, roa, r);
    ConjunctionOfVetoes(inp, other, fam, roa, r);
  }

  /** With a blackhole policy the order does matter: first it accepts what the other policy,
      first, would reject. */
  lemma {:induction false} BlackholeOrderMatters(inp: Input, a: Policy, b: Policy, fam: Family, roa: Roa, r: Route)
    requires !Shut(inp, a, fam) && Discards(inp, a, fam, r)
    requires !Discards(inp, b, fam, r) && Vetoes(inp, b, fam, roa, r)
    ensures ChainVerdict(inp, [a, b], fam, roa, r) == Accepted(r.(blackhole := true))
    ensures ChainVerdict(inp, [b, a], fam, roa, r) == Rejected
  {
    assert [a, b][1..] == [b] && [b, a][1..] == [a];
  }

  // ----- allow-lists fail closed

  /** A policy built on an allow-list that does not reject a route: the list is on, of the
      route's family, and holds the route -- or the route is a tagged host route inside one of
      its base prefixes. */
  lemma {:induction false} AllowListFailsClosed(cfg: Config, inp: Input, pol: Policy, fam: Family, roa: Roa, r: Route, depth: nat)
    requires Loaded(cfg, inp) && KnownMatch(inp, pol) && ImportBody(inp, pol, fam).Ok?
    requires pol.acceptOnlySet.Some? && OfFamily(r, fam)
    requires Run(cfg, roa, ImportBody(inp, pol, fam).value, r, depth) != Rejected
    ensures SetByID(inp.prefixSets, pol.acceptOnlySet.value).Some?
    ensures var ps := SetByID(inp.prefixSets, pol.acceptOnlySet.value).value;
      && ps in inp.prefixSets && ps.family == fam && !ps.disabled && ps.entries != []
      && (InSet(ps, r.net)
          || (pol.acceptBlackhole && BLACKHOLE in r.communities && r.net.Len() == fam.HostBits() && InsideBase(ps, r.net)))
  {
    ImportBodyMeaning(cfg, inp, pol, fam, roa, r, depth);
    SetByIDIn(inp.prefixSets, pol.acceptOnlySet.value);
  }
}
