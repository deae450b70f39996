/** When each finding is raised, said of the fields of the peer, its policies and the rows they name, and
    what folding by template leaves of the findings. (internal/render/lint.go) */
module LintFields {
  import opened Options
  import opened Bird
  import opened Model
  import opened Compile
  import opened ImportMeaning
  import opened PolicyFields
  import opened Lint
  import opened LintTruth

  // ----- which findings are raised

  /** The first policy of a chain, among those with a name, that rejects the default route. */
  ghost predicate FirstRejecting(chain: seq<Policy>, name: string) {
    exists i | 0 <= i < |chain| ::
      && name != "" && chain[i].name == name && chain[i].defaultRoute == RejectDefault
      && forall j | 0 <= j < i :: chain[j].defaultRoute == RejectDefault ==> chain[j].name == ""
  }

  /** A policy of the chain, by name, that does a given thing with the default route. */
  ghost predicate SomeDefault(chain: seq<Policy>, mode: DefaultMode, name: string) {
    exists k | 0 <= k < |chain| :: chain[k].defaultRoute == mode && chain[k].name == name
  }

  ghost predicate SomeFullBogons(chain: seq<Policy>, name: string) {
    exists k | 0 <= k < |chain| :: chain[k].bogonASNs == BogonsAll && chain[k].name == name
  }

  ghost predicate InPrivateRange(list: seq<BogonASN>, asn: nat) {
    exists k | 0 <= k < |list| :: list[k].isPrivate && list[k].range.low <= asn <= list[k].range.high
  }

  /** The policy filters origins with an AS set of this name, none of whose ranges holds the number. */
  ghost predicate LeavesOut(asSets: seq<ASSet>, pol: Policy, asn: nat, name: string) {
    exists s | s in asSets ::
      && pol.originASSet.Some? && IsASSet(asSets, pol.originASSet.value, s) && s.name == name
      && forall k | 0 <= k < |s.entries| :: !(s.entries[k].low <= asn <= s.entries[k].high)
  }

  ghost predicate SomeLeavesOut(asSets: seq<ASSet>, chain: seq<Policy>, asn: nat, name: string) {
    exists k | 0 <= k < |chain| :: LeavesOut(asSets, chain[k], asn, name)
  }

  /** No route source is ticked, and every set the policy names is gone, switched off or empty. */
  ghost predicate OffersNothing(sets: seq<PrefixSet>, pol: Policy) {
    && !pol.announceEverything && !pol.announceDefault && !pol.announceFromUpstream && !pol.announceFromIX
    && !pol.announceFromCustomer
    && forall k, ps | 0 <= k < |pol.setIDs| && ps in sets && IsSet(sets, pol.setIDs[k], ps) :: ps.disabled || ps.entries == []
  }

  ghost predicate SomeOffersNothing(sets: seq<PrefixSet>, chain: seq<Policy>, name: string, hasSets: bool) {
    exists k | 0 <= k < |chain| ::
      OffersNothing(sets, chain[k]) && chain[k].name == name && hasSets == (chain[k].setIDs != [])
  }

  /** The findings one peer gives rise to. */
  ghost predicate Raised(inp: Input, p: Peer<Policy>, w: Warning) {
    && p.role != IBGP && w.severity == Danger && w.subject == OnePeer(p.name)
    && match w.message
       case AllowListDisabled(_, _) => false
       case RejectsPrivateASN(asn, policy) =>
         asn == p.remoteASN && InPrivateRange(Bogons(inp), asn) && SomeFullBogons(p.importPolicies, policy)
       case DefaultUnreachable(rejecting, policy) =>
         FirstRejecting(p.importPolicies, rejecting) && SomeDefault(p.importPolicies, AcceptDefault, policy)
       case AcceptsNothingAtAll(rejecting, policy) =>
         FirstRejecting(p.importPolicies, rejecting) && SomeDefault(p.importPolicies, OnlyDefault, policy)
       case OriginsExclude(asn, name) =>
         asn == p.remoteASN && p.originPeerOnly && SomeLeavesOut(inp.asSets, p.importPolicies, asn, name)
       case NoImportPolicy => p.importPolicies == []
       case PermitsNothing(policy, hasSets) => SomeOffersNothing(inp.prefixSets, p.exportPolicies, policy, hasSets)
  }

  lemma {:induction false} RejectingFound(chain: seq<Policy>, name: string)
    ensures name != "" && RejectingDefault(chain) == name <==> FirstRejecting(chain, name)
    ensures RejectingDefault(chain) == "" ==> forall j | 0 <= j < |chain| && chain[j].defaultRoute == RejectDefault :: chain[j].name == ""
  {
    if chain != [] {
      var n := |chain| - 1;
      var before := chain[..n];
      RejectingFound(before, name);
      RejectingFound(before, RejectingDefault(before));
      assert forall j | 0 <= j < n :: before[j] == chain[j];
      if FirstRejecting(before, name) {
        var i :| 0 <= i < n && name != "" && before[i].name == name && before[i].defaultRoute == RejectDefault
                 && forall j | 0 <= j < i :: before[j].defaultRoute == RejectDefault ==> before[j].name == "";
        assert chain[i].name == name;
      }
    }
  }

  lemma {:induction false} DefaultRaised(p: Peer<Policy>, rejecting: string, chain: seq<Policy>, w: Warning)
    ensures w in DefaultFindings(p, rejecting, chain) <==>
              && w.severity == Danger && w.subject == OnePeer(p.name)
              && ((exists policy :: w.message == DefaultUnreachable(rejecting, policy) && SomeDefault(chain, AcceptDefault, policy))
                  || (exists policy :: w.message == AcceptsNothingAtAll(rejecting, policy) && SomeDefault(chain, OnlyDefault, policy)))
  {
    if chain != [] {
      var n := |chain| - 1;
      DefaultRaised(p, rejecting, chain[..n], w);
      SomeDefaultSnoc(chain, AcceptDefault);
      SomeDefaultSnoc(chain, OnlyDefault);
    }
  }

  lemma {:induction false} SomeDefaultSnoc(chain: seq<Policy>, mode: DefaultMode)
    requires chain != []
    ensures var n := |chain| - 1; forall name ::
      SomeDefault(chain, mode, name) <==> SomeDefault(chain[..n], mode, name) || (chain[n].defaultRoute == mode && chain[n].name == name)
  {
    var n := |chain| - 1;
    assert forall j | 0 <= j < n :: chain[..n][j] == chain[j];
  }

  lemma {:induction false} ExcludingIs(asSets: seq<ASSet>, pol: Policy, asn: nat, name: string)
    ensures ExcludingSet(asSets, pol, asn).Some? && ExcludingSet(asSets, pol, asn).value.name == name <==>
            LeavesOut(asSets, pol, asn, name)
  {
    if pol.originASSet.Some? {
      forall s
        ensures ASSetByID(asSets, pol.originASSet.value) == Some(s) <==> IsASSet(asSets, pol.originASSet.value, s)
      {
        ASSetFound(asSets, pol.originASSet.value, s);
      }
    }
  }

  lemma {:induction false} OriginRaised(inp: Input, p: Peer<Policy>, chain: seq<Policy>, w: Warning)
    ensures w in OriginFindings(inp, p, chain) <==>
              && w.severity == Danger && w.subject == OnePeer(p.name) && w.message.OriginsExclude?
              && w.message.asn == p.remoteASN && SomeLeavesOut(inp.asSets, chain, p.remoteASN, w.message.asSet)
  {
    if chain != [] {
      var n := |chain| - 1;
      OriginRaised(inp, p, chain[..n], w);
      assert forall j | 0 <= j < n :: chain[..n][j] == chain[j];
      if w.message.OriginsExclude? { ExcludingIs(inp.asSets, chain[n], p.remoteASN, w.message.asSet); }
    }
  }

  lemma {:induction false} NoneLive(sets: seq<PrefixSet>, ids: seq<int>)
    ensures LiveSets(sets, ids) == 0 <==>
              forall k, ps | 0 <= k < |ids| && ps in sets && IsSet(sets, ids[k], ps) :: ps.disabled || ps.entries == []
  {
    if ids != [] {
      var n := |ids| - 1;
      NoneLive(sets, ids[..n]);
      forall ps
        ensures SetByID(sets, ids[n]) == Some(ps) <==> IsSet(sets, ids[n], ps)
      {
        SetFound(sets, ids[n], ps);
      }
      assert forall k | 0 <= k < n :: ids[..n][k] == ids[k];
    }
  }

  lemma {:induction false} EmptyRaised(inp: Input, p: Peer<Policy>, w: Warning)
    ensures w in EmptyFindings(inp, p, p.exportPolicies) <==>
              && w.severity == Danger && w.subject == OnePeer(p.name) && w.message.PermitsNothing?
              && SomeOffersNothing(inp.prefixSets, p.exportPolicies, w.message.policy, w.message.hasSets)
  {
    var chain := p.exportPolicies;
    EmptyFound(inp, p, chain, w);
    forall k | 0 <= k < |chain|
      ensures SeemsEmpty(inp.prefixSets, chain[k]) <==> OffersNothing(inp.prefixSets, chain[k])
    {
      NoneLive(inp.prefixSets, chain[k].setIDs);
    }
  }

  lemma {:induction false} PrivateRaised(inp: Input, p: Peer<Policy>, w: Warning)
    ensures w in PrivateFindings(p, p.importPolicies) <==>
              && w.severity == Danger && w.subject == OnePeer(p.name) && w.message.RejectsPrivateASN?
              && w.message.asn == p.remoteASN && SomeFullBogons(p.importPolicies, w.message.policy)
  {
    PrivateFound(p, p.importPolicies, w);
  }

  lemma {:induction false} InFour(a: seq<Warning>, b: seq<Warning>, c: seq<Warning>, d: seq<Warning>, e: seq<Warning>, w: Warning)
    ensures w in a + b + c + d + e <==> w in a || w in b || w in c || w in d || w in e
  {
  }

  /** A finding about a peer is raised exactly when its fields, its policies' and the rows they name are
      as the finding says. */
  lemma {:induction false} RaisedExactly(inp: Input, p: Peer<Policy>, w: Warning)
    ensures w in PeerFindings(inp, p) <==> Raised(inp, p, w)
  {
    if p.role != IBGP {
      var chain := p.importPolicies;
      var rejecting := RejectingDefault(chain);
      var a := if IsPrivate(Bogons(inp), p.remoteASN) then PrivateFindings(p, chain) else [];
      var b := if rejecting != "" then DefaultFindings(p, rejecting, chain) else [];
      var c := if p.originPeerOnly then OriginFindings(inp, p, chain) else [];
      var d := if chain == [] then [Warning(Danger, OnePeer(p.name), NoImportPolicy)] else [];
      var e := EmptyFindings(inp, p, p.exportPolicies);
      assert PeerFindings(inp, p) == a + b + c + d + e;
      InFour(a, b, c, d, e, w);
      PrivateRaised(inp, p, w);
      DefaultRaised(p, rejecting, chain, w);
      OriginRaised(inp, p, chain, w);
      EmptyRaised(inp, p, w);
      if w.message.DefaultUnreachable? || w.message.AcceptsNothingAtAll? { RejectingFound(chain, w.message.rejecting); }
    }
  }

  // ----- and about policies, and all peers

  /** An import policy's allow-list is there and switched off. */
  ghost predicate ListOff(sets: seq<PrefixSet>, pol: Policy, name: string) {
    exists ps | ps in sets :: pol.acceptOnlySet.Some? && IsSet(sets, pol.acceptOnlySet.value, ps) && ps.disabled && ps.name == name
  }

  ghost predicate RaisedForPolicies(inp: Input, w: Warning) {
    && w.severity == Danger && w.subject == Nobody && w.message.AllowListDisabled?
    && exists k | 0 <= k < |inp.policies| ::
         inp.policies[k].name == w.message.policy && ListOff(inp.prefixSets, inp.policies[k], w.message.setName)
  }

  lemma {:induction false} ListOffIs(sets: seq<PrefixSet>, pol: Policy, name: string)
    ensures DisabledList(sets, pol).Some? && DisabledList(sets, pol).value.name == name <==> ListOff(sets, pol, name)
  {
    if pol.acceptOnlySet.Some? {
      forall ps
        ensures SetByID(sets, pol.acceptOnlySet.value) == Some(ps) <==> IsSet(sets, pol.acceptOnlySet.value, ps)
      {
        SetFound(sets, pol.acceptOnlySet.value, ps);
      }
    }
  }

  lemma {:induction false} PoliciesRaised(inp: Input, w: Warning)
    ensures w in PolicyFindings(inp, inp.policies) <==> RaisedForPolicies(inp, w)
  {
    DisabledFound(inp, inp.policies, w);
    if w.message.AllowListDisabled? {
      forall k | 0 <= k < |inp.policies|
        ensures DisabledList(inp.prefixSets, inp.policies[k]).Some?
                && DisabledList(inp.prefixSets, inp.policies[k]).value.name == w.message.setName
                <==> ListOff(inp.prefixSets, inp.policies[k], w.message.setName)
      {
        ListOffIs(inp.prefixSets, inp.policies[k], w.message.setName);
      }
    }
  }

  lemma {:induction false} PeersFound(inp: Input, peers: seq<Peer<Policy>>, w: Warning)
    ensures w in AllPeerFindings(inp, peers) <==> exists p | p in peers :: w in PeerFindings(inp, p)
  {
    if peers != [] {
      var n := |peers| - 1;
      assert peers == peers[..n] + [peers[n]];
      PeersFound(inp, peers[..n], w);
    }
  }

  lemma {:induction false} PeersRaised(inp: Input, w: Warning)
    ensures w in AllPeerFindings(inp, inp.peers) <==> exists p | p in inp.peers :: Raised(inp, p, w)
  {
    PeersFound(inp, inp.peers, w);
    forall p | p in inp.peers
      ensures w in PeerFindings(inp, p) <==> Raised(inp, p, w)
    {
      RaisedExactly(inp, p, w);
    }
  }

  /** What is found, before folding. */
  ghost predicate Finding(inp: Input, w: Warning) {
    RaisedForPolicies(inp, w) || exists p | p in inp.peers :: Raised(inp, p, w)
  }

  function Findings(inp: Input): seq<Warning> { PolicyFindings(inp, inp.policies) + AllPeerFindings(inp, inp.peers) }

  lemma {:induction false} FindingsExactly(inp: Input, w: Warning)
    ensures w in Findings(inp) <==> Finding(inp, w)
  {
    PoliciesRaised(inp, w);
    PeersRaised(inp, w);
  }

  // ----- folding

  /** The template a name goes by: that of the last linked peer with the name. */
  ghost predicate GoesBy(peers: seq<Peer<Policy>>, name: string, template: string) {
    exists i | 0 <= i < |peers| ::
      && peers[i].name == name && peers[i].templateName == template != ""
      && forall j | i < j < |peers| && peers[j].name == name :: peers[j].templateName == ""
  }

  lemma {:induction false} TemplateIs(peers: seq<Peer<Policy>>, name: string, template: string)
    ensures name in TemplateOf(peers) && TemplateOf(peers)[name] == template <==> GoesBy(peers, name, template)
    ensures name in TemplateOf(peers) ==> TemplateOf(peers)[name] != ""
  {
    if peers != [] {
      var n := |peers| - 1;
      TemplateIs(peers[..n], name, template);
      assert forall j | 0 <= j < n :: peers[..n][j] == peers[j];
    }
  }

  /** Peer `name`, of this template, has a finding in these words. */
  ghost predicate HasFinding(peers: seq<Peer<Policy>>, ws: seq<Warning>, template: string, severity: Severity,
                             message: Message, name: string) {
    GoesBy(peers, name, template) && Warning(severity, OnePeer(name), message) in ws
  }

  lemma {:induction false} MembersAre(peers: seq<Peer<Policy>>, ws: seq<Warning>, key: Key, name: string)
    ensures name in Names(TemplateOf(peers), ws, key) <==>
              HasFinding(peers, ws, key.template, key.severity, key.message, name)
  {
    var templateOf := TemplateOf(peers);
    NamesAre(templateOf, ws, key);
    TemplateIs(peers, name, key.template);
    if HasFinding(peers, ws, key.template, key.severity, key.message, name) {
      var k :| 0 <= k < |ws| && ws[k] == Warning(key.severity, OnePeer(name), key.message);
      assert KeyOf(templateOf, ws[k]) == Some(key);
    }
    if name in Names(templateOf, ws, key) {
      var k :| 0 <= k < |ws| && KeyOf(templateOf, ws[k]) == Some(key) && ws[k].subject.name == name;
      assert ws[k] == Warning(key.severity, OnePeer(name), key.message);
    }
  }

  lemma {:induction false} NamesApart(templateOf: map<string, string>, ws: seq<Warning>, key: Key)
    ensures forall i, j | 0 <= i < j < |Names(templateOf, ws, key)| :: Names(templateOf, ws, key)[i] != Names(templateOf, ws, key)[j]
  {
    if ws != [] { NamesApart(templateOf, ws[..|ws| - 1], key); }
  }

  /** Two peers of a template have the same finding. */
  ghost predicate TwoHave(peers: seq<Peer<Policy>>, ws: seq<Warning>, template: string, severity: Severity, message: Message) {
    exists a, b :: a != b && HasFinding(peers, ws, template, severity, message, a) && HasFinding(peers, ws, template, severity, message, b)
  }

  lemma {:induction false} TwoAre(peers: seq<Peer<Policy>>, ws: seq<Warning>, key: Key)
    ensures |Names(TemplateOf(peers), ws, key)| >= 2 <==> TwoHave(peers, ws, key.template, key.severity, key.message)
  {
    var names := Names(TemplateOf(peers), ws, key);
    NamesApart(TemplateOf(peers), ws, key);
    forall name
      ensures name in names <==> HasFinding(peers, ws, key.template, key.severity, key.message, name)
    {
      MembersAre(peers, ws, key, name);
    }
    if |names| >= 2 { assert names[0] in names && names[1] in names && names[0] != names[1]; }
  }

  /** What a line of the folded list stands for. */
  ghost predicate LineFits(peers: seq<Peer<Policy>>, ws: seq<Warning>, line: Warning) {
    match line.subject
    case Nobody => line in ws
    case OnePeer(name) =>
      line in ws && forall template | GoesBy(peers, name, template) :: !TwoHave(peers, ws, template, line.severity, line.message)
    case Several(template, names) =>
      && TwoHave(peers, ws, template, line.severity, line.message) && NoNameTwice(names)
      && forall name :: name in names <==> HasFinding(peers, ws, template, line.severity, line.message, name)
  }

  predicate NoNameTwice(names: seq<string>) { forall i, j | 0 <= i < j < |names| :: names[i] != names[j] }

  /** The findings themselves are about one peer at most. */
  predicate Single(ws: seq<Warning>) { forall k | 0 <= k < |ws| :: !ws[k].subject.Several? }

  lemma {:induction false} AloneFits(peers: seq<Peer<Policy>>, ws: seq<Warning>, w: Warning)
    requires w in ws && !w.subject.Several?
    requires KeyOf(TemplateOf(peers), w).Some? ==>
               var key := KeyOf(TemplateOf(peers), w).value; !TwoHave(peers, ws, key.template, key.severity, key.message)
    ensures LineFits(peers, ws, w)
  {
    if w.subject.OnePeer? {
      forall template | GoesBy(peers, w.subject.name, template)
        ensures !TwoHave(peers, ws, template, w.severity, w.message)
      {
        TemplateIs(peers, w.subject.name, template);
      }
    }
  }

  lemma {:induction false} GroupFits(peers: seq<Peer<Policy>>, ws: seq<Warning>, key: Key)
    requires TwoHave(peers, ws, key.template, key.severity, key.message)
    ensures LineFits(peers, ws, Warning(key.severity, Several(key.template, Names(TemplateOf(peers), ws, key)), key.message))
  {
    NamesApart(TemplateOf(peers), ws, key);
    forall name
      ensures name in Names(TemplateOf(peers), ws, key) <==>
              HasFinding(peers, ws, key.template, key.severity, key.message, name)
    {
      MembersAre(peers, ws, key, name);
    }
  }

  lemma {:induction false} FoldAtFits(peers: seq<Peer<Policy>>, ws: seq<Warning>, i: nat, line: Warning)
    requires i < |ws| && Single(ws) && line in FoldAt(TemplateOf(peers), ws, i)
    ensures LineFits(peers, ws, line)
  {
    var templateOf := TemplateOf(peers);
    match KeyOf(templateOf, ws[i])
    case None => AloneFits(peers, ws, ws[i]);
    case Some(key) =>
      TwoAre(peers, ws, key);
      if |Names(templateOf, ws, key)| < 2 { AloneFits(peers, ws, ws[i]); } else { GroupFits(peers, ws, key); }
  }

  /** Every line of the folded list fits. */
  lemma {:induction false} LinesFit(peers: seq<Peer<Policy>>, ws: seq<Warning>, n: nat, line: Warning)
    requires n <= |ws| && Single(ws) && line in FoldUpTo(TemplateOf(peers), ws, n)
    ensures LineFits(peers, ws, line)
  {
    if line in FoldAt(TemplateOf(peers), ws, n - 1) { FoldAtFits(peers, ws, n - 1, line); } else { LinesFit(peers, ws, n - 1, line); }
  }

  /** The line for a group is there once. */
  lemma {:induction false} SeveralSeen(templateOf: map<string, string>, ws: seq<Warning>, n: nat, line: Warning)
    requires n <= |ws| && Single(ws) && line in FoldUpTo(templateOf, ws, n) && line.subject.Several?
    ensures HasKey(templateOf, ws[..n], Key(line.subject.template, line.severity, line.message))
  {
    var key := Key(line.subject.template, line.severity, line.message);
    if line in FoldAt(templateOf, ws, n - 1) {
      assert ws[..n][n - 1] == ws[n - 1] && KeyOf(templateOf, ws[n - 1]) == Some(key);
    } else {
      SeveralSeen(templateOf, ws, n - 1, line);
      var k :| 0 <= k < n - 1 && KeyOf(templateOf, ws[..n - 1][k]) == Some(key);
      assert ws[..n][k] == ws[..n - 1][k];
    }
  }

  /** Two lines about several peers are never about the same template in the same words. */
  ghost predicate OneLineEach(lines: seq<Warning>) {
    forall a, b | 0 <= a < b < |lines| && lines[a].subject.Several? && lines[b].subject.Several? ::
      || lines[a].subject.template != lines[b].subject.template
      || lines[a].severity != lines[b].severity || lines[a].message != lines[b].message
  }

  lemma {:induction false} GroupsOnce(templateOf: map<string, string>, ws: seq<Warning>, n: nat)
    requires n <= |ws| && Single(ws)
    ensures OneLineEach(FoldUpTo(templateOf, ws, n))
  {
    if n > 0 {
      GroupsOnce(templateOf, ws, n - 1);
      var before, more := FoldUpTo(templateOf, ws, n - 1), FoldAt(templateOf, ws, n - 1);
      if more != [] && more[0].subject.Several? {
        forall a | 0 <= a < |before| && before[a].subject.Several?
          ensures || before[a].subject.template != more[0].subject.template
                  || before[a].severity != more[0].severity || before[a].message != more[0].message
        {
          SeveralSeen(templateOf, ws, n - 1, before[a]);
        }
      }
    }
  }

  /** What the review shows. Every line is a finding nobody else of the template has, or stands for all
      the peers of a template with the same finding, at least two, and there is one such line a group;
      and every finding is spoken for. */
  lemma {:induction false} FoldedFindings(inp: Input, w: Warning)
    ensures var ws := Findings(inp);
      var lines := FoldUpTo(TemplateOf(inp.peers), ws, |ws|);
      && (forall line | line in lines :: LineFits(inp.peers, ws, line)) && OneLineEach(lines)
      && (Finding(inp, w) ==> exists line | line in lines :: SpeaksFor(TemplateOf(inp.peers), line, w))
  {
    var ws := Findings(inp);
    forall k | 0 <= k < |ws|
      ensures !ws[k].subject.Several?
    {
      FindingsExactly(inp, ws[k]);
      assert ws[k] in ws;
    }
    forall line | line in FoldUpTo(TemplateOf(inp.peers), ws, |ws|)
      ensures LineFits(inp.peers, ws, line)
    {
      LinesFit(inp.peers, ws, |ws|, line);
    }
    GroupsOnce(TemplateOf(inp.peers), ws, |ws|);
    FindingsExactly(inp, w);
    if Finding(inp, w) {
      var i :| 0 <= i < |ws| && ws[i] == w;
      NothingLost(TemplateOf(inp.peers), ws, i);
    }
  }
}
