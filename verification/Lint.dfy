/** The findings about sessions that accept or announce nothing, and folding them by template.
    (internal/render/lint.go, Lint and foldByTemplate) */
module Lint {
  import opened Options
  import opened Bird
  import opened Model
  import opened Compile
  import opened ImportMeaning

  datatype Severity = Danger | Warn

  /** What a finding says. */
  datatype Message =
    | AllowListDisabled(policy: string, setName: string)
    | RejectsPrivateASN(asn: nat, policy: string)
    | DefaultUnreachable(rejecting: string, policy: string)
    | AcceptsNothingAtAll(rejecting: string, policy: string)
    | OriginsExclude(asn: nat, asSet: string)
    | NoImportPolicy
    | PermitsNothing(policy: string, hasSets: bool)

  /** Who a finding is about: nobody in particular, a peer, or several peers of one template. */
  datatype Subject = Nobody | OnePeer(name: string) | Several(template: string, names: seq<string>)

  datatype Warning = Warning(severity: Severity, subject: Subject, message: Message)

  // ----- what each rule looks at

  /** AS numbers in a range the operator marked private. */
  predicate IsPrivate(list: seq<BogonASN>, asn: nat) {
    exists k | 0 <= k < |list| :: list[k].isPrivate && list[k].range.low <= asn <= list[k].range.high
  }

  function RejectingDefault(chain: seq<Policy>): string {
    if chain == [] then ""
    else
      var before := RejectingDefault(chain[..|chain| - 1]);
      var pol := chain[|chain| - 1];
      if pol.defaultRoute == RejectDefault && before == "" then pol.name else before
  }

  function PrivateFindings(p: Peer<Policy>, chain: seq<Policy>): seq<Warning> {
    if chain == [] then []
    else
      var pol := chain[|chain| - 1];
      PrivateFindings(p, chain[..|chain| - 1])
      + if pol.bogonASNs == BogonsAll then [Warning(Danger, OnePeer(p.name), RejectsPrivateASN(p.remoteASN, pol.name))] else []
  }

  function DefaultFindings(p: Peer<Policy>, rejecting: string, chain: seq<Policy>): seq<Warning> {
    if chain == [] then []
    else
      var pol := chain[|chain| - 1];
      DefaultFindings(p, rejecting, chain[..|chain| - 1])
      + match pol.defaultRoute
        case AcceptDefault => [Warning(Danger, OnePeer(p.name), DefaultUnreachable(rejecting, pol.name))]
        case OnlyDefault => [Warning(Danger, OnePeer(p.name), AcceptsNothingAtAll(rejecting, pol.name))]
        case RejectDefault => []
  }

  /** The AS set of a policy that filters origins, when it leaves the peer's own AS out. */
  function ExcludingSet(asSets: seq<ASSet>, pol: Policy, asn: nat): Option<ASSet> {
    match pol.originASSet
    case None => None
    case Some(id) =>
      match ASSetByID(asSets, id)
      case None => None
      case Some(s) => if InRanges(asn, s.entries) then None else Some(s)
  }

  function OriginFindings(inp: Input, p: Peer<Policy>, chain: seq<Policy>): seq<Warning> {
    if chain == [] then []
    else
      OriginFindings(inp, p, chain[..|chain| - 1])
      + match ExcludingSet(inp.asSets, chain[|chain| - 1], p.remoteASN)
        case Some(s) => [Warning(Danger, OnePeer(p.name), OriginsExclude(p.remoteASN, s.name))]
        case None => []
  }

  /** How many of an export policy's sets are enabled and hold something. */
  function LiveSets(sets: seq<PrefixSet>, ids: seq<int>): nat {
    if ids == [] then 0
    else
      LiveSets(sets, ids[..|ids| - 1])
      + match SetByID(sets, ids[|ids| - 1])
        case Some(ps) => if Rendered(ps) then 1 else 0
        case None => 0
  }

  /** No route source is ticked and no set holds anything. The community match is not looked at. */
  predicate SeemsEmpty(sets: seq<PrefixSet>, pol: Policy) {
    && !pol.announceEverything && !pol.announceDefault && !pol.announceFromUpstream && !pol.announceFromIX
    && !pol.announceFromCustomer && LiveSets(sets, pol.setIDs) == 0
  }

  function EmptyFindings(inp: Input, p: Peer<Policy>, chain: seq<Policy>): seq<Warning> {
    if chain == [] then []
    else
      var pol := chain[|chain| - 1];
      EmptyFindings(inp, p, chain[..|chain| - 1])
      + if SeemsEmpty(inp.prefixSets, pol)
        then [Warning(Danger, OnePeer(p.name), PermitsNothing(pol.name, pol.setIDs != []))] else []
  }

  /** The findings about what one peer's chain takes in, in order. */
  function ImportFindings(inp: Input, p: Peer<Policy>): seq<Warning> {
    var rejecting := RejectingDefault(p.importPolicies);
    (if IsPrivate(Bogons(inp), p.remoteASN) then PrivateFindings(p, p.importPolicies) else [])
    + (if rejecting != "" then DefaultFindings(p, rejecting, p.importPolicies) else [])
    + (if p.originPeerOnly then OriginFindings(inp, p, p.importPolicies) else [])
    + (if p.importPolicies == [] then [Warning(Danger, OnePeer(p.name), NoImportPolicy)] else [])
  }

  /** The findings about one peer; internal peers have none of these. */
  function PeerFindings(inp: Input, p: Peer<Policy>): seq<Warning> {
    if p.IsIBGP() then [] else ImportFindings(inp, p) + EmptyFindings(inp, p, p.exportPolicies)
  }

  /** The policies built on an allow-list that is switched off. */
  function PolicyFindings(inp: Input, pols: seq<Policy>): seq<Warning> {
    if pols == [] then []
    else
      var pol := pols[|pols| - 1];
      PolicyFindings(inp, pols[..|pols| - 1])
      + match DisabledList(inp.prefixSets, pol)
        case Some(ps) => [Warning(Danger, Nobody, AllowListDisabled(pol.name, ps.name))]
        case None => []
  }

  function DisabledList(sets: seq<PrefixSet>, pol: Policy): Option<PrefixSet> {
    match pol.acceptOnlySet
    case None => None
    case Some(id) =>
      match SetByID(sets, id)
      case None => None
      case Some(ps) => if ps.disabled then Some(ps) else None
  }

  function AllPeerFindings(inp: Input, peers: seq<Peer<Policy>>): seq<Warning> {
    if peers == [] then [] else AllPeerFindings(inp, peers[..|peers| - 1]) + PeerFindings(inp, peers[|peers| - 1])
  }

  // ----- the loops

  method Contains(s: ASSet, asn: nat) returns (r: bool)
    ensures r == InRanges(asn, s.entries)
  {
    for k := 0 to |s.entries|
      invariant forall i | 0 <= i < k :: !(s.entries[i].low <= asn <= s.entries[i].high)
    {
      if s.entries[k].low <= asn <= s.entries[k].high { return true; }
    }
    return false;
  }

  method IsPrivateASN(inp: Input, asn: nat) returns (r: bool)
    ensures r == IsPrivate(Bogons(inp), asn)
  {
    var list := Bogons(inp);
    for k := 0 to |list|
      invariant forall i | 0 <= i < k :: !(list[i].isPrivate && list[i].range.low <= asn <= list[i].range.high)
    {
      if list[k].isPrivate && list[k].range.low <= asn <= list[k].range.high { return true; }
    }
    return false;
  }

  /** Every policy in turn. */
  method LintPolicies(inp: Input) returns (out: seq<Warning>)
    ensures out == PolicyFindings(inp, inp.policies)
  {
    var pols := inp.policies;
    out := [];
    for k := 0 to |pols|
      invariant out == PolicyFindings(inp, pols[..k])
    {
      assert pols[..k + 1][..k] == pols[..k];
      if pols[k].acceptOnlySet.Some? {
        var found := SetByID(inp.prefixSets, pols[k].acceptOnlySet.value);
        if found.Some? && found.value.disabled {
          out := out + [Warning(Danger, Nobody, AllowListDisabled(pols[k].name, found.value.name))];
        }
      }
    }
    assert pols[..|pols|] == pols;
  }

  /** Goes over the import chain three times: private AS numbers, the default route, origins. */
  method LintImports(inp: Input, p: Peer<Policy>) returns (out: seq<Warning>)
    ensures out == ImportFindings(inp, p)
  {
    var chain := p.importPolicies;
    out := [];
    var hasPrivateASN := IsPrivateASN(inp, p.remoteASN);
    if hasPrivateASN { out := LintPrivate(p, chain); }
    var rejecting := LintRejecting(chain);
    if rejecting != "" {
      var more := LintDefault(p, rejecting, chain);
      out := out + more;
    }
    if p.originPeerOnly {
      var more := LintOrigins(inp, p, chain);
      out := out + more;
    }
    if |chain| == 0 { out := out + [Warning(Danger, OnePeer(p.name), NoImportPolicy)]; }
  }

  method LintPrivate(p: Peer<Policy>, chain: seq<Policy>) returns (out: seq<Warning>)
    ensures out == PrivateFindings(p, chain)
  {
    out := [];
    for k := 0 to |chain|
      invariant out == PrivateFindings(p, chain[..k])
    {
      assert chain[..k + 1][..k] == chain[..k];
      if chain[k].bogonASNs == BogonsAll {
        out := out + [Warning(Danger, OnePeer(p.name), RejectsPrivateASN(p.remoteASN, chain[k].name))];
      }
    }
    assert chain[..|chain|] == chain;
  }

  method LintRejecting(chain: seq<Policy>) returns (rejecting: string)
    ensures rejecting == RejectingDefault(chain)
  {
    rejecting := "";
    for k := 0 to |chain|
      invariant rejecting == RejectingDefault(chain[..k])
    {
      assert chain[..k + 1][..k] == chain[..k];
      if chain[k].defaultRoute == RejectDefault && rejecting == "" { rejecting := chain[k].name; }
    }
    assert chain[..|chain|] == chain;
  }

  method LintDefault(p: Peer<Policy>, rejecting: string, chain: seq<Policy>) returns (out: seq<Warning>)
    ensures out == DefaultFindings(p, rejecting, chain)
  {
    out := [];
    for k := 0 to |chain|
      invariant out == DefaultFindings(p, rejecting, chain[..k])
    {
      assert chain[..k + 1][..k] == chain[..k];
      match chain[k].defaultRoute {
        case AcceptDefault => out := out + [Warning(Danger, OnePeer(p.name), DefaultUnreachable(rejecting, chain[k].name))];
        case OnlyDefault => out := out + [Warning(Danger, OnePeer(p.name), AcceptsNothingAtAll(rejecting, chain[k].name))];
        case RejectDefault =>
      }
    }
    assert chain[..|chain|] == chain;
  }

  method LintOrigins(inp: Input, p: Peer<Policy>, chain: seq<Policy>) returns (out: seq<Warning>)
    ensures out == OriginFindings(inp, p, chain)
  {
    out := [];
    for k := 0 to |chain|
      invariant out == OriginFindings(inp, p, chain[..k])
    {
      assert chain[..k + 1][..k] == chain[..k];
      if chain[k].originASSet.Some? {
        var found := ASSetByID(inp.asSets, chain[k].originASSet.value);
        if found.Some? {
          var member := Contains(found.value, p.remoteASN);
          if !member { out := out + [Warning(Danger, OnePeer(p.name), OriginsExclude(p.remoteASN, found.value.name))]; }
        }
      }
    }
    assert chain[..|chain|] == chain;
  }

  method LintExports(inp: Input, p: Peer<Policy>) returns (out: seq<Warning>)
    ensures out == EmptyFindings(inp, p, p.exportPolicies)
  {
    var chain := p.exportPolicies;
    out := [];
    for k := 0 to |chain|
      invariant out == EmptyFindings(inp, p, chain[..k])
    {
      assert chain[..k + 1][..k] == chain[..k];
      var pol := chain[k];
      var withEntries := CountLive(inp.prefixSets, pol.setIDs);
      if !pol.announceEverything && !pol.announceDefault && !pol.announceFromUpstream && !pol.announceFromIX
         && !pol.announceFromCustomer && withEntries == 0 {
        out := out + [Warning(Danger, OnePeer(p.name), PermitsNothing(pol.name, pol.setIDs != []))];
      }
    }
    assert chain[..|chain|] == chain;
  }

  method CountLive(sets: seq<PrefixSet>, ids: seq<int>) returns (n: nat)
    ensures n == LiveSets(sets, ids)
  {
    n := 0;
    for k := 0 to |ids|
      invariant n == LiveSets(sets, ids[..k])
    {
      assert ids[..k + 1][..k] == ids[..k];
      var found := SetByID(sets, ids[k]);
      if found.Some? && !found.value.disabled && |found.value.entries| > 0 { n := n + 1; }
    }
    assert ids[..|ids|] == ids;
  }

  method LintPeer(inp: Input, p: Peer<Policy>) returns (out: seq<Warning>)
    ensures out == PeerFindings(inp, p)
  {
    if p.IsIBGP() { return []; }
    var imports := LintImports(inp, p);
    var exports := LintExports(inp, p);
    return imports + exports;
  }

  /** Every peer in turn. */
  method LintPeers(inp: Input) returns (out: seq<Warning>)
    ensures out == AllPeerFindings(inp, inp.peers)
  {
    out := [];
    for k := 0 to |inp.peers|
      invariant out == AllPeerFindings(inp, inp.peers[..k])
    {
      assert inp.peers[..k + 1][..k] == inp.peers[..k];
      var found := LintPeer(inp, inp.peers[k]);
      out := out + found;
    }
    assert inp.peers[..|inp.peers|] == inp.peers;
  }

  /** The findings about policies, then those about peers, folded. */
  method LintAll(inp: Input) returns (out: seq<Warning>)
    ensures var ws := PolicyFindings(inp, inp.policies) + AllPeerFindings(inp, inp.peers);
      out == FoldUpTo(TemplateOf(inp.peers), ws, |ws|)
  {
    var policies := LintPolicies(inp);
    var peers := LintPeers(inp);
    out := FoldByTemplate(policies + peers, inp.peers);
  }

  // ----- folding findings by template

  function TemplateOf(peers: seq<Peer<Policy>>): map<string, string> {
    if peers == [] then map[]
    else
      var before := TemplateOf(peers[..|peers| - 1]);
      var p := peers[|peers| - 1];
      if p.templateName != "" then before[p.name := p.templateName] else before
  }

  /** What makes two findings one. */
  datatype Key = Key(template: string, severity: Severity, message: Message)

  function KeyOf(templateOf: map<string, string>, w: Warning): Option<Key> {
    if w.subject.OnePeer? && w.subject.name in templateOf && templateOf[w.subject.name] != "" then
      Some(Key(templateOf[w.subject.name], w.severity, w.message))
    else None
  }

  /** The distinct peers a finding is about, over a list of findings. */
  function Names(templateOf: map<string, string>, ws: seq<Warning>, key: Key): seq<string> {
    if ws == [] then []
    else
      var before := Names(templateOf, ws[..|ws| - 1], key);
      var w := ws[|ws| - 1];
      if KeyOf(templateOf, w) == Some(key) && w.subject.name !in before then before + [w.subject.name] else before
  }

  predicate HasKey(templateOf: map<string, string>, ws: seq<Warning>, key: Key) {
    exists k | 0 <= k < |ws| :: KeyOf(templateOf, ws[k]) == Some(key)
  }

  /** What finding `i` becomes: itself, the one line for its group, or nothing when an earlier one
      stands for it. */
  function FoldAt(templateOf: map<string, string>, ws: seq<Warning>, i: nat): seq<Warning>
    requires i < |ws|
  {
    match KeyOf(templateOf, ws[i])
    case None => [ws[i]]
    case Some(key) =>
      var names := Names(templateOf, ws, key);
      if |names| < 2 then [ws[i]]
      else if HasKey(templateOf, ws[..i], key) then []
      else [Warning(key.severity, Several(key.template, names), key.message)]
  }

  function FoldUpTo(templateOf: map<string, string>, ws: seq<Warning>, n: nat): seq<Warning>
    requires n <= |ws|
  {
    if n == 0 then [] else FoldUpTo(templateOf, ws, n - 1) + FoldAt(templateOf, ws, n - 1)
  }

  method FoldByTemplate(ws: seq<Warning>, peers: seq<Peer<Policy>>) returns (out: seq<Warning>)
    ensures out == FoldUpTo(TemplateOf(peers), ws, |ws|)
  {
    var templateOf: map<string, string> := map[];
    for k := 0 to |peers|
      invariant templateOf == TemplateOf(peers[..k])
    {
      assert peers[..k + 1][..k] == peers[..k];
      if peers[k].templateName != "" { templateOf := templateOf[peers[k].name := peers[k].templateName]; }
    }
    assert peers[..|peers|] == peers;
    out := [];
    for i := 0 to |ws|
      invariant out == FoldUpTo(templateOf, ws, i)
    {
      var key := KeyOf(templateOf, ws[i]);
      if key.None? {
        out := out + [ws[i]];
      } else {
        var names, first := Members(templateOf, ws, key.value, i);
        if |names| < 2 {
          out := out + [ws[i]];
        } else if first {
          out := out + [Warning(key.value.severity, Several(key.value.template, names), key.value.message)];
        }
      }
    }
  }

  /** The members of a finding's group, and whether finding `i` is the first of them. */
  method Members(templateOf: map<string, string>, ws: seq<Warning>, key: Key, i: nat)
    returns (names: seq<string>, first: bool)
    requires i < |ws|
    ensures names == Names(templateOf, ws, key) && first == !HasKey(templateOf, ws[..i], key)
  {
    names, first := [], true;
    for k := 0 to |ws|
      invariant names == Names(templateOf, ws[..k], key)
      invariant first <==> forall j | 0 <= j < k && j < i :: KeyOf(templateOf, ws[j]) != Some(key)
    {
      assert ws[..k + 1][..k] == ws[..k];
      if KeyOf(templateOf, ws[k]) == Some(key) {
        if k < i { first := false; }
        if ws[k].subject.name !in names { names := names + [ws[k].subject.name]; }
      }
    }
    assert ws[..|ws|] == ws;
    assert forall j | 0 <= j < i :: ws[..i][j] == ws[j];
  }

  // ----- nothing is lost and nothing is invented

  /** A line of the result speaks for a finding: the same words, about that peer or a group with it. */
  predicate SpeaksFor(templateOf: map<string, string>, line: Warning, w: Warning) {
    && line.severity == w.severity && line.message == w.message
    && (line.subject == w.subject
        || (line.subject.Several? && w.subject.OnePeer? && w.subject.name in line.subject.names
            && w.subject.name in templateOf && templateOf[w.subject.name] == line.subject.template))
  }

  lemma {:induction false} NamesAre(templateOf: map<string, string>, ws: seq<Warning>, key: Key)
    ensures forall k | 0 <= k < |ws| && KeyOf(templateOf, ws[k]) == Some(key) ::
              ws[k].subject.OnePeer? && ws[k].subject.name in Names(templateOf, ws, key)
    ensures forall n | n in Names(templateOf, ws, key) ::
              exists k | 0 <= k < |ws| :: KeyOf(templateOf, ws[k]) == Some(key) && ws[k].subject.name == n
  {
    if ws != [] {
      var m := |ws| - 1;
      NamesAre(templateOf, ws[..m], key);
      forall n | n in Names(templateOf, ws, key)
        ensures exists k | 0 <= k < |ws| :: KeyOf(templateOf, ws[k]) == Some(key) && ws[k].subject.name == n
      {
        if n in Names(templateOf, ws[..m], key) {
          var k :| 0 <= k < m && KeyOf(templateOf, ws[..m][k]) == Some(key) && ws[..m][k].subject.name == n;
          assert ws[k] == ws[..m][k];
        } else {
          assert KeyOf(templateOf, ws[m]) == Some(key);
        }
      }
    }
  }

  lemma {:induction false} FoldContains(templateOf: map<string, string>, ws: seq<Warning>, n: nat, i: nat)
    requires i < n <= |ws| && FoldAt(templateOf, ws, i) != []
    ensures FoldAt(templateOf, ws, i)[0] in FoldUpTo(templateOf, ws, n)
  {
    if i < n - 1 { FoldContains(templateOf, ws, n - 1, i); }
  }

  /** The first finding of a group. */
  lemma {:induction false} FirstOf(templateOf: map<string, string>, ws: seq<Warning>, key: Key, i: nat) returns (f: nat)
    requires i < |ws| && KeyOf(templateOf, ws[i]) == Some(key)
    ensures f <= i && KeyOf(templateOf, ws[f]) == Some(key) && !HasKey(templateOf, ws[..f], key)
  {
    f := 0;
    while KeyOf(templateOf, ws[f]) != Some(key)
      invariant f <= i && forall j | 0 <= j < f :: KeyOf(templateOf, ws[j]) != Some(key)
      decreases i - f
    {
      f := f + 1;
    }
  }

  /** Every finding is still spoken for after folding. */
  lemma {:induction false} NothingLost(templateOf: map<string, string>, ws: seq<Warning>, i: nat)
    requires i < |ws|
    ensures exists line | line in FoldUpTo(templateOf, ws, |ws|) :: SpeaksFor(templateOf, line, ws[i])
  {
    match KeyOf(templateOf, ws[i])
    case None =>
      FoldContains(templateOf, ws, |ws|, i);
      assert SpeaksFor(templateOf, ws[i], ws[i]);
    case Some(key) =>
      if |Names(templateOf, ws, key)| < 2 {
        FoldContains(templateOf, ws, |ws|, i);
        assert SpeaksFor(templateOf, ws[i], ws[i]);
      } else {
        var f := FirstOf(templateOf, ws, key, i);
        FoldContains(templateOf, ws, |ws|, f);
        NamesAre(templateOf, ws, key);
        assert SpeaksFor(templateOf, FoldAt(templateOf, ws, f)[0], ws[i]);
      }
  }

  /** Every line after folding is one of the findings, or speaks for two or more peers each of which
      has that finding. */
  lemma {:induction false} NothingInvented(templateOf: map<string, string>, ws: seq<Warning>, n: nat, line: Warning)
    requires n <= |ws| && line in FoldUpTo(templateOf, ws, n)
    ensures || line in ws
            || (line.subject.Several? && |line.subject.names| >= 2
                && forall name | name in line.subject.names ::
                     exists k | 0 <= k < |ws| :: ws[k] == Warning(line.severity, OnePeer(name), line.message))
  {
    if line in FoldUpTo(templateOf, ws, n - 1) {
      NothingInvented(templateOf, ws, n - 1, line);
    } else {
      var i := n - 1;
      match KeyOf(templateOf, ws[i])
      case None =>
      case Some(key) =>
        NamesAre(templateOf, ws, key);
        if line != ws[i] {
          forall name | name in line.subject.names
            ensures exists k | 0 <= k < |ws| :: ws[k] == Warning(line.severity, OnePeer(name), line.message)
          {
            var k :| 0 <= k < |ws| && KeyOf(templateOf, ws[k]) == Some(key) && ws[k].subject.name == name;
            assert ws[k] == Warning(line.severity, OnePeer(name), line.message);
          }
        }
    }
  }
}
