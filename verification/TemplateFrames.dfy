/** What every operation on peers, templates and policies stores, and what it leaves alone, said of the
    fields of the rows. (internal/store/peer_templates.go, peers.go; internal/web/peers.go,
    peer_templates.go) */
module TemplateFrames {
  import opened Options
  import opened Model
  import opened PeerTemplates

  // ----- rows

  /** What is the peer's own and no template ever touches. */
  ghost predicate SameIdentity(p: Peer<int>, q: Peer<int>) {
    && q.id == p.id && q.name == p.name && q.enabled == p.enabled && q.neighborIP == p.neighborIP && q.v6 == p.v6
    && q.remoteASN == p.remoteASN && q.localIP == p.localIP && q.iface == p.iface && q.password == p.password
  }

  /** The drain switch is the peer's own too, but an internal session has none. */
  ghost predicate SameDrain(p: Peer<int>, q: Peer<int>) { q.drained <==> p.drained && q.role != IBGP }

  ghost predicate SameLimit(p: Peer<int>, q: Peer<int>) {
    q.importLimit == p.importLimit && q.importLimitAction == p.importLimitAction
  }

  ghost predicate SameShape(p: Peer<int>, q: Peer<int>) {
    && q.role == p.role && q.multihop == p.multihop && q.passive == p.passive && SameLimit(p, q)
    && q.importCommunities == p.importCommunities && q.exportCommunities == p.exportCommunities
    && q.prependCount == p.prependCount && q.enforceFirstAS == p.enforceFirstAS && q.originPeerOnly == p.originPeerOnly
    && q.bgpRole == p.bgpRole && q.gtsm == p.gtsm
    && q.bfd == p.bfd && q.bfdInterval == p.bfdInterval && q.bfdMultiplier == p.bfdMultiplier
    && q.gracefulRestart == p.gracefulRestart && q.nextHopSelf == p.nextHopSelf && q.rrClient == p.rrClient
    && q.ibgpExportDefault == p.ibgpExportDefault
  }

  /** What is stored of a template form: the form's own fields, but none its role has no use for, and
      no timers without BFD. */
  ghost predicate StoredTemplate(f: Template<int>, t: Template<int>) {
    && t.name == f.name && t.role == f.role && t.multihop == f.multihop && t.passive == f.passive
    && t.importLimit == f.importLimit && t.importLimitAction == f.importLimitAction
    && t.bfd == f.bfd && t.gracefulRestart == f.gracefulRestart && t.ibgpExportDefault == f.ibgpExportDefault
    && t.bfdInterval == (if f.bfd then f.bfdInterval else 0) && t.bfdMultiplier == (if f.bfd then f.bfdMultiplier else 0)
    && (if f.role == IBGP then
          && t.importCommunities == [] && t.exportCommunities == [] && t.prependCount == 0 && !t.enforceFirstAS
          && !t.originPeerOnly && !t.bgpRole && !t.gtsm && t.nextHopSelf == f.nextHopSelf && t.rrClient == f.rrClient
        else
          && t.importCommunities == f.importCommunities && t.exportCommunities == f.exportCommunities
          && t.prependCount == f.prependCount && t.enforceFirstAS == f.enforceFirstAS
          && t.originPeerOnly == f.originPeerOnly && t.bgpRole == f.bgpRole && t.gtsm == f.gtsm
          && !t.nextHopSelf && !t.rrClient)
  }

  /** And of the form of a peer that follows no template. */
  ghost predicate StoredShape(f: Peer<int>, p: Peer<int>) {
    && p.role == f.role && p.multihop == f.multihop && p.passive == f.passive && SameLimit(f, p)
    && p.bfd == f.bfd && p.gracefulRestart == f.gracefulRestart && p.ibgpExportDefault == f.ibgpExportDefault
    && p.bfdInterval == (if f.bfd then f.bfdInterval else 0) && p.bfdMultiplier == (if f.bfd then f.bfdMultiplier else 0)
    && (if f.role == IBGP then
          && p.importCommunities == [] && p.exportCommunities == [] && p.prependCount == 0 && !p.enforceFirstAS
          && !p.originPeerOnly && !p.bgpRole && !p.gtsm && p.nextHopSelf == f.nextHopSelf && p.rrClient == f.rrClient
        else
          && p.importCommunities == f.importCommunities && p.exportCommunities == f.exportCommunities
          && p.prependCount == f.prependCount && p.enforceFirstAS == f.enforceFirstAS
          && p.originPeerOnly == f.originPeerOnly && p.bgpRole == f.bgpRole && p.gtsm == f.gtsm
          && !p.nextHopSelf && !p.rrClient)
  }

  /** The peer's own fields, as the form has them; a blank password is the stored one. */
  ghost predicate StoredIdentity(s: Tables, id: int, f: Peer<int>, p: Peer<int>) {
    && p.id == id && p.name == f.name && p.enabled == f.enabled && p.neighborIP == f.neighborIP && p.v6 == f.v6
    && p.remoteASN == f.remoteASN && p.localIP == f.localIP && p.iface == f.iface
    && (f.password != "" ==> p.password == f.password)
    && (f.password == "" ==> p.password == if id in s.peers then s.peers[id].password else "")
    && SameDrain(f, p)
  }

  // ----- tables

  /** The same rows, but for one. */
  ghost predicate OnlyAt<V>(before: map<int, V>, after: map<int, V>, id: int) {
    forall k | k != id :: (k in after <==> k in before) && (k in before ==> after[k] == before[k])
  }

  ghost predicate Gone<V>(before: map<int, V>, after: map<int, V>, id: int) { OnlyAt(before, after, id) && id !in after }

  ghost predicate SameTemplates(s: Tables, s': Tables) {
    s'.templates == s.templates && s'.templateChains == s.templateChains
  }

  ghost predicate SamePeers(s: Tables, s': Tables) { s'.peers == s.peers && s'.peerChains == s.peerChains }

  /** One peer, row and chain. */
  ghost predicate Untouched(s: Tables, s': Tables, p: int)
    requires p in s.peers && p in s'.peers
  {
    && s'.peers[p] == s.peers[p]
    && (p in s'.peerChains <==> p in s.peerChains) && (p in s.peerChains ==> s'.peerChains[p] == s.peerChains[p])
  }

  /** The peer has become a copy of the template; identity and drain stay its own. */
  ghost predicate Copied(s: Tables, s': Tables, p: int, t: int)
    requires p in s.peers && p in s'.peers
  {
    && SameIdentity(s.peers[p], s'.peers[p]) && SameDrain(s.peers[p], s'.peers[p])
    && s'.peers[p].templateID == Some(t) && t in s'.templates && Follows(s'.peers[p], s'.templates[t])
    && p in s'.peerChains && t in s'.templateChains && s'.peerChains[p] == s'.templateChains[t]
  }

  /** The peer follows no template now, and is otherwise what it was. */
  ghost predicate LetGo(s: Tables, s': Tables, p: int)
    requires p in s.peers && p in s'.peers
  {
    && SameIdentity(s.peers[p], s'.peers[p]) && SameShape(s.peers[p], s'.peers[p])
    && s'.peers[p].drained == s.peers[p].drained && s'.peers[p].templateID == None && !s'.peers[p].overridesImportLimit
    && (p in s'.peerChains <==> p in s.peerChains) && (p in s.peerChains ==> s'.peerChains[p] == s.peerChains[p])
  }

  // ----- what is accepted

  /** The chains name policies there are, each of its direction, and none twice. */
  ghost predicate ChainsMeet(s: Tables, imports: seq<int>, exports: seq<int>) {
    && (forall k | 0 <= k < |imports| :: imports[k] in s.policies && s.policies[imports[k]])
    && (forall k | 0 <= k < |exports| :: exports[k] in s.policies && !s.policies[exports[k]])
    && forall i, j | 0 <= i < j < |imports + exports| :: (imports + exports)[i] != (imports + exports)[j]
  }

  ghost predicate RangesMeet(role: Role, prepend: nat, multihop: nat, bfd: bool, interval: nat, multiplier: nat) {
    && (role == IBGP || prepend <= 10) && multihop <= 255
    && (bfd ==> (interval == 0 || 10 <= interval <= 10000) && multiplier <= 255)
  }

  ghost predicate ShapeMeets(t: Template<int>) {
    RangesMeet(t.role, t.prependCount, t.multihop, t.bfd, t.bfdInterval, t.bfdMultiplier)
  }

  ghost predicate TemplateMeets(s: Tables, f: Template<int>, imports: seq<int>, exports: seq<int>) {
    ShapeMeets(f) && ChainsMeet(s, imports, exports)
  }

  /** A linked peer is accepted with its template's ranges and chain, an unlinked one with its own. */
  ghost predicate PeerMeets(s: Tables, f: Peer<int>, imports: seq<int>, exports: seq<int>) {
    match f.templateID
    case None =>
      RangesMeet(f.role, f.prependCount, f.multihop, f.bfd, f.bfdInterval, f.bfdMultiplier) && ChainsMeet(s, imports, exports)
    case Some(t) =>
      && t in s.templates && t in s.templateChains && ShapeMeets(s.templates[t]) && NoRepeats(s.templateChains[t])
  }

  ghost predicate Accepted(s: Tables, op: Op) {
    match op
    case OpCreateTemplate(id, form, imports, exports) => TemplateMeets(s, form, imports, exports)
    case OpUpdateTemplate(id, form, imports, exports) => id in s.templates && TemplateMeets(s, form, imports, exports)
    case OpAttach(peers, t) => (t == 0 || t in s.templates) && forall k | 0 <= k < |peers| :: peers[k] in s.peers
    case OpDeleteTemplate(id) => id in s.templates && forall p | p in s.peers :: s.peers[p].templateID != Some(id)
    case OpSavePeer(id, form, imports, exports) => PeerMeets(s, form, imports, exports)
    case OpDeletePeer(id) => id in s.peers
    case OpSetEnabled(id, _) => id in s.peers
    case OpSavePolicy(_, _) => true
    case OpDeletePolicy(id) =>
      && id in s.policies && (forall t | t in s.templateChains :: id !in s.templateChains[t])
      && (forall p | p in s.peerChains :: id !in s.peerChains[p])
  }

  // ----- what is stored

  ghost predicate TemplateStored(s: Tables, s': Tables, id: int, form: Template<int>, imports: seq<int>, exports: seq<int>) {
    && s'.policies == s.policies
    && OnlyAt(s.templates, s'.templates, id) && OnlyAt(s.templateChains, s'.templateChains, id)
    && id in s'.templates && s'.templates[id].id == id && StoredTemplate(form, s'.templates[id])
    && id in s'.templateChains && s'.templateChains[id] == imports + exports
  }

  /** A linked peer keeps an import limit it overrides; the others are left alone. */
  ghost predicate LinkedFollow(s: Tables, s': Tables, id: int) {
    && s'.peers.Keys == s.peers.Keys
    && forall p | p in s.peers ::
         if s.peers[p].templateID == Some(id) then
           && Copied(s, s', p, id) && s'.peers[p].overridesImportLimit == s.peers[p].overridesImportLimit
           && (s.peers[p].overridesImportLimit ==> SameLimit(s.peers[p], s'.peers[p]))
         else Untouched(s, s', p)
  }

  /** What an attachment makes of one peer. */
  ghost predicate PeerFollows(s: Tables, s': Tables, selected: bool, t: int, p: int)
    requires p in s.peers && p in s'.peers
  {
    if !selected then Untouched(s, s', p)
    else if t == 0 then LetGo(s, s', p)
    else Copied(s, s', p, t) && !s'.peers[p].overridesImportLimit
  }

  ghost predicate SelectedFollow(s: Tables, s': Tables, peers: seq<int>, t: int) {
    s'.peers.Keys == s.peers.Keys && forall p | p in s.peers :: PeerFollows(s, s', p in peers, t, p)
  }

  ghost predicate PeerStored(s: Tables, s': Tables, id: int, form: Peer<int>, imports: seq<int>, exports: seq<int>) {
    && OnlyAt(s.peers, s'.peers, id) && OnlyAt(s.peerChains, s'.peerChains, id)
    && id in s'.peers && id in s'.peerChains && StoredIdentity(s, id, form, s'.peers[id])
    && s'.peers[id].templateID == form.templateID
    && match form.templateID
       case None =>
         && StoredShape(form, s'.peers[id]) && !s'.peers[id].overridesImportLimit && s'.peerChains[id] == imports + exports
       case Some(t) =>
         && t in s.templates && t in s.templateChains
         && Follows(s'.peers[id], s.templates[t]) && s'.peerChains[id] == s.templateChains[t]
         && s'.peers[id].overridesImportLimit == form.overridesImportLimit
         && (form.overridesImportLimit ==> SameLimit(form, s'.peers[id]))
  }

  ghost predicate Switched(p: Peer<int>, q: Peer<int>, enabled: bool) {
    && q == p.(enabled := q.enabled) && q.enabled == enabled
  }

  ghost predicate Stored(s: Tables, op: Op, s': Tables) {
    match op
    case OpCreateTemplate(id, form, imports, exports) =>
      TemplateStored(s, s', id, form, imports, exports) && SamePeers(s, s')
    case OpUpdateTemplate(id, form, imports, exports) =>
      TemplateStored(s, s', id, form, imports, exports) && LinkedFollow(s, s', id)
    case OpAttach(peers, t) => s'.policies == s.policies && SameTemplates(s, s') && SelectedFollow(s, s', peers, t)
    case OpDeleteTemplate(id) =>
      && s'.policies == s.policies && SamePeers(s, s')
      && Gone(s.templates, s'.templates, id) && Gone(s.templateChains, s'.templateChains, id)
    case OpSavePeer(id, form, imports, exports) =>
      s'.policies == s.policies && SameTemplates(s, s') && PeerStored(s, s', id, form, imports, exports)
    case OpDeletePeer(id) =>
      && s'.policies == s.policies && SameTemplates(s, s')
      && Gone(s.peers, s'.peers, id) && Gone(s.peerChains, s'.peerChains, id)
    case OpSetEnabled(id, enabled) =>
      && s'.policies == s.policies && SameTemplates(s, s') && s'.peerChains == s.peerChains
      && OnlyAt(s.peers, s'.peers, id) && id in s.peers && id in s'.peers && Switched(s.peers[id], s'.peers[id], enabled)
    case OpSavePolicy(id, isImport) =>
      && SameTemplates(s, s') && SamePeers(s, s') && OnlyAt(s.policies, s'.policies, id)
      && id in s'.policies && s'.policies[id] == if id in s.policies then s.policies[id] else isImport
    case OpDeletePolicy(id) => SameTemplates(s, s') && SamePeers(s, s') && Gone(s.policies, s'.policies, id)
  }

  // ----- rows, proved

  lemma {:induction false} TemplateRowStored(f: Template<int>)
    ensures StoredTemplate(f, TemplateRow(NormalTemplate(f))) && TemplateRow(NormalTemplate(f)).id == f.id
  {
    var t := NormalTemplate(f);
    assert StoredTemplate(f, t) && t.id == f.id;
  }

  lemma {:induction false} TemplateRanges(f: Template<int>)
    ensures ShapeInRange(ApplyTo(NormalTemplate(f), Blank())) <==> ShapeMeets(f)
  {
    var t := NormalTemplate(f);
    assert ShapeInRange(ApplyTo(t, Blank())) <==> ShapeMeets(t);
  }

  lemma {:induction false} FormIsFormed(f: Template<int>, id: int, t: Template<int>)
    ensures StoredTemplate(f.(id := id), t) == StoredTemplate(f, t) && ShapeMeets(f.(id := id)) == ShapeMeets(f)
  {
  }

  lemma {:induction false} FitsMeets(s: Tables, id: int, f: Template<int>, imports: seq<int>, exports: seq<int>)
    ensures var t := NormalTemplate(f.(id := id));
      && (FormFits(s, t, imports, exports) <==> TemplateMeets(s, f, imports, exports))
      && StoredTemplate(f, TemplateRow(t)) && t.id == TemplateRow(t).id == id
  {
    var g := f.(id := id);
    TemplateRowStored(g);
    TemplateRanges(g);
    FormIsFormed(f, id, TemplateRow(NormalTemplate(g)));
  }

  ghost predicate RowKept(p: Peer<int>, q: Peer<int>, t: int) {
    && SameIdentity(p, q) && SameDrain(p, q) && q.templateID == Some(t)
    && q.overridesImportLimit == p.overridesImportLimit && (p.overridesImportLimit ==> SameLimit(p, q))
  }

  /** What a template makes of a row. */
  ghost predicate RowCopied(p: Peer<int>, q: Peer<int>, t: Template<int>) { RowKept(p, q, t.id) && Follows(q, t) }

  lemma {:induction false} ShapeRowCopies(t: Template<int>, p: Peer<int>)
    requires t.id != 0
    ensures RowCopied(p, ShapeRow(ApplyTo(t, p)), t)
  {
  }

  lemma {:induction false} CopiesRow(t: Template<int>, p: Peer<int>, q: Peer<int>, imports: seq<int>, exports: seq<int>)
    ensures RowCopied(p, q, t.(importPolicies := imports, exportPolicies := exports)) == RowCopied(p, q, t)
  {
    ChainsDoNotMatter(t, imports, exports, q);
  }

  // ----- templates

  lemma {:induction false} InsertStored(s: Tables, id: int, f: Template<int>, imports: seq<int>, exports: seq<int>)
    ensures TemplateStored(s, Inserted(s, NormalTemplate(f.(id := id)), imports, exports), id, f, imports, exports)
  {
    FitsMeets(s, id, f, imports, exports);
  }

  lemma {:induction false} UpdateStored(s: Tables, id: int, f: Template<int>, imports: seq<int>, exports: seq<int>)
    ensures TemplateStored(s, RewriteLinked(s, NormalTemplate(f.(id := id)), imports, exports), id, f, imports, exports)
  {
    FitsMeets(s, id, f, imports, exports);
  }

  /** A rewrite that makes a copy of the template of every row it touches, the rest of which it keeps. */
  ghost predicate CopiesRows(rewrite: Peer<int> -> Peer<int>, t: Template<int>) { forall p :: RowCopied(p, rewrite(p), t) }

  lemma {:induction false} ReshapedCopiesRows(t: Template<int>)
    requires t.id != 0
    ensures CopiesRows(Reshaped(t), TemplateRow(t))
  {
    forall p
      ensures RowCopied(p, Reshaped(t)(p), TemplateRow(t))
    {
      ShapeRowCopies(t, p);
      CopiesRow(t, p, ShapeRow(ApplyTo(t, p)), [], []);
    }
  }

  lemma {:induction false} RewriteFollows(s: Tables, t: Template<int>, rewrite: Peer<int> -> Peer<int>, chain: seq<int>)
    requires CopiesRows(rewrite, t)
    ensures LinkedFollow(s, RewriteWith(s, t, rewrite, chain), t.id)
  {
    var s' := RewriteWith(s, t, rewrite, chain);
    forall p | p in s.peers
      ensures if s.peers[p].templateID == Some(t.id) then
                && Copied(s, s', p, t.id) && s'.peers[p].overridesImportLimit == s.peers[p].overridesImportLimit
                && (s.peers[p].overridesImportLimit ==> SameLimit(s.peers[p], s'.peers[p]))
              else Untouched(s, s', p)
    {
      if s.peers[p].templateID == Some(t.id) {
        assert p in LinkedTo(s.peers, t.id) && RowCopied(s.peers[p], rewrite(s.peers[p]), t);
      } else {
        assert p !in LinkedTo(s.peers, t.id);
      }
    }
  }

  lemma {:induction false} UpdateFollows(s: Tables, id: int, f: Template<int>, imports: seq<int>, exports: seq<int>)
    requires id != 0
    ensures LinkedFollow(s, RewriteLinked(s, NormalTemplate(f.(id := id)), imports, exports), id)
  {
    var t := NormalTemplate(f.(id := id));
    FitsMeets(s, id, f, imports, exports);
    ReshapedCopiesRows(t);
    RewriteFollows(s, TemplateRow(t), Reshaped(t), imports + exports);
  }

  // ----- attach and detach

  lemma {:induction false} LinkedCopies(s: Tables, t: int, p: int)
    requires InStep(s) && t in s.templates && p in s.peers
    ensures Copied(s, Linked(s, t, p), p, t) && !Linked(s, t, p).peers[p].overridesImportLimit
  {
    var read := ReadTemplate(s, t);
    assert s.templates[t].id == t && SortedChain(s.policies, s.templateChains[t]);
    var before := s.peers[p].(overridesImportLimit := false);
    CopiesRow(s.templates[t], before, ShapeRow(ApplyTo(read, before)), read.importPolicies, read.exportPolicies);
    ShapeRowCopies(read, before);
    assert read == s.templates[t].(importPolicies := read.importPolicies, exportPolicies := read.exportPolicies);
  }

  /** First by one peer of the selection, then by the others. */
  lemma {:induction false} FollowsOn(s: Tables, m: Tables, s': Tables, first: bool, later: bool, t: int, p: int)
    requires p in s.peers && p in m.peers && p in s'.peers && SameTemplates(m, s')
    requires PeerFollows(s, m, first, t, p) && PeerFollows(m, s', later, t, p)
    ensures PeerFollows(s, s', first || later, t, p)
  {
  }

  lemma {:induction false} DetachedFollows(s: Tables, p0: int)
    requires p0 in s.peers
    ensures SelectedFollow(s, Detached(s, p0), [p0], 0)
  {
    var m := Detached(s, p0);
    assert LetGo(s, m, p0);
    forall p | p in s.peers
      ensures PeerFollows(s, m, p in [p0], 0, p)
    {
      if p != p0 { assert Untouched(s, m, p); }
    }
  }

  lemma {:induction false} LinkedFollows(s: Tables, t: int, p0: int)
    requires InStep(s) && t in s.templates && p0 in s.peers
    ensures SelectedFollow(s, Linked(s, t, p0), [p0], t)
  {
    var m := Linked(s, t, p0);
    LinkedCopies(s, t, p0);
    forall p | p in s.peers
      ensures PeerFollows(s, m, p in [p0], t, p)
    {
      if p != p0 { assert Untouched(s, m, p); }
    }
  }

  lemma {:induction false} AttachFollows(s: Tables, peers: seq<int>, t: int)
    requires InStep(s) && Attach(s, peers, t).Some?
    ensures var s' := Attach(s, peers, t).value;
      s'.policies == s.policies && SameTemplates(s, s') && SelectedFollow(s, s', peers, t)
    decreases |peers|
  {
    if peers != [] {
      var p0, rest := peers[0], peers[1..];
      var m := if t == 0 then Detached(s, p0) else Linked(s, t, p0);
      if t == 0 {
        DetachKeeps(s, p0);
        DetachedFollows(s, p0);
      } else {
        LinkKeeps(s, t, p0);
        LinkedFollows(s, t, p0);
      }
      AttachFollows(m, rest, t);
      SelectedOn(s, m, Attach(m, rest, t).value, peers, t);
    }
  }

  lemma {:induction false} SelectedOn(s: Tables, m: Tables, s': Tables, peers: seq<int>, t: int)
    requires peers != [] && SameTemplates(m, s') && SelectedFollow(s, m, [peers[0]], t)
    requires SelectedFollow(m, s', peers[1..], t)
    ensures SelectedFollow(s, s', peers, t)
  {
    forall p | p in s.peers
      ensures PeerFollows(s, s', p in peers, t, p)
    {
      assert p in m.peers;
      FollowsOn(s, m, s', p in [peers[0]], p in peers[1..], t, p);
    }
  }

  /** All or none. */
  lemma {:induction false} AttachAccepted(s: Tables, peers: seq<int>, t: int)
    ensures Attach(s, peers, t).Some? <==> (t == 0 || t in s.templates) && forall k | 0 <= k < |peers| :: peers[k] in s.peers
    decreases |peers|
  {
    if peers != [] && (t == 0 || t in s.templates) && peers[0] in s.peers {
      var m := if t == 0 then Detached(s, peers[0]) else Linked(s, t, peers[0]);
      AttachAccepted(m, peers[1..], t);
      assert forall k | 0 <= k < |peers[1..]| :: peers[1..][k] == peers[k + 1];
      assert forall k | 1 <= k < |peers| :: peers[k] == peers[1..][k - 1];
    }
  }

  // ----- the peer form

  lemma {:induction false} UnlinkedForm(s: Tables, id: int, f: Peer<int>)
    requires f.templateID == None
    ensures var q := NormalPeer(Posted(s, id, f));
      && q.id == id && StoredIdentity(s, id, f, PeerRow(q)) && StoredShape(f, PeerRow(q)) && PeerRow(q).templateID == None
      && !PeerRow(q).overridesImportLimit
      && (ShapeInRange(q) <==> RangesMeet(f.role, f.prependCount, f.multihop, f.bfd, f.bfdInterval, f.bfdMultiplier))
  {
  }

  lemma {:induction false} LinkedForm(s: Tables, id: int, f: Peer<int>, t: Template<int>)
    requires t.id != 0 && f.templateID == Some(t.id) && IsNormal(t)
    ensures var q := NormalPeer(ApplyTo(t, Posted(s, id, f)));
      && q.id == id && StoredIdentity(s, id, f, PeerRow(q)) && Follows(PeerRow(q), t) && PeerRow(q).templateID == f.templateID
      && PeerRow(q).overridesImportLimit == f.overridesImportLimit && (f.overridesImportLimit ==> SameLimit(f, PeerRow(q)))
      && (ShapeInRange(q) <==> ShapeMeets(t))
  {
    LinkedShape(t, Posted(s, id, f));
    LinkedIdentity(s, id, f, t);
  }

  lemma {:induction false} LinkedShape(t: Template<int>, p: Peer<int>)
    requires t.id != 0 && p.templateID == Some(t.id) && IsNormal(t)
    ensures var q := NormalPeer(ApplyTo(t, p)); Follows(PeerRow(q), t) && (ShapeInRange(q) <==> ShapeMeets(t))
  {
    ApplyToFollows(t, p);
    NormalPeerFollows(t, ApplyTo(t, p));
    PeerRowFollows(t, NormalPeer(ApplyTo(t, p)));
  }

  lemma {:induction false} LinkedIdentity(s: Tables, id: int, f: Peer<int>, t: Template<int>)
    requires t.id != 0 && f.templateID == Some(t.id)
    ensures var q := NormalPeer(ApplyTo(t, Posted(s, id, f)));
      && q.id == id && StoredIdentity(s, id, f, PeerRow(q)) && PeerRow(q).templateID == f.templateID
      && PeerRow(q).overridesImportLimit == f.overridesImportLimit && (f.overridesImportLimit ==> SameLimit(f, PeerRow(q)))
  {
  }

  lemma {:induction false} DirectedFits(policies: map<int, bool>, chain: seq<int>, isImport: bool)
    ensures AllDirected(policies, Directed(policies, chain, isImport), isImport)
  {
    if chain != [] { DirectedFits(policies, chain[1..], isImport); }
  }

  lemma {:induction false} ReadTemplateShape(s: Tables, t: int, p: Peer<int>)
    requires InStep(s) && t in s.templates
    ensures var read := ReadTemplate(s, t);
      && read.id == t != 0 && IsNormal(read) && ShapeMeets(read) == ShapeMeets(s.templates[t])
      && Follows(p, read) == Follows(p, s.templates[t])
      && ChainsFit(s.policies, read.importPolicies, read.exportPolicies)
      && read.importPolicies + read.exportPolicies == s.templateChains[t]
  {
    ReadFollows(s, t, p);
    assert SortedChain(s.policies, s.templateChains[t]);
    DirectedFits(s.policies, s.templateChains[t], true);
    DirectedFits(s.policies, s.templateChains[t], false);
  }

  lemma {:induction false} StoredRow(s: Tables, q: Peer<int>, imports: seq<int>, exports: seq<int>)
    ensures StorePeer(s, q, imports, exports).Some? <==> ShapeInRange(q) && ChainsMeet(s, imports, exports)
    ensures StorePeer(s, q, imports, exports).Some? ==>
              var s' := StorePeer(s, q, imports, exports).value;
              && s'.policies == s.policies && SameTemplates(s, s')
              && OnlyAt(s.peers, s'.peers, q.id) && OnlyAt(s.peerChains, s'.peerChains, q.id)
              && q.id in s'.peers && s'.peers[q.id] == PeerRow(q)
              && q.id in s'.peerChains && s'.peerChains[q.id] == imports + exports
  {
  }

  lemma {:induction false} SavedUnlinked(s: Tables, id: int, f: Peer<int>, imports: seq<int>, exports: seq<int>)
    requires f.templateID == None
    ensures SavePeer(s, id, f, imports, exports).Some? <==> PeerMeets(s, f, imports, exports)
    ensures PeerMeets(s, f, imports, exports) ==>
              var s' := SavePeer(s, id, f, imports, exports).value;
              s'.policies == s.policies && SameTemplates(s, s') && PeerStored(s, s', id, f, imports, exports)
  {
    UnlinkedForm(s, id, f);
    StoredRow(s, NormalPeer(Posted(s, id, f)), imports, exports);
  }

  lemma {:induction false} SavedLinked(s: Tables, id: int, f: Peer<int>, imports: seq<int>, exports: seq<int>)
    requires InStep(s) && f.templateID.Some? && f.templateID.value in s.templates
    ensures SavePeer(s, id, f, imports, exports).Some? <==> PeerMeets(s, f, imports, exports)
    ensures PeerMeets(s, f, imports, exports) ==>
              var s' := SavePeer(s, id, f, imports, exports).value;
              s'.policies == s.policies && SameTemplates(s, s') && PeerStored(s, s', id, f, imports, exports)
  {
    var read := ReadTemplate(s, f.templateID.value);
    var q := NormalPeer(ApplyTo(read, Posted(s, id, f)));
    ReadTemplateShape(s, f.templateID.value, PeerRow(q));
    LinkedForm(s, id, f, read);
    StoredRow(s, q, read.importPolicies, read.exportPolicies);
  }

  lemma {:induction false} NobodyLinked(peers: map<int, Peer<int>>, t: int)
    ensures LinkedTo(peers, t) == {} <==> forall p | p in peers :: peers[p].templateID != Some(t)
  {
    var linked := LinkedTo(peers, t);
    if forall p | p in peers :: peers[p].templateID != Some(t) {
      assert linked == {} by { assert forall p :: p !in linked; }
    } else {
      var p :| p in peers && peers[p].templateID == Some(t);
      assert p in linked;
    }
  }

  ghost predicate OnTemplates(op: Op) { op.OpCreateTemplate? || op.OpUpdateTemplate? || op.OpAttach? || op.OpDeleteTemplate? }

  lemma {:induction false} TemplatesByFields(s: Tables, op: Op)
    requires InStep(s) && FreshID(s, op) && OnTemplates(op)
    ensures if Accepted(s, op) then Stored(s, op, Perform(s, op)) else Perform(s, op) == s
  {
    match op
    case OpCreateTemplate(id, form, imports, exports) =>
      FitsMeets(s, id, form, imports, exports);
      InsertStored(s, id, form, imports, exports);
    case OpUpdateTemplate(id, form, imports, exports) =>
      FitsMeets(s, id, form, imports, exports);
      if id in s.templates {
        UpdateStored(s, id, form, imports, exports);
        UpdateFollows(s, id, form, imports, exports);
      }
    case OpAttach(peers, t) =>
      AttachAccepted(s, peers, t);
      if Attach(s, peers, t).Some? { AttachFollows(s, peers, t); }
    case OpDeleteTemplate(id) => NobodyLinked(s.peers, id);
  }

  lemma {:induction false} SavesByFields(s: Tables, op: Op)
    requires InStep(s) && op.OpSavePeer?
    ensures if Accepted(s, op) then Stored(s, op, Perform(s, op)) else Perform(s, op) == s
  {
    var f := op.peer;
    if f.templateID == None {
      SavedUnlinked(s, op.id, f, op.imports, op.exports);
    } else if f.templateID.value in s.templates {
      SavedLinked(s, op.id, f, op.imports, op.exports);
    }
  }

  lemma {:induction false} DeletesByFields(s: Tables, op: Op)
    requires op.OpDeletePeer?
    ensures if Accepted(s, op) then Stored(s, op, Perform(s, op)) else Perform(s, op) == s
  {
  }

  lemma {:induction false} SwitchesByFields(s: Tables, op: Op)
    requires op.OpSetEnabled?
    ensures if Accepted(s, op) then Stored(s, op, Perform(s, op)) else Perform(s, op) == s
  {
    if op.id in s.peers { assert Switched(s.peers[op.id], Perform(s, op).peers[op.id], op.enabled); }
  }

  lemma {:induction false} PoliciesByFields(s: Tables, op: Op)
    requires op.OpSavePolicy? || op.OpDeletePolicy?
    ensures if Accepted(s, op) then Stored(s, op, Perform(s, op)) else Perform(s, op) == s
  {
  }

  // ----- every operation

  /** Every operation, on tables its predecessors kept in step: it is accepted exactly when what it
      names is there and fits, it then stores what the form says and leaves everything else alone, and
      refused it changes nothing. */
  lemma {:induction false} PerformByFields(s: Tables, op: Op)
    requires InStep(s) && FreshID(s, op)
    ensures if Accepted(s, op) then Stored(s, op, Perform(s, op)) else Perform(s, op) == s
  {
    match op
    case OpSavePeer(_, _, _, _) => SavesByFields(s, op);
    case OpDeletePeer(_) => DeletesByFields(s, op);
    case OpSetEnabled(_, _) => SwitchesByFields(s, op);
    case OpSavePolicy(_, _) => PoliciesByFields(s, op);
    case OpDeletePolicy(_) => PoliciesByFields(s, op);
    case _ => TemplatesByFields(s, op);
  }

  // ----- runs

  /** The operations that name the peer itself: its form, its switch, its deletion. */
  ghost predicate Names(op: Op, p: int) { (op.OpSavePeer? || op.OpSetEnabled? || op.OpDeletePeer?) && op.id == p }

  lemma {:induction false} IdentityKept(s: Tables, op: Op, p: int)
    requires InStep(s) && FreshID(s, op) && p in s.peers && !Names(op, p)
    ensures p in Perform(s, op).peers && SameIdentity(s.peers[p], Perform(s, op).peers[p])
  {
    PerformByFields(s, op);
    if Accepted(s, op) {
      var s' := Perform(s, op);
      match op
      case OpUpdateTemplate(id, _, _, _) => assert s.peers[p].templateID != Some(id) ==> Untouched(s, s', p);
      case OpAttach(peers, t) => assert PeerFollows(s, s', p in peers, t, p);
      case _ =>
    }
  }

  /** Over every run that never names a peer, whatever its templates go through, the peer stays who it
      is: same name, switch, addresses, AS and password. */
  lemma {:induction false} IdentityIsItsOwn(s: Tables, run: seq<Op>, p: int)
    requires InStep(s) && FreshRun(s, run) && p in s.peers && forall k | 0 <= k < |run| :: !Names(run[k], p)
    ensures InStep(After(s, run)) && p in After(s, run).peers && SameIdentity(s.peers[p], After(s, run).peers[p])
  {
    if run != [] {
      var n := |run| - 1;
      var r := run[..n];
      forall k | 0 <= k < n
        ensures FreshID(After(s, r[..k]), r[k]) && !Names(r[k], p)
      {
        assert r[..k] == run[..k] && r[k] == run[k];
        assert FreshID(After(s, run[..k]), run[k]);
      }
      IdentityIsItsOwn(s, r, p);
      assert FreshID(After(s, run[..n]), run[n]) && run[..n] == r;
      OpKeeps(After(s, r), run[n]);
      IdentityKept(After(s, r), run[n], p);
    }
  }
}
