/** Peer templates: linked peers carry a full copy of their template's shape, and every way of
    changing either keeps the copy equal.
    (internal/store/peer_templates.go, peers.go, policies.go; internal/web/peers.go,
    handlePeerSave and applyTemplate; internal/web/peer_templates.go, handlePeerTemplateSave) */
module PeerTemplates {
  import opened Options
  import opened Model
  import opened Sections

  // ----- shapes

  /** Overwrites the governed fields and chains, and records the link; identity and the drain
      switch stay the peer's own, and so does an overridden import limit. */
  function ApplyTo(t: Template<int>, p: Peer<int>): Peer<int> {
    p.(role := t.role, multihop := t.multihop, passive := t.passive,
       importLimit := if p.overridesImportLimit then p.importLimit else t.importLimit,
       importLimitAction := if p.overridesImportLimit then p.importLimitAction else t.importLimitAction,
       importCommunities := t.importCommunities, exportCommunities := t.exportCommunities,
       prependCount := t.prependCount, enforceFirstAS := t.enforceFirstAS, originPeerOnly := t.originPeerOnly,
       bgpRole := t.bgpRole, gtsm := t.gtsm, bfd := t.bfd, bfdInterval := t.bfdInterval,
       bfdMultiplier := t.bfdMultiplier, gracefulRestart := t.gracefulRestart, nextHopSelf := t.nextHopSelf,
       rrClient := t.rrClient, ibgpExportDefault := t.ibgpExportDefault,
       importPolicies := t.importPolicies, exportPolicies := t.exportPolicies,
       templateID := if t.id != 0 then Some(t.id) else None, templateName := t.name)
  }

  /** Switches off what a role has no use for, and the timers of a session without BFD. */
  function NormalShape(p: Peer<int>): Peer<int> {
    var internal := p.IsIBGP();
    p.(nextHopSelf := internal && p.nextHopSelf, rrClient := internal && p.rrClient,
       importCommunities := if internal then [] else p.importCommunities,
       exportCommunities := if internal then [] else p.exportCommunities,
       prependCount := if internal then 0 else p.prependCount,
       drained := !internal && p.drained, bgpRole := !internal && p.bgpRole, gtsm := !internal && p.gtsm,
       enforceFirstAS := !internal && p.enforceFirstAS, originPeerOnly := !internal && p.originPeerOnly,
       bfdInterval := if p.bfd then p.bfdInterval else 0, bfdMultiplier := if p.bfd then p.bfdMultiplier else 0)
  }

  /** The ranges the form insists on. */
  predicate ShapeInRange(p: Peer<int>) {
    && p.prependCount <= 10 && p.multihop <= 255
    && (p.bfdInterval == 0 || 10 <= p.bfdInterval <= 10000) && p.bfdMultiplier <= 255
  }

  /** What a peer's form is normalised to; an unlinked peer overrides nothing. */
  function NormalPeer(p: Peer<int>): Peer<int> {
    NormalShape(p.(overridesImportLimit := p.overridesImportLimit && p.templateID.Some?))
  }

  /** A template goes through the same normalisation, as the shape of a peer without identity. */
  function NormalTemplate(t: Template<int>): Template<int> {
    TemplateFromPeer(NormalShape(ApplyTo(t, Blank()))).(id := t.id, name := t.name)
  }

  function Blank(): Peer<int> {
    Peer(0, "", false, "", false, 0, "", "", "", false,
         Upstream, 0, false, 0, Warn, [], [], 0, false, false, false, false, false, 0, 0, GRAware,
         false, false, AnnounceAll, [], [], None, "", false)
  }

  /** What normalisation leaves: no role carries what it has no use for. */
  predicate IsNormal(t: Template<int>) {
    && (t.role == IBGP ==>
          && t.importCommunities == [] && t.exportCommunities == [] && t.prependCount == 0
          && !t.bgpRole && !t.gtsm && !t.enforceFirstAS && !t.originPeerOnly)
    && (t.role != IBGP ==> !t.nextHopSelf && !t.rrClient)
    && (!t.bfd ==> t.bfdInterval == 0 && t.bfdMultiplier == 0)
  }

  /** The peer's governed fields are the template's, except an overridden import limit. */
  predicate Follows<P, Q>(p: Peer<P>, t: Template<Q>) {
    && p.role == t.role && p.multihop == t.multihop && p.passive == t.passive
    && (!p.overridesImportLimit ==> p.importLimit == t.importLimit && p.importLimitAction == t.importLimitAction)
    && p.importCommunities == t.importCommunities && p.exportCommunities == t.exportCommunities
    && p.prependCount == t.prependCount && p.enforceFirstAS == t.enforceFirstAS && p.originPeerOnly == t.originPeerOnly
    && p.bgpRole == t.bgpRole && p.gtsm == t.gtsm
    && p.bfd == t.bfd && p.bfdInterval == t.bfdInterval && p.bfdMultiplier == t.bfdMultiplier
    && p.gracefulRestart == t.gracefulRestart && p.nextHopSelf == t.nextHopSelf && p.rrClient == t.rrClient
    && p.ibgpExportDefault == t.ibgpExportDefault
  }

  lemma {:induction false} ApplyToFollows(t: Template<int>, p: Peer<int>)
    requires t.id != 0
    ensures var q := ApplyTo(t, p);
      && Follows(q, t) && q.templateID == Some(t.id) && q.id == p.id && q.overridesImportLimit == p.overridesImportLimit
      && q.importPolicies == t.importPolicies && q.exportPolicies == t.exportPolicies
  {
  }

  lemma {:induction false} NormalTemplateIsNormal(t: Template<int>)
    ensures IsNormal(NormalTemplate(t)) && NormalTemplate(t).id == t.id
  {
  }

  /** Normalising a peer that took its shape from a normal template changes no governed field:
      what reaches the row is the template's. */
  lemma {:induction false} NormalPeerFollows(t: Template<int>, p: Peer<int>)
    requires IsNormal(t) && Follows(p, t) && p.templateID.Some?
    ensures var q := NormalPeer(p);
      Follows(q, t) && q.templateID == p.templateID && q.id == p.id && (q.IsIBGP() ==> !q.drained)
  {
  }

  // ----- the tables

  /** Rows by id. A policy row is its direction; a chain row list holds policy ids by position. */
  datatype Tables = Tables(policies: map<int, bool>, templates: map<int, Template<int>>, peers: map<int, Peer<int>>,
                           templateChains: map<int, seq<int>>, peerChains: map<int, seq<int>>)

  /** The policies of one direction, in order. */
  function Directed(policies: map<int, bool>, chain: seq<int>, isImport: bool): seq<int> {
    if chain == [] then []
    else
      (if chain[0] in policies && policies[chain[0]] == isImport then [chain[0]] else [])
      + Directed(policies, chain[1..], isImport)
  }

  /** A chain as it is written back after being read: imports first, then exports. */
  function Rewritten(policies: map<int, bool>, chain: seq<int>): seq<int> {
    Directed(policies, chain, true) + Directed(policies, chain, false)
  }

  /** A template as it is read, chains included. */
  function ReadTemplate(s: Tables, id: int): Template<int>
    requires id in s.templates
  {
    var chain := if id in s.templateChains then s.templateChains[id] else [];
    s.templates[id].(importPolicies := Directed(s.policies, chain, true),
                     exportPolicies := Directed(s.policies, chain, false))
  }

  predicate AllDirected(policies: map<int, bool>, ids: seq<int>, isImport: bool) {
    forall k | 0 <= k < |ids| :: ids[k] in policies && policies[ids[k]] == isImport
  }

  /** The chain check of both editors. */
  predicate ChainsFit(policies: map<int, bool>, imports: seq<int>, exports: seq<int>) {
    AllDirected(policies, imports, true) && AllDirected(policies, exports, false)
  }

  predicate NoRepeats(ids: seq<int>) { forall i, j | 0 <= i < j < |ids| :: ids[i] != ids[j] }

  lemma {:induction false} DirectedConcat(policies: map<int, bool>, a: seq<int>, b: seq<int>, isImport: bool)
    ensures Directed(policies, a + b, isImport) == Directed(policies, a, isImport) + Directed(policies, b, isImport)
  {
    if a == [] {
      assert a + b == b;
    } else {
      assert (a + b)[0] == a[0] && (a + b)[1..] == a[1..] + b;
      DirectedConcat(policies, a[1..], b, isImport);
    }
  }

  lemma {:induction false} DirectedAll(policies: map<int, bool>, ids: seq<int>, isImport: bool)
    requires AllDirected(policies, ids, isImport)
    ensures Directed(policies, ids, isImport) == ids && Directed(policies, ids, !isImport) == []
  {
    if ids != [] {
      forall k | 0 <= k < |ids[1..]|
        ensures ids[1..][k] in policies && policies[ids[1..][k]] == isImport
      {
        assert ids[1..][k] == ids[k + 1];
      }
      DirectedAll(policies, ids[1..], isImport);
    }
  }

  /** Chains that fit their directions are read back as they were written. */
  lemma {:induction false} ChainRoundTrip(policies: map<int, bool>, imports: seq<int>, exports: seq<int>)
    requires ChainsFit(policies, imports, exports)
    ensures Directed(policies, imports + exports, true) == imports
    ensures Directed(policies, imports + exports, false) == exports
    ensures Rewritten(policies, imports + exports) == imports + exports
  {
    DirectedConcat(policies, imports, exports, true);
    DirectedConcat(policies, imports, exports, false);
    DirectedAll(policies, imports, true);
    DirectedAll(policies, exports, false);
  }

  lemma {:induction false} DirectedOne(policies: map<int, bool>, id: int)
    ensures forall isImport :: Directed(policies, [id], isImport) == if id in policies && policies[id] == isImport then [id] else []
  {
    assert [id][1..] == [];
  }

  /** What every save relies on and keeps: templates are normal and their chains sorted, and a
      linked peer is a copy of its template. */
  ghost predicate InStep(s: Tables) {
    && (forall id | id in s.templates ::
          && s.templates[id].id == id != 0 && IsNormal(s.templates[id])
          && id in s.templateChains
          && SortedChain(s.policies, s.templateChains[id]))
    && (forall id | id in s.peers ::
          && s.peers[id].id == id
          && (s.peers[id].IsIBGP() ==> !s.peers[id].drained)
          && (s.peers[id].templateID.Some? ==> LinkedCopy(s, id)))
  }

  ghost predicate SortedChain(policies: map<int, bool>, chain: seq<int>) {
    && Rewritten(policies, chain) == chain && forall k | 0 <= k < |chain| :: chain[k] in policies
  }

  ghost predicate LinkedCopy(s: Tables, id: int)
    requires id in s.peers && s.peers[id].templateID.Some?
  {
    var t := s.peers[id].templateID.value;
    && t in s.templates && t in s.templateChains && id in s.peerChains
    && Follows(s.peers[id], s.templates[t])
    && s.peerChains[id] == s.templateChains[t]
  }

  // ----- what each operation does; None leaves the tables alone

  /** A row never holds its chains: they have their own table. */
  function TemplateRow(t: Template<int>): Template<int> { t.(importPolicies := [], exportPolicies := []) }

  function PeerRow(p: Peer<int>): Peer<int> { p.(importPolicies := [], exportPolicies := [], templateName := "") }

  /** Only the governed columns and the link; a peer that becomes internal stops draining. */
  function ShapeRow(p: Peer<int>): Peer<int> {
    p.(drained := !p.IsIBGP() && p.drained, importPolicies := [], exportPolicies := [], templateName := "")
  }

  function LinkedTo(peers: map<int, Peer<int>>, t: int): set<int> {
    set id | id in peers && peers[id].templateID == Some(t)
  }

  predicate FormFits(s: Tables, t: Template<int>, imports: seq<int>, exports: seq<int>) {
    ShapeInRange(ApplyTo(t, Blank())) && ChainsFit(s.policies, imports, exports)
    && NoRepeats(imports + exports)
  }

  function CreateTemplate(s: Tables, id: int, form: Template<int>, imports: seq<int>, exports: seq<int>): Option<Tables> {
    var t := NormalTemplate(form.(id := id));
    if !FormFits(s, t, imports, exports) then None
    else Some(Inserted(s, t, imports, exports))
  }

  function Inserted(s: Tables, t: Template<int>, imports: seq<int>, exports: seq<int>): Tables {
    s.(templates := s.templates[t.id := TemplateRow(t)], templateChains := s.templateChains[t.id := imports + exports])
  }

  /** Saving a template rewrites every linked peer. */
  function UpdateTemplate(s: Tables, id: int, form: Template<int>, imports: seq<int>, exports: seq<int>): Option<Tables> {
    var t := NormalTemplate(form.(id := id));
    if id !in s.templates || !FormFits(s, t, imports, exports) then None
    else Some(RewriteLinked(s, t, imports, exports))
  }

  /** What a template save makes of a linked peer's row. */
  function Reshaped(t: Template<int>): Peer<int> -> Peer<int> {
    (p: Peer<int>) => ShapeRow(ApplyTo(t, p))
  }

  function RewriteRows<K, P>(rows: map<K, P>, ids: set<K>, rewrite: P -> P): map<K, P> {
    map p | p in rows :: if p in ids then rewrite(rows[p]) else rows[p]
  }

  function RewriteChains<K, C>(chains: map<K, C>, ids: set<K>, chain: C): map<K, C> {
    map p | p in chains.Keys + ids :: if p in ids then chain else chains[p]
  }

  function RewriteLinked(s: Tables, t: Template<int>, imports: seq<int>, exports: seq<int>): Tables {
    RewriteWith(s, TemplateRow(t), Reshaped(t), imports + exports)
  }

  function RewriteWith(s: Tables, t: Template<int>, rewrite: Peer<int> -> Peer<int>, chain: seq<int>): Tables {
    var linked := LinkedTo(s.peers, t.id);
    s.(templates := s.templates[t.id := t], templateChains := s.templateChains[t.id := chain],
       peers := RewriteRows(s.peers, linked, rewrite), peerChains := RewriteChains(s.peerChains, linked, chain))
  }

  function Linked(s: Tables, t: int, p: int): Tables
    requires t in s.templates && p in s.peers
  {
    var shape := ReadTemplate(s, t);
    s.(peers := s.peers[p := ShapeRow(ApplyTo(shape, s.peers[p].(overridesImportLimit := false)))],
       peerChains := s.peerChains[p := shape.importPolicies + shape.exportPolicies])
  }

  function Detached(s: Tables, p: int): Tables
    requires p in s.peers
  {
    s.(peers := s.peers[p := s.peers[p].(templateID := None, overridesImportLimit := false)])
  }

  /** Links every peer to a template, or with template 0 detaches them: all of them or none. */
  function Attach(s: Tables, peers: seq<int>, t: int): Option<Tables>
    decreases |peers|
  {
    if t != 0 && t !in s.templates then None
    else if peers == [] then Some(s)
    else if peers[0] !in s.peers then None
    else Attach(if t == 0 then Detached(s, peers[0]) else Linked(s, t, peers[0]), peers[1..], t)
  }

  function DeleteTemplate(s: Tables, id: int): Option<Tables> {
    if id !in s.templates || LinkedTo(s.peers, id) != {} then None
    else Some(s.(templates := s.templates - {id}, templateChains := s.templateChains - {id}))
  }

  /** The posted form: a blank password leaves the stored one alone. */
  function Posted(s: Tables, id: int, form: Peer<int>): Peer<int> {
    form.(id := id, password := if form.password == "" && id in s.peers then s.peers[id].password else form.password)
  }

  /** The template wins over the posted fields and chains, before anything is checked. */
  function SavePeer(s: Tables, id: int, form: Peer<int>, imports: seq<int>, exports: seq<int>): Option<Tables> {
    var p := Posted(s, id, form);
    if p.templateID.Some? then
      if p.templateID.value !in s.templates then None
      else
        var t := ReadTemplate(s, p.templateID.value);
        StorePeer(s, NormalPeer(ApplyTo(t, p)), t.importPolicies, t.exportPolicies)
    else StorePeer(s, NormalPeer(p), imports, exports)
  }

  function StorePeer(s: Tables, p: Peer<int>, imports: seq<int>, exports: seq<int>): Option<Tables> {
    if !ShapeInRange(p) || !ChainsFit(s.policies, imports, exports) || !NoRepeats(imports + exports) then None
    else Some(s.(peers := s.peers[p.id := PeerRow(p)], peerChains := s.peerChains[p.id := imports + exports]))
  }

  function DeletePeer(s: Tables, id: int): Option<Tables> {
    if id !in s.peers then None else Some(s.(peers := s.peers - {id}, peerChains := s.peerChains - {id}))
  }

  function SetEnabled(s: Tables, id: int, enabled: bool): Option<Tables> {
    if id !in s.peers then None else Some(s.(peers := s.peers[id := s.peers[id].(enabled := enabled)]))
  }

  predicate PolicyUsed(s: Tables, id: int) {
    || (exists t | t in s.templateChains :: id in s.templateChains[t])
    || (exists p | p in s.peerChains :: id in s.peerChains[p])
  }

  /** An existing policy keeps its direction whatever the form says. */
  function SavePolicy(s: Tables, id: int, isImport: bool): Option<Tables> {
    if id in s.policies then Some(s) else Some(s.(policies := s.policies[id := isImport]))
  }

  function DeletePolicy(s: Tables, id: int): Option<Tables> {
    if id !in s.policies || PolicyUsed(s, id) then None else Some(s.(policies := s.policies - {id}))
  }

  datatype Op =
    | OpCreateTemplate(id: int, form: Template<int>, imports: seq<int>, exports: seq<int>)
    | OpUpdateTemplate(id: int, form: Template<int>, imports: seq<int>, exports: seq<int>)
    | OpAttach(peers: seq<int>, template: int)
    | OpDeleteTemplate(id: int)
    | OpSavePeer(id: int, peer: Peer<int>, imports: seq<int>, exports: seq<int>)
    | OpDeletePeer(id: int)
    | OpSetEnabled(id: int, enabled: bool)
    | OpSavePolicy(id: int, isImport: bool)
    | OpDeletePolicy(id: int)

  function Do(s: Tables, op: Op): Option<Tables> {
    match op
    case OpCreateTemplate(id, form, imports, exports) => CreateTemplate(s, id, form, imports, exports)
    case OpUpdateTemplate(id, form, imports, exports) => UpdateTemplate(s, id, form, imports, exports)
    case OpAttach(peers, t) => Attach(s, peers, t)
    case OpDeleteTemplate(id) => DeleteTemplate(s, id)
    case OpSavePeer(id, form, imports, exports) => SavePeer(s, id, form, imports, exports)
    case OpDeletePeer(id) => DeletePeer(s, id)
    case OpSetEnabled(id, enabled) => SetEnabled(s, id, enabled)
    case OpSavePolicy(id, isImport) => SavePolicy(s, id, isImport)
    case OpDeletePolicy(id) => DeletePolicy(s, id)
  }

  /** A new row gets an id no row has, and never 0. */
  predicate FreshID(s: Tables, op: Op) {
    match op
    case OpCreateTemplate(id, _, _, _) => id != 0 && id !in s.templates
    case _ => true
  }

  /** A refused operation changes nothing. */
  function Perform(s: Tables, op: Op): Tables {
    match Do(s, op)
    case Some(s') => s'
    case None => s
  }

  // ----- every operation keeps them in step

  lemma {:induction false} InsertKeeps(s: Tables, t: Template<int>, imports: seq<int>, exports: seq<int>)
    requires InStep(s) && t.id != 0 && t.id !in s.templates && IsNormal(t) && ChainsFit(s.policies, imports, exports)
    ensures InStep(Inserted(s, t, imports, exports))
  {
    var s' := Inserted(s, t, imports, exports);
    ChainRoundTrip(s.policies, imports, exports);
    FollowsRow(t, Blank());
    forall p | p in s'.peers && s'.peers[p].templateID.Some?
      ensures LinkedCopy(s', p)
    {
      assert LinkedCopy(s, p);
    }
  }

  lemma {:induction false} ShapeRowFollows(t: Template<int>, p: Peer<int>)
    requires Follows(p, t)
    ensures var q := ShapeRow(p);
      Follows(q, t) && q.templateID == p.templateID && q.id == p.id && (q.IsIBGP() ==> !q.drained)
  {
  }

  lemma {:induction false} PeerRowFollows(t: Template<int>, p: Peer<int>)
    requires Follows(p, t)
    ensures var q := PeerRow(p);
      Follows(q, t) && q.templateID == p.templateID && q.id == p.id && q.role == p.role && q.drained == p.drained
  {
  }

  lemma {:induction false} FollowsRow(t: Template<int>, p: Peer<int>)
    ensures Follows(p, TemplateRow(t)) == Follows(p, t) && IsNormal(TemplateRow(t)) == IsNormal(t)
    ensures TemplateRow(t).id == t.id
  {
  }

  /** A rewrite that makes every row it touches a copy of the template. */
  ghost predicate Copies(rewrite: Peer<int> -> Peer<int>, t: Template<int>) {
    forall p ::
      && Follows(rewrite(p), t) && rewrite(p).id == p.id && (rewrite(p).IsIBGP() ==> !rewrite(p).drained)
      && rewrite(p).templateID == Some(t.id)
  }

  lemma {:induction false} ReshapedCopies(t: Template<int>)
    requires t.id != 0
    ensures Copies(Reshaped(t), TemplateRow(t))
  {
    forall p
      ensures Follows(Reshaped(t)(p), TemplateRow(t)) && Reshaped(t)(p).id == p.id
      ensures Reshaped(t)(p).IsIBGP() ==> !Reshaped(t)(p).drained
      ensures Reshaped(t)(p).templateID == Some(t.id)
    {
      ApplyToFollows(t, p);
      ShapeRowFollows(t, ApplyTo(t, p));
      FollowsRow(t, ShapeRow(ApplyTo(t, p)));
    }
  }

  lemma {:induction false} RewriteKeeps(s: Tables, t: Template<int>, rewrite: Peer<int> -> Peer<int>, chain: seq<int>)
    requires InStep(s) && t.id in s.templates && IsNormal(t) && SortedChain(s.policies, chain) && Copies(rewrite, t)
    ensures InStep(RewriteWith(s, t, rewrite, chain))
  {
    var s' := RewriteWith(s, t, rewrite, chain);
    forall p | p in s'.peers && s'.peers[p].templateID.Some?
      ensures LinkedCopy(s', p)
    {
      if s.peers[p].templateID == Some(t.id) {
        assert p in LinkedTo(s.peers, t.id);
      } else {
        assert LinkedCopy(s, p);
      }
    }
  }

  lemma {:induction false} UpdateKeeps(s: Tables, t: Template<int>, imports: seq<int>, exports: seq<int>)
    requires InStep(s) && t.id in s.templates && IsNormal(t) && ChainsFit(s.policies, imports, exports)
    ensures InStep(RewriteLinked(s, t, imports, exports))
  {
    ChainRoundTrip(s.policies, imports, exports);
    FollowsRow(t, Blank());
    ReshapedCopies(t);
    RewriteKeeps(s, TemplateRow(t), Reshaped(t), imports + exports);
  }

  lemma {:induction false} LinkKeeps(s: Tables, t: int, p: int)
    requires InStep(s) && t in s.templates && p in s.peers
    ensures InStep(Linked(s, t, p))
  {
    var s' := Linked(s, t, p);
    var shape := ReadTemplate(s, t);
    assert shape.importPolicies + shape.exportPolicies == s.templateChains[t];
    var p' := s.peers[p].(overridesImportLimit := false);
    ReadFollows(s, t, ApplyTo(shape, p'));
    ApplyToFollows(shape, p');
    ShapeRowFollows(shape, ApplyTo(shape, p'));
    ReadFollows(s, t, s'.peers[p]);
    forall q | q in s'.peers && s'.peers[q].templateID.Some?
      ensures LinkedCopy(s', q)
    {
      if q != p { assert LinkedCopy(s, q); }
    }
  }

  /** A template as read has the shape of its row. */
  lemma {:induction false} ReadFollows(s: Tables, t: int, p: Peer<int>)
    requires t in s.templates
    ensures Follows(p, ReadTemplate(s, t)) == Follows(p, s.templates[t])
    ensures IsNormal(ReadTemplate(s, t)) == IsNormal(s.templates[t]) && ReadTemplate(s, t).id == s.templates[t].id
  {
    var read := ReadTemplate(s, t);
    ChainsDoNotMatter(s.templates[t], read.importPolicies, read.exportPolicies, p);
  }

  lemma {:induction false} ChainsDoNotMatter(t: Template<int>, imports: seq<int>, exports: seq<int>, p: Peer<int>)
    ensures var read := t.(importPolicies := imports, exportPolicies := exports);
      Follows(p, read) == Follows(p, t) && IsNormal(read) == IsNormal(t) && read.id == t.id
  {
  }

  lemma {:induction false} DetachKeeps(s: Tables, p: int)
    requires InStep(s) && p in s.peers
    ensures InStep(Detached(s, p))
  {
    var s' := Detached(s, p);
    forall q | q in s'.peers && s'.peers[q].templateID.Some?
      ensures LinkedCopy(s', q)
    {
      assert LinkedCopy(s, q);
    }
  }

  lemma {:induction false} AttachKeeps(s: Tables, peers: seq<int>, t: int)
    requires InStep(s) && Attach(s, peers, t).Some?
    ensures InStep(Attach(s, peers, t).value)
    decreases |peers|
  {
    if peers != [] {
      if t == 0 {
        DetachKeeps(s, peers[0]);
        AttachKeeps(Detached(s, peers[0]), peers[1..], t);
      } else {
        LinkKeeps(s, t, peers[0]);
        AttachKeeps(Linked(s, t, peers[0]), peers[1..], t);
      }
    }
  }

  /** The row a linked peer's form ends up as. */
  lemma {:induction false} LinkedSave(s: Tables, f: Peer<int>)
    requires InStep(s) && f.templateID.Some? && f.templateID.value in s.templates
    ensures var q := NormalPeer(ApplyTo(ReadTemplate(s, f.templateID.value), f));
      && q.id == f.id && PeerRow(q).id == f.id && PeerRow(q).templateID == f.templateID
      && Follows(PeerRow(q), s.templates[f.templateID.value]) && (PeerRow(q).IsIBGP() ==> !PeerRow(q).drained)
  {
    var tid := f.templateID.value;
    var t := ReadTemplate(s, tid);
    var q := NormalPeer(ApplyTo(t, f));
    ReadFollows(s, tid, PeerRow(q));
    ApplyToFollows(t, f);
    NormalPeerFollows(t, ApplyTo(t, f));
    PeerRowFollows(t, q);
  }

  lemma {:induction false} StoreKeeps(s: Tables, p: Peer<int>, imports: seq<int>, exports: seq<int>)
    requires InStep(s) && StorePeer(s, p, imports, exports).Some?
    requires PeerRow(p).id == p.id && (PeerRow(p).IsIBGP() ==> !PeerRow(p).drained)
    requires PeerRow(p).templateID.Some? ==>
               && PeerRow(p).templateID.value in s.templates
               && PeerRow(p).templateID.value in s.templateChains
               && Follows(PeerRow(p), s.templates[PeerRow(p).templateID.value])
               && s.templateChains[PeerRow(p).templateID.value] == imports + exports
    ensures InStep(StorePeer(s, p, imports, exports).value)
  {
    var s' := StorePeer(s, p, imports, exports).value;
    forall q | q in s'.peers && s'.peers[q].templateID.Some?
      ensures LinkedCopy(s', q)
    {
      if q != p.id { assert LinkedCopy(s, q); }
    }
  }

  lemma {:induction false} SavePeerKeeps(s: Tables, id: int, form: Peer<int>, imports: seq<int>, exports: seq<int>)
    requires InStep(s) && SavePeer(s, id, form, imports, exports).Some?
    ensures InStep(SavePeer(s, id, form, imports, exports).value)
  {
    var f := Posted(s, id, form);
    if f.templateID.Some? {
      var t := ReadTemplate(s, f.templateID.value);
      LinkedSave(s, f);
      StoreKeeps(s, NormalPeer(ApplyTo(t, f)), t.importPolicies, t.exportPolicies);
    } else {
      UnlinkedSave(f);
      StoreKeeps(s, NormalPeer(f), imports, exports);
    }
  }

  lemma {:induction false} UnlinkedSave(p: Peer<int>)
    requires p.templateID.None?
    ensures var q := PeerRow(NormalPeer(p));
      q.id == p.id && q.templateID.None? && NormalPeer(p).id == p.id && (q.IsIBGP() ==> !q.drained)
  {
  }

  lemma {:induction false} DirectedSame(before: map<int, bool>, after: map<int, bool>, chain: seq<int>, isImport: bool)
    requires forall k | 0 <= k < |chain| :: chain[k] in before && chain[k] in after && after[chain[k]] == before[chain[k]]
    ensures Directed(after, chain, isImport) == Directed(before, chain, isImport)
  {
    if chain != [] {
      forall k | 0 <= k < |chain[1..]|
        ensures chain[1..][k] in before && chain[1..][k] in after && after[chain[1..][k]] == before[chain[1..][k]]
      {
        assert chain[1..][k] == chain[k + 1];
      }
      DirectedSame(before, after, chain[1..], isImport);
    }
  }

  lemma {:induction false} PoliciesKeep(s: Tables, policies: map<int, bool>)
    requires InStep(s)
    requires forall t, k | t in s.templateChains && 0 <= k < |s.templateChains[t]| && s.templateChains[t][k] in s.policies ::
      s.templateChains[t][k] in policies && policies[s.templateChains[t][k]] == s.policies[s.templateChains[t][k]]
    ensures InStep(s.(policies := policies))
  {
    var s' := s.(policies := policies);
    forall t | t in s.templates
      ensures SortedChain(policies, s.templateChains[t])
    {
      DirectedSame(s.policies, policies, s.templateChains[t], true);
      DirectedSame(s.policies, policies, s.templateChains[t], false);
    }
    forall q | q in s'.peers && s'.peers[q].templateID.Some?
      ensures LinkedCopy(s', q)
    {
      assert LinkedCopy(s, q);
    }
  }

  lemma {:induction false} DeleteTemplateKeeps(s: Tables, id: int)
    requires InStep(s) && DeleteTemplate(s, id).Some?
    ensures InStep(DeleteTemplate(s, id).value)
  {
    var s' := DeleteTemplate(s, id).value;
    forall q | q in s'.peers && s'.peers[q].templateID.Some?
      ensures LinkedCopy(s', q)
    {
      assert LinkedCopy(s, q) && q !in LinkedTo(s.peers, id);
    }
  }

  lemma {:induction false} DeletePeerKeeps(s: Tables, id: int)
    requires InStep(s) && id in s.peers
    ensures InStep(DeletePeer(s, id).value)
  {
    var s' := DeletePeer(s, id).value;
    forall q | q in s'.peers && s'.peers[q].templateID.Some?
      ensures LinkedCopy(s', q)
    {
      assert LinkedCopy(s, q);
    }
  }

  lemma {:induction false} SetEnabledKeeps(s: Tables, id: int, enabled: bool)
    requires InStep(s) && id in s.peers
    ensures InStep(SetEnabled(s, id, enabled).value)
  {
    var s' := SetEnabled(s, id, enabled).value;
    forall q | q in s'.peers && s'.peers[q].templateID.Some?
      ensures LinkedCopy(s', q)
    {
      assert LinkedCopy(s, q);
    }
  }

  lemma {:induction false} OpKeeps(s: Tables, op: Op)
    requires InStep(s) && FreshID(s, op)
    ensures InStep(Perform(s, op))
  {
    if Do(s, op).Some? {
      match op
      case OpCreateTemplate(id, form, imports, exports) =>
        NormalTemplateIsNormal(form.(id := id));
        InsertKeeps(s, NormalTemplate(form.(id := id)), imports, exports);
      case OpUpdateTemplate(id, form, imports, exports) =>
        UpdateKeeps(s, NormalTemplate(form.(id := id)), imports, exports) by { NormalTemplateIsNormal(form.(id := id)); }
      case OpAttach(peers, t) => AttachKeeps(s, peers, t);
      case OpSavePeer(id, form, imports, exports) => SavePeerKeeps(s, id, form, imports, exports);
      case OpSavePolicy(id, isImport) => PoliciesKeep(s, SavePolicy(s, id, isImport).value.policies);
      case OpDeletePolicy(id) => PoliciesKeep(s, s.policies - {id});
      case OpDeleteTemplate(id) => DeleteTemplateKeeps(s, id);
      case OpDeletePeer(id) => DeletePeerKeeps(s, id);
      case OpSetEnabled(id, enabled) => SetEnabledKeeps(s, id, enabled);
    }
  }

  function After(s: Tables, run: seq<Op>): Tables {
    if run == [] then s else Perform(After(s, run[..|run| - 1]), run[|run| - 1])
  }

  function EmptyTables(): Tables { Tables(map[], map[], map[], map[], map[]) }

  ghost predicate FreshRun(s: Tables, run: seq<Op>) {
    forall k | 0 <= k < |run| :: FreshID(After(s, run[..k]), run[k])
  }

  /** Over every run from empty tables: linked peers equal their templates, chains and all, an
      internal peer is never drained, and a policy keeps its direction. */
  lemma {:induction false} AlwaysInStep(run: seq<Op>)
    requires FreshRun(EmptyTables(), run)
    ensures InStep(After(EmptyTables(), run))
  {
    var s := EmptyTables();
    if run != [] {
      var r := run[..|run| - 1];
      forall k | 0 <= k < |r|
        ensures FreshID(After(s, r[..k]), r[k])
      {
        assert r[..k] == run[..k] && r[k] == run[k];
      }
      AlwaysInStep(r);
      assert FreshID(After(s, run[..|run| - 1]), run[|run| - 1]);
      OpKeeps(After(s, r), run[|run| - 1]);
    }
  }

  lemma {:induction false} DirectionNeverChanges(s: Tables, op: Op, id: int)
    requires id in s.policies && id in Perform(s, op).policies
    ensures Perform(s, op).policies[id] == s.policies[id]
  {
    if op.OpAttach? && Do(s, op).Some? { AttachKeepsPolicies(s, op.peers, op.template); }
  }

  lemma {:induction false} AttachKeepsPolicies(s: Tables, peers: seq<int>, t: int)
    requires Attach(s, peers, t).Some?
    ensures Attach(s, peers, t).value.policies == s.policies
    decreases |peers|
  {
    if peers != [] { AttachKeepsPolicies(if t == 0 then Detached(s, peers[0]) else Linked(s, t, peers[0]), peers[1..], t); }
  }

  // ----- the database

  /** Rewrites the rows of the linked peers one by one. */
  method RewriteEachRow<K(==), P>(peers: map<K, P>, linked: set<K>, rewrite: P -> P) returns (rows: map<K, P>)
    requires linked <= peers.Keys
    ensures rows == RewriteRows(peers, linked, rewrite)
  {
    var todo := linked;
    ghost var done := {};
    rows := peers;
    while todo != {}
      invariant todo <= linked && forall p | p in linked :: p in todo || p in done
      invariant done <= linked
      invariant rows.Keys == peers.Keys
      invariant forall p | p in done :: rows[p] == rewrite(peers[p])
      invariant forall p | p in rows && p !in done :: rows[p] == peers[p]
      decreases |todo|
    {
      var p :| p in todo;
      todo, done := todo - {p}, done + {p};
      rows := rows[p := rewrite(peers[p])];
    }
    assert rows == RewriteRows(peers, linked, rewrite);
  }

  /** And their chains. */
  method RewriteEachChain<K(==), C>(chains: map<K, C>, linked: set<K>, chain: C) returns (rows: map<K, C>)
    ensures rows == RewriteChains(chains, linked, chain)
  {
    var todo := linked;
    ghost var done := {};
    rows := chains;
    while todo != {}
      invariant todo <= linked && forall p | p in linked :: p in todo || p in done
      invariant done <= linked
      invariant forall p :: p in rows <==> p in chains || p in done
      invariant forall p | p in done :: rows[p] == chain
      invariant forall p | p in rows && p !in done :: rows[p] == chains[p]
      decreases |todo|
    {
      var p :| p in todo;
      todo, done := todo - {p}, done + {p};
      rows := rows[p := chain];
    }
    assert rows == RewriteChains(chains, linked, chain);
  }

  /** The tables, and each operation as one transaction: it works on copies and stores them when
      nothing failed. */
  class Database {
    var policies: map<int, bool>
    var templates: map<int, Template<int>>
    var peers: map<int, Peer<int>>
    var templateChains: map<int, seq<int>>
    var peerChains: map<int, seq<int>>

    function State(): Tables
      reads this
    {
      Tables(policies, templates, peers, templateChains, peerChains)
    }

    constructor ()
      ensures State() == EmptyTables()
    {
      policies, templates, peers, templateChains, peerChains := map[], map[], map[], map[], map[];
    }

    /** Rewrites one chain: a policy can be in it only once. */
    method ReplaceChain(chains: map<int, seq<int>>, id: int, imports: seq<int>, exports: seq<int>)
      returns (ok: bool, chains': map<int, seq<int>>)
      ensures ok <==> NoRepeats(imports + exports)
      ensures chains' == if ok then chains[id := imports + exports] else chains
    {
      var rows, all, k := [], imports + exports, 0;
      while k < |all|
        invariant 0 <= k <= |all| && rows == all[..k] && NoRepeats(rows)
      {
        if all[k] in rows {
          var i :| 0 <= i < k && rows[i] == all[k];
          assert all[i] == all[k];
          return false, chains;
        }
        rows := rows + [all[k]];
        k := k + 1;
      }
      assert rows == all;
      return true, chains[id := rows];
    }

    /** Reads a chain and splits it by direction. */
    method ChainFor(chain: seq<int>) returns (imports: seq<int>, exports: seq<int>)
      ensures imports == Directed(policies, chain, true) && exports == Directed(policies, chain, false)
    {
      imports, exports := [], [];
      for k := 0 to |chain|
        invariant imports == Directed(policies, chain[..k], true)
        invariant exports == Directed(policies, chain[..k], false)
      {
        assert chain[..k + 1] == chain[..k] + [chain[k]];
        DirectedConcat(policies, chain[..k], [chain[k]], true);
        DirectedConcat(policies, chain[..k], [chain[k]], false);
        DirectedOne(policies, chain[k]);
        if chain[k] in policies {
          if policies[chain[k]] { imports := imports + [chain[k]]; } else { exports := exports + [chain[k]]; }
        }
      }
      assert chain[..|chain|] == chain;
    }

    method CheckChains(imports: seq<int>, exports: seq<int>) returns (ok: bool)
      ensures ok == ChainsFit(policies, imports, exports)
    {
      for k := 0 to |imports|
        invariant AllDirected(policies, imports[..k], true)
      {
        if imports[k] !in policies || !policies[imports[k]] { return false; }
      }
      for k := 0 to |exports|
        invariant AllDirected(policies, exports[..k], false)
      {
        if exports[k] !in policies || policies[exports[k]] { return false; }
      }
      return true;
    }

    method GetPeerTemplate(id: int) returns (t: Option<Template<int>>)
      ensures t == if id in templates then Some(ReadTemplate(State(), id)) else None
    {
      if id !in templates { return None; }
      var imports, exports := ChainFor(if id in templateChains then templateChains[id] else []);
      return Some(templates[id].(importPolicies := imports, exportPolicies := exports));
    }

    /** Saves the template, then rewrites every linked peer in the same transaction. */
    method UpdatePeerTemplate(t: Template<int>, imports: seq<int>, exports: seq<int>) returns (ok: bool)
      modifies this
      ensures ok <==> t.id in old(templates) && NoRepeats(imports + exports)
      ensures State() == if ok then RewriteLinked(old(State()), t, imports, exports) else old(State())
    {
      if t.id !in templates { return false; }
      var chains;
      ok, chains := ReplaceChain(templateChains, t.id, imports, exports);
      if !ok { return; }
      var linked := LinkedTo(peers, t.id);
      var rows := RewriteEachRow(peers, linked, Reshaped(t));
      var rowChains := RewriteEachChain(peerChains, linked, imports + exports);
      templates := templates[t.id := TemplateRow(t)];
      templateChains, peers, peerChains := chains, rows, rowChains;
    }

    /** Links or detaches a selection of peers: every one of them, or on the first that is gone,
        none. */
    method AttachPeers(ids: seq<int>, template: int) returns (ok: bool)
      modifies this
      ensures ok <==> Attach(old(State()), ids, template).Some?
      ensures State() == Perform(old(State()), OpAttach(ids, template))
    {
      var t := None;
      if template != 0 {
        t := GetPeerTemplate(template);
        if t.None? { return false; }
      }
      var rows, rowChains, k := peers, peerChains, 0;
      while k < |ids|
        invariant 0 <= k <= |ids|
        invariant Attach(State().(peers := rows, peerChains := rowChains), ids[k..], template) == Attach(State(), ids, template)
      {
        assert ids[k..][0] == ids[k] && ids[k..][1..] == ids[k + 1..];
        if ids[k] !in rows { return false; }
        var p := rows[ids[k]];
        if template == 0 {
          rows := rows[ids[k] := p.(templateID := None, overridesImportLimit := false)];
        } else {
          rows := rows[ids[k] := ShapeRow(ApplyTo(t.value, p.(overridesImportLimit := false)))];
          rowChains := rowChains[ids[k] := t.value.importPolicies + t.value.exportPolicies];
        }
        k := k + 1;
      }
      assert ids[k..] == [];
      peers, peerChains := rows, rowChains;
      return true;
    }

    /** The template form: normalise, check, and create or update. */
    method SaveTemplate(isNew: bool, id: int, form: Template<int>, imports: seq<int>, exports: seq<int>) returns (ok: bool)
      requires isNew ==> id != 0 && id !in templates
      modifies this
      ensures State() == Perform(old(State()), if isNew then OpCreateTemplate(id, form, imports, exports)
                                               else OpUpdateTemplate(id, form, imports, exports))
    {
      var t := NormalTemplate(form.(id := id));
      NormalTemplateIsNormal(form.(id := id));
      var fits := CheckChains(imports, exports);
      if !fits || !ShapeInRange(ApplyTo(t, Blank())) { return false; }
      if isNew {
        var stored, chains := ReplaceChain(templateChains, id, imports, exports);
        if !stored { return false; }
        templates := templates[id := TemplateRow(t)];
        templateChains := chains;
        return true;
      }
      ok := UpdatePeerTemplate(t, imports, exports);
    }

    method DeletePeerTemplate(id: int) returns (ok: bool)
      modifies this
      ensures State() == Perform(old(State()), OpDeleteTemplate(id))
    {
      if id !in templates || LinkedTo(peers, id) != {} { return false; }
      templates := templates - {id};
      templateChains := templateChains - {id};
      return true;
    }

    method Post(id: int, form: Peer<int>) returns (p: Peer<int>)
      ensures p == Posted(State(), id, form)
    {
      var password := form.password;
      if password == "" && id in peers {
        password := peers[id].password;
      }
      return form.(id := id, password := password);
    }

    /** The peer form: a blank password keeps the stored one, and a linked peer takes its shape and its
        chains from the template, before anything is checked. */
    method SavePeer(id: int, form: Peer<int>, imports: seq<int>, exports: seq<int>) returns (ok: bool)
      modifies this
      ensures State() == Perform(old(State()), OpSavePeer(id, form, imports, exports))
    {
      var p := Post(id, form);
      var ins, outs := imports, exports;
      if p.templateID.Some? {
        var t := GetPeerTemplate(p.templateID.value);
        if t.None? { return false; }
        p := ApplyTo(t.value, p);
        ins, outs := t.value.importPolicies, t.value.exportPolicies;
      }
      p := NormalPeer(p);
      var fits := CheckChains(ins, outs);
      if !fits || !ShapeInRange(p) { return false; }
      var stored, chains := ReplaceChain(peerChains, p.id, ins, outs);
      if !stored { return false; }
      peers := peers[p.id := PeerRow(p)];
      peerChains := chains;
      return true;
    }

    method DeletePeer(id: int) returns (ok: bool)
      modifies this
      ensures State() == Perform(old(State()), OpDeletePeer(id))
    {
      if id !in peers { return false; }
      peers := peers - {id};
      peerChains := peerChains - {id};
      return true;
    }

    /** Refuses while a chain still holds the policy. */
    method DeletePolicy(id: int) returns (ok: bool)
      modifies this
      ensures State() == Perform(old(State()), OpDeletePolicy(id))
    {
      if id !in policies || (exists t | t in templateChains :: id in templateChains[t])
         || (exists p | p in peerChains :: id in peerChains[p]) {
        return false;
      }
      policies := policies - {id};
      return true;
    }
  }
}
