/** One namespace: the check over the rendered sections, and the look-up that guards every save.
    (internal/render/symbols.go, checkSymbols; internal/store/symbols.go, SymbolUses) */
module Symbols {
  import opened Options
  import opened Bird
  import opened Model
  import opened Compile
  import opened ImportMeaning
  import opened Sections
  import opened Scope

  // ----- the check

  const BIRD_SYMBOLS: set<string> := {"master4", "master6"}

  /** A declaration of a name that is BIRD's own, or declared before. */
  ghost predicate Taken(cfg: Config, k: nat)
    requires k < |cfg|
  {
    cfg[k].name == "master4" || cfg[k].name == "master6" || exists i | 0 <= i < k :: cfg[i].name == cfg[k].name
  }

  ghost predicate FirstTaken(cfg: Config, k: nat)
    requires k < |cfg|
  {
    Taken(cfg, k) && forall j: nat | j < k :: !Taken(cfg, j)
  }

  lemma {:induction false} DuplicateIsTaken(cfg: Config, n: nat)
    requires n <= |cfg| && forall j: nat | j < n :: !Taken(cfg, j)
    ensures match FirstDuplicate(cfg, n)
      case Some(name) => exists k: nat | k < |cfg| :: FirstTaken(cfg, k) && cfg[k].name == name
      case None => forall k: nat | k < |cfg| :: !Taken(cfg, k)
    decreases |cfg| - n
  {
    if n < |cfg| {
      if Taken(cfg, n) { assert FirstTaken(cfg, n); } else { DuplicateIsTaken(cfg, n + 1); }
    }
  }

  /** The names taken once these declarations have been read. */
  ghost predicate Remembers(seen: set<string>, cfg: Config) {
    forall name :: name in seen <==> name in BIRD_SYMBOLS || Declares(cfg, name)
  }

  ghost predicate Declares(cfg: Config, name: string) { exists d | d in cfg :: d.name == name }

  /** The scan at a declaration: taken already, or one name more. */
  lemma {:induction false} NextSymbol(all: Config, done: Config, d: Decl, seen: set<string>)
    requires done + [d] <= all && Remembers(seen, done)
    ensures FirstDuplicate(all, |done|) == if d.name in seen then Some(d.name) else FirstDuplicate(all, |done| + 1)
  {
    assert (done + [d])[|done|] == d;
    forall i | 0 <= i < |done|
      ensures all[i] == done[i]
    {
      assert (done + [d])[i] == done[i];
    }
    if Declares(done, d.name) {
      var e :| e in done && e.name == d.name;
      var i :| 0 <= i < |done| && done[i] == e;
      assert all[i].name == d.name;
    }
  }

  lemma {:induction false} RemembersMore(seen: set<string>, done: Config, d: Decl)
    requires Remembers(seen, done)
    ensures Remembers(seen + {d.name}, done + [d])
  {
    forall name
      ensures Declares(done + [d], name) <==> Declares(done, name) || d.name == name
    {
      assert d in done + [d] && forall e | e in done :: e in done + [d];
    }
  }

  /** Reads every declaration in file order, remembering the names already taken: the first one taken
      already is the clash. */
  method CheckSymbols(secs: seq<Section>) returns (clash: Option<string>)
    ensures clash == FirstDuplicate(Decls(secs), 0)
    ensures match clash
      case Some(name) => exists k: nat | k < |Decls(secs)| :: FirstTaken(Decls(secs), k) && Decls(secs)[k].name == name
      case None => forall k: nat | k < |Decls(secs)| :: !Taken(Decls(secs), k)
  {
    var seen := BIRD_SYMBOLS;
    ghost var all := Decls(secs);
    DuplicateIsTaken(all, 0);
    clash := None;
    for s := 0 to |secs|
      invariant clash.None? && Decls(secs[..s]) <= all
      invariant FirstDuplicate(all, 0) == FirstDuplicate(all, |Decls(secs[..s])|)
      invariant Remembers(seen, Decls(secs[..s]))
    {
      SectionsGrow(secs, s);
      clash, seen := CheckSection(secs[s].decls, seen, all, Decls(secs[..s]));
      if clash.Some? { return; }
    }
    assert secs[..|secs|] == secs;
  }

  /** One section of it: `before` has been read already. */
  method CheckSection(decls: seq<Decl>, seen: set<string>, ghost all: Config, ghost before: Config)
    returns (clash: Option<string>, seen': set<string>)
    requires before + decls <= all && Remembers(seen, before)
    ensures clash.Some? ==> clash == FirstDuplicate(all, |before|)
    ensures clash.None? ==> Remembers(seen', before + decls) && FirstDuplicate(all, |before|) == FirstDuplicate(all, |before + decls|)
  {
    seen' := seen;
    ghost var done := before;
    assert before + decls[..0] == before;
    for k := 0 to |decls|
      invariant done == before + decls[..k]
      invariant FirstDuplicate(all, |before|) == FirstDuplicate(all, |done|)
      invariant Remembers(seen', done)
    {
      SectionStep(before, decls, k);
      NextSymbol(all, done, decls[k], seen');
      RemembersMore(seen', done, decls[k]);
      if decls[k].name in seen' { return Some(decls[k].name), seen'; }
      seen' := seen' + {decls[k].name};
      done := done + [decls[k]];
    }
    assert decls[..|decls|] == decls;
    return None, seen';
  }

  lemma {:induction false} SectionStep(before: Config, decls: Config, k: nat)
    requires k < |decls|
    ensures before + decls[..k] + [decls[k]] == before + decls[..k + 1] <= before + decls
  {
    assert before + decls[..k + 1] == (before + decls)[..|before| + k + 1];
  }

  lemma {:induction false} SectionsGrow(secs: seq<Section>, s: nat)
    requires s < |secs|
    ensures Decls(secs[..s + 1]) == Decls(secs[..s]) + secs[s].decls <= Decls(secs)
  {
    assert secs[..s + 1][..s] == secs[..s];
    assert secs == secs[..s + 1] + secs[s + 1..];
    DeclsConcat(secs[..s + 1], secs[s + 1..]);
  }

  // ----- the look-up

  /** The name columns of the database: each table's names with their ids. */
  datatype NameTables = NameTables(
    peers: map<string, int>, templates: map<string, int>, prefixSets: map<string, int>, asSets: map<string, int>,
    communities: map<string, int>, servers: map<string, int>, stations: map<string, int>, policies: map<string, int>)
  {
    /** The tables whose rows each render a symbol of their name, in look-up order. */
    function Tables(): seq<(map<string, int>, string)> {
      [(peers, "peer"), (templates, "peer template"), (prefixSets, "prefix set"), (asSets, "AS set"),
       (communities, "community"), (servers, "RPKI server"), (stations, "BMP station")]
    }
  }

  datatype SymbolUse = SymbolUse(kind: string, id: int, name: string)

  const BUILTIN: set<string> :=
    {"LOCAL_ASN", "FROM_UPSTREAM", "FROM_IX", "FROM_CUSTOMER", "RPKI_INVALID", "BOGON_ASNS", "BOGON_ASNS_EXCEPT_PRIVATE",
     "rpki4", "rpki6", "device1", "direct1", "kernel4", "kernel6", "bfd1", "static_v4", "static_v6", "master4", "master6"}

  function Middle(name: string, prefix: string, suffix: string): Option<string> {
    if prefix <= name && |name| > |prefix| + |suffix| && name[|name| - |suffix|..] == suffix then
      Some(name[|prefix|..|name| - |suffix|])
    else None
  }

  function FirstSome(a: Option<string>, b: Option<string>): Option<string> { if a.Some? then a else b }

  /** imp_NAME_v4 and its kin. */
  function PolicyIn(name: string): Option<string> {
    FirstSome(FirstSome(Middle(name, "imp_", "_v4"), Middle(name, "imp_", "_v6")),
              FirstSome(Middle(name, "exp_", "_v4"), Middle(name, "exp_", "_v6")))
  }

  /** ebgp_in_NAME and its kin. */
  function PeerIn(name: string): Option<string> {
    FirstSome(FirstSome(Middle(name, "ebgp_in_", ""), Middle(name, "ebgp_out_", "")),
              FirstSome(Middle(name, "ibgp_in_", ""), Middle(name, "ibgp_out_", "")))
  }

  function SetIn(name: string): Option<string> { Middle(name, "originate_", "") }

  predicate Has(table: map<string, int>, name: Option<string>) { name.Some? && name.value in table }

  /** The name is one birdy builds from an object that exists. */
  predicate Derived(db: NameTables, name: string) {
    Has(db.policies, PolicyIn(name)) || Has(db.peers, PeerIn(name)) || Has(db.prefixSets, SetIn(name))
  }

  function TableUses(tables: seq<(map<string, int>, string)>, name: string): seq<SymbolUse> {
    if tables == [] then []
    else
      var t := tables[|tables| - 1];
      TableUses(tables[..|tables| - 1], name) + if name in t.0 then [SymbolUse(t.1, t.0[name], name)] else []
  }

  /** Everything that already renders a symbol of this name. */
  function Uses(db: NameTables, name: string): seq<SymbolUse> {
    (if name in BUILTIN then [SymbolUse("built-in", 0, name)] else [])
    + (if Derived(db, name) then [SymbolUse("built-in", 0, name)] else [])
    + TableUses(db.Tables(), name)
  }

  /** Looks each derived name up in its table. */
  method IsDerived(db: NameTables, name: string) returns (found: bool)
    ensures found == Derived(db, name)
  {
    var derived := [(PolicyIn(name), db.policies), (PeerIn(name), db.peers), (SetIn(name), db.prefixSets)];
    found := false;
    for k := 0 to |derived|
      invariant !found && forall j | 0 <= j < k :: !Has(derived[j].1, derived[j].0)
    {
      if Has(derived[k].1, derived[k].0) { return true; }
    }
    assert !Has(derived[0].1, derived[0].0) && !Has(derived[1].1, derived[1].0) && !Has(derived[2].1, derived[2].0);
  }

  method SymbolUses(db: NameTables, name: string) returns (out: seq<SymbolUse>)
    ensures out == Uses(db, name)
  {
    out := if name in BUILTIN then [SymbolUse("built-in", 0, name)] else [];
    var found := IsDerived(db, name);
    out := out + if found then [SymbolUse("built-in", 0, name)] else [];
    var rows := LookUp(db.Tables(), name);
    out := out + rows;
  }

  method LookUp(tables: seq<(map<string, int>, string)>, name: string) returns (out: seq<SymbolUse>)
    ensures out == TableUses(tables, name)
  {
    out := [];
    for k := 0 to |tables|
      invariant out == TableUses(tables[..k], name)
    {
      assert tables[..k + 1][..k] == tables[..k];
      if name in tables[k].0 { out := out + [SymbolUse(tables[k].1, tables[k].0[name], name)]; }
    }
    assert tables[..|tables|] == tables;
  }

  // ----- what the look-up finds

  lemma {:induction false} MiddleMeans(name: string, prefix: string, suffix: string, middle: string)
    ensures Middle(name, prefix, suffix) == Some(middle) <==> middle != "" && name == prefix + middle + suffix
  {
    if Middle(name, prefix, suffix) == Some(middle) {
      assert name == name[..|prefix|] + name[|prefix|..|name| - |suffix|] + name[|name| - |suffix|..];
    }
    if middle != "" && name == prefix + middle + suffix {
      assert name[..|prefix|] == prefix && name[|prefix|..|name| - |suffix|] == middle && name[|name| - |suffix|..] == suffix;
    }
  }

  /** The functions a policy is rendered as. */
  ghost predicate NamesPolicy(name: string, policy: string) {
    policy != "" && (name == "imp_" + policy + "_v4" || name == "imp_" + policy + "_v6"
                     || name == "exp_" + policy + "_v4" || name == "exp_" + policy + "_v6")
  }

  /** The filters of a peer. */
  ghost predicate NamesPeer(name: string, peer: string) {
    peer != "" && (name == "ebgp_in_" + peer || name == "ebgp_out_" + peer || name == "ibgp_in_" + peer || name == "ibgp_out_" + peer)
  }

  lemma {:induction false} PolicyInMeans(name: string, policy: string)
    ensures PolicyIn(name) == Some(policy) <==> NamesPolicy(name, policy)
  {
    MiddleMeans(name, "imp_", "_v4", policy);
    MiddleMeans(name, "imp_", "_v6", policy);
    MiddleMeans(name, "exp_", "_v4", policy);
    MiddleMeans(name, "exp_", "_v6", policy);
    if Middle(name, "imp_", "_v4").Some? { assert name[0] == 'i' && name[|name| - 3..] == "_v4" && name[|name| - 1] == '4'; }
    if Middle(name, "imp_", "_v6").Some? { assert name[0] == 'i' && name[|name| - 3..] == "_v6" && name[|name| - 1] == '6'; }
    if Middle(name, "exp_", "_v4").Some? { assert name[0] == 'e' && name[|name| - 3..] == "_v4" && name[|name| - 1] == '4'; }
    if Middle(name, "exp_", "_v6").Some? { assert name[0] == 'e' && name[|name| - 3..] == "_v6" && name[|name| - 1] == '6'; }
  }

  lemma {:induction false} PeerInMeans(name: string, peer: string)
    ensures PeerIn(name) == Some(peer) <==> NamesPeer(name, peer)
  {
    MiddleMeans(name, "ebgp_in_", "", peer);
    MiddleMeans(name, "ebgp_out_", "", peer);
    MiddleMeans(name, "ibgp_in_", "", peer);
    MiddleMeans(name, "ibgp_out_", "", peer);
    if Middle(name, "ebgp_in_", "").Some? { assert name[0] == 'e' && name[5] == 'i'; }
    if Middle(name, "ebgp_out_", "").Some? { assert name[0] == 'e' && name[5] == 'o'; }
    if Middle(name, "ibgp_in_", "").Some? { assert name[0] == 'i' && name[5] == 'i'; }
    if Middle(name, "ibgp_out_", "").Some? { assert name[0] == 'i' && name[5] == 'o'; }
  }

  /** The names taken because of an object of another name: the functions of policies, the filters of
      peers, and what prefix sets are originated by. */
  ghost predicate BuiltFromExisting(db: NameTables, name: string) {
    || (exists policy | policy in db.policies :: NamesPolicy(name, policy))
    || (exists peer | peer in db.peers :: NamesPeer(name, peer))
    || (exists set_ | set_ in db.prefixSets :: set_ != "" && name == "originate_" + set_)
  }

  lemma {:induction false} DerivedExactly(db: NameTables, name: string)
    ensures Derived(db, name) <==> BuiltFromExisting(db, name)
  {
    forall policy
      ensures PolicyIn(name) == Some(policy) <==> NamesPolicy(name, policy)
    {
      PolicyInMeans(name, policy);
    }
    forall peer
      ensures PeerIn(name) == Some(peer) <==> NamesPeer(name, peer)
    {
      PeerInMeans(name, peer);
    }
    forall set_
      ensures SetIn(name) == Some(set_) <==> set_ != "" && name == "originate_" + set_
    {
      MiddleMeans(name, "originate_", "", set_);
      assert "originate_" + set_ + "" == "originate_" + set_;
    }
  }

  /** The row of a table a use stands for. */
  ghost predicate RowOf(db: NameTables, u: SymbolUse) {
    || (u.kind == "peer" && u.name in db.peers && u.id == db.peers[u.name])
    || (u.kind == "peer template" && u.name in db.templates && u.id == db.templates[u.name])
    || (u.kind == "prefix set" && u.name in db.prefixSets && u.id == db.prefixSets[u.name])
    || (u.kind == "AS set" && u.name in db.asSets && u.id == db.asSets[u.name])
    || (u.kind == "community" && u.name in db.communities && u.id == db.communities[u.name])
    || (u.kind == "RPKI server" && u.name in db.servers && u.id == db.servers[u.name])
    || (u.kind == "BMP station" && u.name in db.stations && u.id == db.stations[u.name])
  }

  lemma {:induction false} TableUsesAre(tables: seq<(map<string, int>, string)>, name: string, u: SymbolUse)
    ensures u in TableUses(tables, name) <==>
              exists t | t in tables :: u.name == name && name in t.0 && u.kind == t.1 && u.id == t.0[name]
  {
    if tables != [] {
      var n := |tables| - 1;
      assert tables == tables[..n] + [tables[n]];
      TableUsesAre(tables[..n], name, u);
    }
  }

  /** The look-up finds exactly BIRD's and birdy's own names, the names built from objects that exist, and
      the rows of that name. */
  lemma {:induction false} UsesExactly(db: NameTables, name: string, u: SymbolUse)
    ensures u in Uses(db, name) <==>
              && u.name == name
              && ((u == SymbolUse("built-in", 0, name) && (name in BUILTIN || BuiltFromExisting(db, name))) || RowOf(db, u))
  {
    DerivedExactly(db, name);
    TableUsesAre(db.Tables(), name, u);
    SevenTables(db, u);
  }

  lemma {:induction false} SevenTables(db: NameTables, u: SymbolUse)
    ensures RowOf(db, u) <==> exists t | t in db.Tables() :: u.name in t.0 && u.kind == t.1 && u.id == t.0[u.name]
  {
    var all := db.Tables();
    assert all[0] in all && all[1] in all && all[2] in all && all[3] in all && all[4] in all && all[5] in all && all[6] in all;
  }
}
