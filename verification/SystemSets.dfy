/** The table of prefix sets and the guards on its system rows: the bogon lists generated filters name
    are always there, on, and hold something. (internal/store/prefixsets.go; internal/web/library.go,
    handlePrefixSetSave to handlePrefixSetToggle; internal/store/seed.go; internal/web/irr_refresh.go) */
module SystemSets {
  import opened Options
  import opened Bird
  import opened Model
  import opened Compile
  import opened ImportMeaning
  import opened Sections
  import opened Scope
  import opened WellScopedOutput

  datatype SetRow = SetRow(name: string, family: Family, system: bool, disabled: bool, originate: bool,
                           entries: seq<PrefixEntry>)

  type Rows = map<int, SetRow>

  /** What the form of a prefix set says. */
  datatype SetForm = SetForm(name: string, family: Family, originate: bool, entries: seq<PrefixEntry>)

  predicate NameTaken(rows: Rows, name: string, but: Option<int>) {
    exists id | id in rows :: rows[id].name == name && but != Some(id)
  }

  // ----- the operations

  datatype Op =
    | Create(id: int, form: SetForm)
    | Save(id: int, form: SetForm)
    | SetDisabled(id: int, disabled: bool)
    | Delete(id: int, uses: nat)
    | Refresh(id: int, entries: seq<PrefixEntry>)

  /** A system set keeps its name, its family and its role; only its contents are the form's. */
  function Kept(row: SetRow, form: SetForm): SetForm {
    if row.system then form.(name := row.name, family := row.family, originate := false) else form
  }

  /** A form without prefixes is sent back, and so is one whose name another set has. */
  function Edited(rows: Rows, op: Op): Rows {
    match op
    case Create(id, form) =>
      if form.entries == [] || NameTaken(rows, form.name, None) then rows
      else rows[id := SetRow(form.name, form.family, false, false, form.originate, form.entries)]
    case Save(id, form) =>
      if id !in rows then rows
      else
        var f := Kept(rows[id], form);
        if f.entries == [] || NameTaken(rows, f.name, Some(id)) then rows
        else rows[id := rows[id].(name := f.name, family := f.family, originate := f.originate, entries := f.entries)]
    case SetDisabled(id, disabled) =>
      if id !in rows || rows[id].system then rows else rows[id := rows[id].(disabled := disabled)]
    case Delete(id, uses) =>
      if id !in rows || rows[id].system || uses > 0 then rows else rows - {id}
    case Refresh(id, entries) =>
      if id !in rows || (entries == [] && rows[id].entries != []) then rows
      else rows[id := rows[id].(entries := entries)]
  }

  function After(rows: Rows, run: seq<Op>): Rows {
    if run == [] then rows else Edited(After(rows, run[..|run| - 1]), run[|run| - 1])
  }

  /** A new row gets an id no row has. */
  ghost predicate FreshRun(rows: Rows, run: seq<Op>) {
    forall k | 0 <= k < |run| && run[k].Create? :: run[k].id !in After(rows, run[..k])
  }

  /** The table, one statement at a time. */
  class SetTable {
    var rows: Rows

    constructor (rows: Rows)
      ensures this.rows == rows
    {
      this.rows := rows;
    }

    method CreatePrefixSet(id: int, form: SetForm)
      requires id !in rows
      modifies this
      ensures rows == Edited(old(rows), Create(id, form))
    {
      if |form.entries| == 0 || NameTaken(rows, form.name, None) { return; }
      rows := rows[id := SetRow(form.name, form.family, false, false, form.originate, form.entries)];
    }

    /** The save handler: what a system set may not change is put back before the update. */
    method SavePrefixSet(id: int, form: SetForm)
      modifies this
      ensures rows == Edited(old(rows), Save(id, form))
    {
      if id !in rows { return; }
      var f := form;
      if rows[id].system { f := f.(name := rows[id].name, family := rows[id].family, originate := false); }
      if |f.entries| == 0 || NameTaken(rows, f.name, Some(id)) { return; }
      rows := rows[id := rows[id].(name := f.name, family := f.family, originate := f.originate, entries := f.entries)];
    }

    method SetPrefixSetDisabled(id: int, disabled: bool)
      modifies this
      ensures rows == Edited(old(rows), SetDisabled(id, disabled))
    {
      if id in rows && !rows[id].system { rows := rows[id := rows[id].(disabled := disabled)]; }
    }

    method DeletePrefixSet(id: int, uses: nat)
      modifies this
      ensures rows == Edited(old(rows), Delete(id, uses))
    {
      if id !in rows || rows[id].system || uses > 0 { return; }
      rows := rows - {id};
    }

    method RefreshPrefixSetEntries(id: int, entries: seq<PrefixEntry>)
      modifies this
      ensures rows == Edited(old(rows), Refresh(id, entries))
    {
      if id !in rows || (|entries| == 0 && |rows[id].entries| > 0) { return; }
      rows := rows[id := rows[id].(entries := entries)];
    }
  }

  // ----- what each edit stores

  ghost predicate OnlyAt(before: Rows, after: Rows, id: int) {
    forall k | k != id :: (k in after <==> k in before) && (k in before ==> after[k] == before[k])
  }

  ghost predicate NameFree(rows: Rows, name: string, id: int) { forall k | k in rows && k != id :: rows[k].name != name }

  /** Which edits are carried out: a system set is never switched off or deleted, a used one never deleted,
      no set is emptied by a form or a refresh, and no name is given twice. */
  ghost predicate Accepted(rows: Rows, op: Op) {
    match op
    case Create(id, form) => form.entries != [] && NameFree(rows, form.name, id)
    case Save(id, form) =>
      && id in rows && form.entries != []
      && NameFree(rows, if rows[id].system then rows[id].name else form.name, id)
    case SetDisabled(id, _) => id in rows && !rows[id].system
    case Delete(id, uses) => id in rows && !rows[id].system && uses == 0
    case Refresh(id, entries) => id in rows && (entries != [] || rows[id].entries == [])
  }

  /** What they make of the row: the form's prefixes always, its name, family and role only where the
      set is the user's own. */
  ghost predicate Stored(rows: Rows, op: Op, after: Rows) {
    match op
    case Create(id, form) =>
      && id in after && after[id].name == form.name && after[id].family == form.family && after[id].originate == form.originate
      && after[id].entries == form.entries && !after[id].system && !after[id].disabled
    case Save(id, form) =>
      && id in rows && id in after && after[id].entries == form.entries
      && after[id].system == rows[id].system && after[id].disabled == rows[id].disabled
      && (if rows[id].system then
            after[id].name == rows[id].name && after[id].family == rows[id].family && !after[id].originate
          else after[id].name == form.name && after[id].family == form.family && after[id].originate == form.originate)
    case SetDisabled(id, disabled) =>
      && id in rows && id in after && after[id].disabled == disabled
      && after[id].name == rows[id].name && after[id].family == rows[id].family && after[id].system == rows[id].system
      && after[id].originate == rows[id].originate && after[id].entries == rows[id].entries
    case Delete(id, _) => id !in after
    case Refresh(id, entries) =>
      && id in rows && id in after && after[id].entries == entries
      && after[id].name == rows[id].name && after[id].family == rows[id].family && after[id].system == rows[id].system
      && after[id].originate == rows[id].originate && after[id].disabled == rows[id].disabled
  }

  lemma {:induction false} NameFreeIs(rows: Rows, name: string, id: int)
    ensures NameTaken(rows, name, Some(id)) <==> !NameFree(rows, name, id)
    ensures id !in rows ==> (NameTaken(rows, name, None) <==> !NameFree(rows, name, id))
  {
  }

  /** An edit stores its own fields in its own row and nothing anywhere else, or changes nothing. */
  lemma {:induction false} EditedByFields(rows: Rows, op: Op)
    requires op.Create? ==> op.id !in rows
    ensures if Accepted(rows, op) then Stored(rows, op, Edited(rows, op)) && OnlyAt(rows, Edited(rows, op), op.id)
            else Edited(rows, op) == rows
  {
    match op
    case Create(id, form) => NameFreeIs(rows, form.name, id);
    case Save(id, form) => if id in rows { NameFreeIs(rows, Kept(rows[id], form).name, id); }
    case _ =>
  }

  // ----- what every run keeps

  /** A new database: the two bogon lists, as system sets. */
  function Seeded(v4: seq<PrefixEntry>, v6: seq<PrefixEntry>): Rows {
    map[1 := SetRow(BogonSet(V4), V4, true, false, false, v4), 2 := SetRow(BogonSet(V6), V6, true, false, false, v6)]
  }

  /** The system set of a family is there, on, and holds something. */
  ghost predicate HasSystemSet(rows: Rows, fam: Family) {
    exists id | id in rows :: rows[id].name == BogonSet(fam) && rows[id].system
  }

  ghost predicate Guarded(rows: Rows) {
    && (forall id | id in rows && rows[id].system :: !rows[id].disabled && rows[id].entries != [])
    && (forall i, j | i in rows && j in rows && i != j :: rows[i].name != rows[j].name)
    && (forall fam :: HasSystemSet(rows, fam))
  }

  lemma {:induction false} SystemSetStays(rows: Rows, op: Op, fam: Family)
    requires HasSystemSet(rows, fam) && (op.Create? ==> op.id !in rows)
    ensures HasSystemSet(Edited(rows, op), fam)
  {
    var id :| id in rows && rows[id].name == BogonSet(fam) && rows[id].system;
    var after := Edited(rows, op);
    assert id in after && after[id].name == BogonSet(fam) && after[id].system;
  }

  lemma {:induction false} OpKeepsGuarded(rows: Rows, op: Op)
    requires Guarded(rows) && (op.Create? ==> op.id !in rows)
    ensures Guarded(Edited(rows, op))
  {
    forall fam
      ensures HasSystemSet(Edited(rows, op), fam)
    {
      SystemSetStays(rows, op, fam);
    }
  }

  lemma {:induction false} SeededIsGuarded(v4: seq<PrefixEntry>, v6: seq<PrefixEntry>)
    requires v4 != [] && v6 != []
    ensures Guarded(Seeded(v4, v6))
  {
    var rows := Seeded(v4, v6);
    assert BogonSet(V4) != BogonSet(V6) by { assert BogonSet(V4)[8] == '4' && BogonSet(V6)[8] == '6'; }
    forall fam
      ensures HasSystemSet(rows, fam)
    {
      var id := if fam.V4? then 1 else 2;
      assert id in rows && rows[id].name == BogonSet(fam) && rows[id].system;
    }
  }

  /** Over every run of edits from a guarded table the system sets are on, hold something, and keep
      the names generated filters use. */
  lemma {:induction false} AlwaysGuarded(rows: Rows, run: seq<Op>)
    requires Guarded(rows) && FreshRun(rows, run)
    ensures Guarded(After(rows, run))
  {
    if run != [] {
      var r := run[..|run| - 1];
      forall k | 0 <= k < |r| && r[k].Create?
        ensures r[k].id !in After(rows, r[..k])
      {
        assert r[..k] == run[..k] && r[k] == run[k];
      }
      AlwaysGuarded(rows, r);
      OpKeepsGuarded(After(rows, r), run[|run| - 1]);
    }
  }

  // ----- what the renderer gets

  function SetOf(id: int, row: SetRow): PrefixSet {
    PrefixSet(id, row.name, row.family, row.disabled, row.originate, row.entries)
  }

  /** The model's prefix sets are the rows of the table. */
  ghost predicate LoadedFrom(inp: Input, rows: Rows) {
    && (forall id | id in rows :: SetOf(id, rows[id]) in inp.prefixSets)
    && (forall ps | ps in inp.prefixSets :: ps.id in rows && ps == SetOf(ps.id, rows[ps.id]))
  }

  lemma {:induction false} GuardedSetsOn(inp: Input, rows: Rows, fam: Family)
    requires Guarded(rows) && LoadedFrom(inp, rows)
    ensures BogonSetOn(inp, fam)
    ensures forall ps | ps in inp.prefixSets && ps.name == BogonSet(fam) :: ps.entries != []
  {
    assert HasSystemSet(rows, fam);
    var id :| id in rows && rows[id].name == BogonSet(fam) && rows[id].system;
    assert SetOf(id, rows[id]) in inp.prefixSets;
    forall ps | ps in inp.prefixSets && ps.name == BogonSet(fam)
      ensures ps.entries != []
    {
      assert ps.id == id;
    }
  }

  lemma {:induction false} CheckPasses(sets: seq<PrefixSet>, name: string, found: bool)
    requires forall ps | ps in sets && ps.name == name :: ps.entries != []
    requires found || exists ps | ps in sets :: ps.name == name
    ensures CheckBogonSet(sets, name, found) == None
    decreases |sets|
  {
    if sets != [] {
      if !found && sets[0].name != name {
        var ps :| ps in sets && ps.name == name;
        assert ps in sets[1..];
      }
      CheckPasses(sets[1..], name, found || sets[0].name == name);
    }
  }

  /** So the renderer's check for bogon sets never fails on a model the store can produce. */
  lemma {:induction false} BogonCheckNeverFails(inp: Input, v4: seq<PrefixEntry>, v6: seq<PrefixEntry>, run: seq<Op>)
    requires v4 != [] && v6 != [] && FreshRun(Seeded(v4, v6), run) && LoadedFrom(inp, After(Seeded(v4, v6), run))
    ensures CheckBogonSets(inp.prefixSets, inp.policies) == None
  {
    var rows := Seeded(v4, v6);
    SeededIsGuarded(v4, v6);
    AlwaysGuarded(rows, run);
    GuardedSetsOn(inp, After(rows, run), V4);
    GuardedSetsOn(inp, After(rows, run), V6);
    CheckPasses(inp.prefixSets, BogonSet(V4), false);
    CheckPasses(inp.prefixSets, BogonSet(V6), false);
  }

  /** And what it renders from such a model is well scoped, nothing assumed about the off switch. */
  lemma {:induction false} StoredModelIsWellScoped(inp: Input, v4: seq<PrefixEntry>, v6: seq<PrefixEntry>, run: seq<Op>)
    requires v4 != [] && v6 != [] && FreshRun(Seeded(v4, v6), run) && LoadedFrom(inp, After(Seeded(v4, v6), run))
    requires Render(inp).Ok? && RefersToModel(inp)
    ensures WellScoped(Decls(Render(inp).value)) && UniqueNames(Decls(Render(inp).value))
  {
    SeededIsGuarded(v4, v6);
    AlwaysGuarded(Seeded(v4, v6), run);
    forall k, fam | 0 <= k < |inp.policies| && UsesBogons(inp, inp.policies[k], fam)
      ensures BogonSetOn(inp, fam)
    {
      GuardedSetsOn(inp, After(Seeded(v4, v6), run), fam);
    }
    RenderedIsWellScoped(inp);
  }
}
