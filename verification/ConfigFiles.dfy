/** bird.conf and the files beside it: reading the configuration back, writing a file set, pruning,
    backing up and restoring. (internal/web/apply.go, readLogicalConfig to restoreConfig;
    internal/render/files.go, FileSet) */
module ConfigFiles {
  import opened Options
  import opened Text
  import opened IncludeLines

  /** One file under birdy.d, by its name there. */
  datatype File = File(name: string, body: string)

  function Bodies(files: seq<File>): string {
    if files == [] then "" else files[0].body + Bodies(files[1..])
  }

  function NamesOf(files: seq<File>): (names: seq<string>)
    ensures |names| == |files| && forall k | 0 <= k < |names| :: names[k] == files[k].name
  {
    if files == [] then [] else [files[0].name] + NamesOf(files[1..])
  }

  datatype FileSet = FileSet(entry: string, includes: seq<File>) {
    /** What BIRD parses once the includes are spliced in. */
    function Logical(): string { Bodies(includes) }
  }

  /** bird.conf, if there is one, and what birdy.d holds. */
  datatype Disk = Disk(entry: Option<string>, files: map<string, string>)

  predicate IsConf(name: string) { HasSuffix(name, ".conf") }

  // ----- the specification of each operation

  function BodiesOf(files: map<string, string>, names: seq<string>): string {
    if names == [] then ""
    else (if names[0] in files then files[names[0]] else "") + BodiesOf(files, names[1..])
  }

  /** The configuration on disk however it is split; None when there is no bird.conf. An include
      that is gone counts as empty. */
  function Read(dir: string, disk: Disk): Option<string> {
    match disk.entry
    case None => None
    case Some(text) =>
      var names := BirdyIncludes(dir, text);
      if names == [] then Some(text) else Some(BodiesOf(disk.files, names))
  }

  function Added(files: map<string, string>, more: seq<File>): map<string, string>
    decreases |more|
  {
    if more == [] then files else Added(files[more[0].name := more[0].body], more[1..])
  }

  /** Every .conf file outside `keep` removed. */
  function Pruned(files: map<string, string>, keep: set<string>): map<string, string> {
    map n | n in files && (!IsConf(n) || n in keep) :: files[n]
  }

  function NameSet(files: seq<File>): set<string> { set f | f in files :: f.name }

  function Written(disk: Disk, fs: FileSet): Disk {
    Disk(Some(fs.entry), Pruned(Added(disk.files, fs.includes), NameSet(fs.includes)))
  }

  /** What a backup holds: bird.conf and the .conf files. */
  function Kept(disk: Disk): Disk { Disk(disk.entry, map n | n in disk.files && IsConf(n) :: disk.files[n]) }

  /** The live files after a restore; the backup of "no config" removes bird.conf and clears
      birdy.d. */
  function RestoredFrom(disk: Disk, backup: Disk): Disk {
    if backup.entry.None? then Disk(None, Pruned(disk.files, {}))
    else Disk(backup.entry, Pruned(disk.files + backup.files, backup.files.Keys))
  }

  /** Files in birdy.d that birdy never touches. */
  function Others(files: map<string, string>): map<string, string> { Pruned(files, {}) }

  // ----- what they mean together

  /** A file set that carries `text`: split over distinct .conf files its entry lists in order, or
      a bird.conf alone that includes none of birdy's. */
  ghost predicate LaysOut(dir: string, fs: FileSet, text: string) {
    if fs.includes == [] then text == fs.entry && BirdyIncludes(dir, fs.entry) == []
    else
      && text == fs.Logical() && BirdyIncludes(dir, fs.entry) == NamesOf(fs.includes)
      && Distinct(NamesOf(fs.includes)) && forall k | 0 <= k < |fs.includes| :: IsConf(fs.includes[k].name)
  }

  lemma {:induction false} AddedKeeps(files: map<string, string>, more: seq<File>, name: string)
    requires forall k | 0 <= k < |more| :: more[k].name != name
    ensures name in Added(files, more) <==> name in files
    ensures name in files ==> Added(files, more)[name] == files[name]
    decreases |more|
  {
    if more != [] { AddedKeeps(files[more[0].name := more[0].body], more[1..], name); }
  }

  lemma {:induction false} AddedHolds(files: map<string, string>, more: seq<File>, k: nat)
    requires k < |more| && Distinct(NamesOf(more))
    ensures more[k].name in Added(files, more) && Added(files, more)[more[k].name] == more[k].body
    decreases |more|
  {
    var files' := files[more[0].name := more[0].body];
    forall i, j | 0 <= i < j < |more[1..]|
      ensures NamesOf(more[1..])[i] != NamesOf(more[1..])[j]
    {
      assert NamesOf(more)[i + 1] != NamesOf(more)[j + 1];
    }
    if k == 0 {
      forall i | 0 <= i < |more[1..]|
        ensures more[1..][i].name != more[0].name
      {
        assert NamesOf(more)[0] != NamesOf(more)[i + 1];
      }
      AddedKeeps(files', more[1..], more[0].name);
    } else {
      AddedHolds(files', more[1..], k - 1);
    }
  }

  /** After a write birdy.d holds exactly the set's .conf files, and every other file is as it
      was. */
  lemma {:induction false} WrittenHoldsExactly(disk: Disk, fs: FileSet)
    requires Distinct(NamesOf(fs.includes)) && forall k | 0 <= k < |fs.includes| :: IsConf(fs.includes[k].name)
    ensures var d := Written(disk, fs);
      && (forall k | 0 <= k < |fs.includes| ::
            fs.includes[k].name in d.files && d.files[fs.includes[k].name] == fs.includes[k].body)
      && (forall n | n in d.files && IsConf(n) :: exists k | 0 <= k < |fs.includes| :: fs.includes[k].name == n)
      && Others(d.files) == Others(disk.files)
  {
    var d := Written(disk, fs);
    forall k | 0 <= k < |fs.includes|
      ensures fs.includes[k].name in d.files && d.files[fs.includes[k].name] == fs.includes[k].body
    {
      AddedHolds(disk.files, fs.includes, k);
      assert fs.includes[k] in fs.includes;
    }
    forall n | !IsConf(n)
      ensures n in d.files <==> n in disk.files
      ensures n in d.files ==> d.files[n] == disk.files[n]
    {
      AddedKeeps(disk.files, fs.includes, n);
    }
  }

  lemma {:induction false} BodiesOfHeld(files: map<string, string>, more: seq<File>)
    requires forall k | 0 <= k < |more| :: more[k].name in files && files[more[k].name] == more[k].body
    ensures BodiesOf(files, NamesOf(more)) == Bodies(more)
  {
    if more != [] {
      assert NamesOf(more)[1..] == NamesOf(more[1..]);
      BodiesOfHeld(files, more[1..]);
    }
  }

  /** Written and read back, a set gives the text it carries. */
  lemma {:induction false} ReadsBack(dir: string, disk: Disk, fs: FileSet, text: string)
    requires LaysOut(dir, fs, text)
    ensures Read(dir, Written(disk, fs)) == Some(text)
  {
    if fs.includes != [] {
      assert NamesOf(fs.includes) != [] by { assert |NamesOf(fs.includes)| == |fs.includes|; }
      WrittenHoldsExactly(disk, fs);
      BodiesOfHeld(Written(disk, fs).files, fs.includes);
    }
  }

  /** Restoring a backup undoes whatever was written since, in full or in part: with the other
      files left alone, the disk is what it was -- or, when there was no bird.conf, has none and
      no .conf file either. */
  lemma {:induction false} RestoreUndoes(was: Disk, now: Disk)
    requires Others(now.files) == Others(was.files)
    ensures RestoredFrom(now, Kept(was)) ==
            if was.entry.Some? then was else Disk(None, Others(was.files))
  {
    if was.entry.Some? {
      var d := RestoredFrom(now, Kept(was));
      forall n
        ensures n in d.files <==> n in was.files
        ensures n in d.files ==> d.files[n] == was.files[n]
      {
        assert n in Others(now.files) <==> n in Others(was.files);
        if n in Others(now.files) { assert Others(now.files)[n] == Others(was.files)[n]; }
      }
      assert d.files == was.files;
    }
  }

  /** An old backup is read back as its text unless that text includes files of birdy's: those are
      not in the backup, and restoring it removes them. */
  lemma {:induction false} OldBackupReadsBack(dir: string, now: Disk, text: string)
    ensures var d := RestoredFrom(now, Disk(Some(text), map[]));
      && d.entry == Some(text) && (forall n | n in d.files :: !IsConf(n)) && Others(d.files) == Others(now.files)
      && Read(dir, d) == Some(if BirdyIncludes(dir, text) == [] then text else BodiesOf(Others(now.files), BirdyIncludes(dir, text)))
  {
    assert RestoredFrom(now, Disk(Some(text), map[])).files == Others(now.files);
  }

  lemma {:induction false} NextFile(files: map<string, string>, more: seq<File>, i: nat)
    requires i < |more|
    ensures Added(files, more[i..]) == Added(files[more[i].name := more[i].body], more[i + 1..])
    ensures NameSet(more[..i + 1]) == NameSet(more[..i]) + {more[i].name}
  {
    assert more[i..][0] == more[i] && more[i..][1..] == more[i + 1..];
    assert more[..i + 1] == more[..i] + [more[i]];
  }

  lemma {:induction false} KeepsOthers(files: map<string, string>, f: File)
    requires IsConf(f.name)
    ensures Others(files[f.name := f.body]) == Others(files)
  {
  }

  // ----- the operations

  class ConfigDir {
    const dir: string
    var entry: Option<string>
    var files: map<string, string>
    var backups: map<string, Disk>

    /** Backups an older birdy left behind: single files, each a copy of bird.conf. */
    const oldBackups: map<string, string>

    function OnDisk(): Disk
      reads this
    {
      Disk(entry, files)
    }

    constructor (dir: string, disk: Disk, oldBackups: map<string, string>)
      ensures this.dir == dir && OnDisk() == disk && backups == map[] && this.oldBackups == oldBackups
    {
      this.dir, this.oldBackups := dir, oldBackups;
      entry, files, backups := disk.entry, disk.files, map[];
    }

    method ReadLogicalConfig() returns (text: Option<string>)
      ensures text == Read(dir, OnDisk())
    {
      if entry.None? { return None; }
      var includes := BirdyIncludes(dir, entry.value);
      if |includes| == 0 { return Some(entry.value); }
      var b := ReadParts(includes);
      return Some(b);
    }

    method ReadParts(includes: seq<string>) returns (b: string)
      ensures b == BodiesOf(files, includes)
    {
      b := "";
      var i := 0;
      while i < |includes|
        invariant 0 <= i <= |includes|
        invariant b + BodiesOf(files, includes[i..]) == BodiesOf(files, includes)
      {
        if includes[i] in files {
          b := b + files[includes[i]];
        }
        assert includes[i..][1..] == includes[i + 1..];
        i := i + 1;
      }
      assert includes[i..] == [];
    }

    /** Removes every .conf file not kept. `budget` removals succeed before one fails and ends it;
        without a budget none fails. */
    method PruneIncludeDir(keep: set<string>, budget: Option<nat>) returns (ok: bool)
      modifies `files
      ensures ok ==> files == Pruned(old(files), keep)
      ensures Others(files) == Others(old(files))
      ensures budget.None? ==> ok
    {
      var todo, removed := files.Keys, 0;
      while todo != {}
        invariant todo <= files.Keys <= old(files.Keys)
        invariant forall n | n in files :: files[n] == old(files)[n]
        invariant forall n | n in old(files) :: n in files <==> n in todo || !IsConf(n) || n in keep
        decreases |todo|
      {
        var n :| n in todo;
        todo := todo - {n};
        if IsConf(n) && n !in keep {
          if budget == Some(removed) {
            assert Others(files) == Others(old(files));
            return false;
          }
          removed := removed + 1;
          files := files - {n};
        }
      }
      assert files == Pruned(old(files), keep);
      return true;
    }

    /** Includes first, so that bird.conf never names a file that is not there; then bird.conf;
        then the stale files go. The first operation that fails ends it. */
    method WriteFileSet(fs: FileSet, budget: Option<nat>) returns (ok: bool)
      requires forall k | 0 <= k < |fs.includes| :: IsConf(fs.includes[k].name)
      modifies `entry, `files
      ensures ok ==> OnDisk() == Written(old(OnDisk()), fs)
      ensures Others(files) == Others(old(files))
      ensures budget.None? ==> ok
    {
      var keep: set<string>, i := {}, 0;
      while i < |fs.includes|
        invariant 0 <= i <= |fs.includes|
        invariant Added(files, fs.includes[i..]) == Added(old(files), fs.includes)
        invariant keep == NameSet(fs.includes[..i])
        invariant Others(files) == Others(old(files)) && entry == old(entry)
        invariant budget.Some? ==> i <= budget.value
      {
        if budget == Some(i) { return false; }
        var f := fs.includes[i];
        NextFile(files, fs.includes, i);
        KeepsOthers(files, f);
        files := files[f.name := f.body];
        keep := keep + {f.name};
        i := i + 1;
      }
      assert fs.includes[i..] == [] && fs.includes[..i] == fs.includes;
      if budget == Some(i) { return false; }
      entry := Some(fs.entry);
      ok := PruneIncludeDir(keep, if budget.None? then None else Some(budget.value - i - 1));
    }

    /** Copies bird.conf and birdy.d's .conf files into a new backup; "" when there is nothing to
        back up. */
    method SnapshotConfig(name: string) returns (backup: string)
      requires name != "" && name !in backups
      modifies `backups
      ensures backup == if entry.None? then "" else name
      ensures backups == if entry.None? then old(backups) else old(backups)[name := Kept(OnDisk())]
    {
      if entry.None? { return ""; }
      var copy: map<string, string>, todo := map[], files.Keys;
      while todo != {}
        invariant todo <= files.Keys
        invariant forall n :: n in copy <==> n in files && n !in todo && IsConf(n)
        invariant forall n | n in copy :: copy[n] == files[n]
        decreases |todo|
      {
        var n :| n in todo;
        todo := todo - {n};
        if IsConf(n) {
          copy := copy[n := files[n]];
        }
      }
      assert copy == Kept(OnDisk()).files;
      backups := backups[name := Disk(entry, copy)];
      return name;
    }

    /** Copies the saved files back over the live ones. */
    method CopyBack(saved: map<string, string>) returns (keep: set<string>)
      modifies `files
      ensures keep == saved.Keys && files == old(files) + saved
    {
      keep := {};
      var todo := saved.Keys;
      ghost var was := files;
      while todo != {}
        invariant forall n :: n in saved <==> n in todo || n in keep
        invariant forall n | n in keep :: n in files && files[n] == saved[n]
        invariant forall n | n !in keep && n in files :: n in was && files[n] == was[n]
        invariant forall n | n in was :: n in files
        decreases |todo|
      {
        var n :| n in todo;
        todo := todo - {n};
        files := files[n := saved[n]];
        keep := keep + {n};
      }
      assert files == was + saved;
    }

    /** What a backup holds: "" no config, an old one a bird.conf alone. */
    function Saved(backup: string): Disk
      requires backup != "" ==> backup in backups || backup in oldBackups
      reads `backups
    {
      if backup == "" then Disk(None, map[])
      else if backup in backups then backups[backup]
      else Disk(Some(oldBackups[backup]), map[])
    }

    /** Makes the live files match a backup. */
    method RestoreConfig(backup: string)
      requires backup != "" ==> backup in backups || backup in oldBackups
      requires backup != "" && backup in backups ==> backups[backup].entry.Some?
      modifies `entry, `files
      ensures OnDisk() == RestoredFrom(old(OnDisk()), Saved(backup))
    {
      if backup == "" {
        entry := None;
        var cleared := PruneIncludeDir({}, None);
        return;
      }
      if backup !in backups {
        assert files + map[] == files;
        entry := Some(oldBackups[backup]);
        var cleared := PruneIncludeDir({}, None);
        return;
      }
      var saved := backups[backup];
      entry := saved.entry;
      var keep := CopyBack(saved.files);
      var pruned := PruneIncludeDir(keep, None);
    }
  }
}
