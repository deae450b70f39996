/** Applying a configuration to a live router: the files on disk, BIRD's armed auto-revert and the
    version history, one handler at a time.
    (internal/web/apply.go, internal/web/history.go, internal/store/configversions.go)

    Every handler holds one lock, so each is one step. `Next` says what the step does; the class
    does it, command by command. */
module ApplyProtocol {
  import opened Options
  import opened ConfigFiles

  // ----- BIRD

  /** What BIRD runs, what it would fall back to, and whether its timer is running. */
  datatype Daemon = Daemon(running: Option<string>, fallback: Option<string>, armed: bool) {
    /** "configure timeout": loads the files and arms the timer. */
    function Arm(text: Option<string>): Daemon { Daemon(text, running, true) }

    /** "configure confirm": keeps what runs; with nothing armed there is nothing to do. */
    function Confirm(): Daemon { this.(armed := false) }

    /** "configure undo", or the timer firing: back to the fallback. */
    function Revert(): Daemon { if armed then Daemon(fallback, fallback, false) else this }

    /** A restart loads the files and forgets the timer. */
    function Reboot(text: Option<string>): Daemon { Daemon(text, text, false) }
  }

  /** How a command ends: done, refused, or the reply lost, with or without its effect. */
  datatype Reply = Done | Refused | Lost(tookEffect: bool) {
    predicate Took() { Done? || (Lost? && tookEffect) }
  }

  // ----- the store

  datatype Status = Pending | Confirmed | Reverted

  datatype Version = Version(text: string, fs: FileSet, backup: string, status: Status, deadline: Option<nat>) {
    predicate Expired(now: nat) { status == Pending && deadline.Some? && now > deadline.value }

    /** The terminal outcome: the deadline goes with it. */
    function Resolve(outcome: Status): Version { this.(status := outcome, deadline := None) }
  }

  /** The newest pending version. */
  function PendingIn(versions: seq<Version>): (id: Option<nat>)
    ensures id.Some? ==> id.value < |versions| && versions[id.value].status == Pending
    ensures id.None? ==> forall k | 0 <= k < |versions| :: versions[k].status != Pending
  {
    if versions == [] then None
    else if versions[|versions| - 1].status == Pending then Some(|versions| - 1)
    else PendingIn(versions[..|versions| - 1])
  }

  /** The applied hash is kept as the text it stands for. */
  datatype World = World(disk: Disk, backups: map<string, Disk>, daemon: Daemon, hash: Option<string>, versions: seq<Version>)

  // ----- what each handler does

  /** How the commands of one apply end. */
  datatype Course = Course(preflight: bool, wrote: bool, check: Reply, arm: Reply)

  datatype Event =
    | Apply(now: nat, fs: FileSet, name: string, course: Course)
    | Reapply(now: nat, id: nat, name: string, course: Course)
    | Confirm(now: nat, reply: Reply)
    | Rollback(reply: Reply)
    | Adopt(name: string)
    | Visit(now: nat)
    | Fire
    | Reboot
    | Edit(disk: Disk)

  /** Where the server runs: bird.conf's directory and the safety timeout. */
  datatype Site = Site(dir: string, timeout: nat)

  /** BIRD has reverted on its own once the deadline is past; birdy records it. */
  function Reconciled(w: World, now: nat): World {
    match PendingIn(w.versions)
    case Some(id) =>
      if w.versions[id].Expired(now) then w.(versions := w.versions[id := w.versions[id].Resolve(Reverted)]) else w
    case None => w
  }

  datatype Authorship = Owned | Absent | Foreign | Edited {
    predicate CanApply() { Owned? || Absent? }
  }

  function Author(hash: Option<string>, read: Option<string>): Authorship {
    match read
    case None => if hash.None? then Absent else Edited
    case Some(text) => if hash.None? then Foreign else if hash == Some(text) then Owned else Edited
  }

  /** birdy may write exactly when what is on disk is what it last recorded, or both are nothing. */
  lemma {:induction false} CanApplyWhenInSync(hash: Option<string>, read: Option<string>)
    ensures Author(hash, read).CanApply() <==> hash == read
  {
  }

  /** The gates before anything is touched. */
  predicate Starts(w: World, site: Site, text: string, course: Course) {
    && PendingIn(w.versions).None?
    && Author(w.hash, Read(site.dir, w.disk)).CanApply()
    && Read(site.dir, w.disk) != Some(text)
    && course.preflight
  }

  /** Everything up to the arming succeeded, so the timeout command is sent. */
  predicate Arms(w: World, site: Site, text: string, course: Course) {
    Starts(w, site, text, course) && course.wrote && course.check == Done
  }

  /** The disk after a write was put back: unchanged, except that without a bird.conf stale .conf
      files are gone too. */
  function PutBack(disk: Disk): Disk { RestoredFrom(disk, Kept(disk)) }

  function BackupName(disk: Disk, name: string): string { if disk.entry.None? then "" else name }

  function BackedUp(w: World, name: string): map<string, Disk> {
    if w.disk.entry.None? then w.backups else w.backups[name := Kept(w.disk)]
  }

  /** Backs up, writes, has BIRD load it armed, and puts the previous files back at once. */
  function Tried(w: World, site: Site, fs: FileSet, name: string, course: Course): World {
    w.(disk := PutBack(w.disk), backups := BackedUp(w, name),
       daemon := if course.wrote && course.check == Done && course.arm.Took()
                 then w.daemon.Arm(Read(site.dir, Written(w.disk, fs))) else w.daemon)
  }

  /** An apply that passes the gates tries the new set; it lives in a version row until confirmed. */
  function Applied(w: World, site: Site, text: string, fs: FileSet, now: nat, name: string, course: Course): World {
    if !Starts(w, site, text, course) then w
    else
      var tried := Tried(w, site, fs, name, course);
      if !(course.wrote && course.check == Done && course.arm == Done) then tried
      else
        tried.(versions := w.versions + [Version(text, fs, BackupName(w.disk, name), Pending, Some(now + site.timeout))])
  }

  function Backup(backups: map<string, Disk>, name: string): Disk {
    if name in backups then backups[name] else Disk(None, map[])
  }

  /** The new files go to disk first; if BIRD will not confirm they are taken back. */
  function Confirms(w: World, reply: Reply): World {
    match PendingIn(w.versions)
    case None => w
    case Some(id) =>
      var v := w.versions[id];
      var daemon := if reply.Took() then w.daemon.Confirm() else w.daemon;
      if reply == Done then
        w.(disk := Written(w.disk, v.fs), daemon := daemon, hash := Some(v.text),
           versions := w.versions[id := v.Resolve(Confirmed)])
      else
        w.(disk := RestoredFrom(Written(w.disk, v.fs), Backup(w.backups, v.backup)), daemon := daemon)
  }

  /** Only tells BIRD to drop the armed configuration; recorded whatever BIRD says. */
  function RolledBack(w: World, reply: Reply): World {
    match PendingIn(w.versions)
    case None => w
    case Some(id) =>
      w.(daemon := if reply.Took() then w.daemon.Revert() else w.daemon,
         versions := w.versions[id := w.versions[id].Resolve(Reverted)])
  }

  function Adopted(w: World, site: Site, name: string): World {
    w.(backups := BackedUp(w, name), hash := Read(site.dir, w.disk))
  }

  function Next(w: World, site: Site, e: Event): World {
    match e
    case Apply(now, fs, name, course) => Applied(Reconciled(w, now), site, fs.Logical(), fs, now, name, course)
    case Reapply(now, id, name, course) =>
      var w1 := Reconciled(w, now);
      if id < |w1.versions| then Applied(w1, site, w1.versions[id].text, w1.versions[id].fs, now, name, course) else w1
    case Confirm(now, reply) => Confirms(Reconciled(w, now), reply)
    case Rollback(reply) => RolledBack(w, reply)
    case Adopt(name) => Adopted(w, site, name)
    case Visit(now) => Reconciled(w, now)
    case Fire => w.(daemon := w.daemon.Revert())
    case Reboot => w.(daemon := w.daemon.Reboot(Read(site.dir, w.disk)))
    case Edit(disk) => w.(disk := disk)
  }

  /** A confirmation whose write stopped, leaving the files like this: the handler did no more than
      look, and the files were edited. */
  function Stopped(w: World, site: Site, now: nat, left: Disk): World {
    Next(Next(w, site, Visit(now)), site, Edit(left))
  }

  lemma {:induction false} ConfirmParts(w: World, site: Site, now: nat, reply: Reply)
    ensures Next(w, site, Confirm(now, reply)) == Confirms(Reconciled(w, now), reply)
    ensures PendingIn(Reconciled(w, now).versions).None? ==> Next(w, site, Confirm(now, reply)) == Reconciled(w, now)
    ensures forall left :: Stopped(w, site, now, left) == Reconciled(w, now).(disk := left)
  {
  }

  /** Backup names are fresh, and a rendered set carries its own text. */
  ghost predicate Possible(w: World, site: Site, e: Event) {
    match e
    case Apply(_, fs, name, _) => name != "" && name !in w.backups && LaysOut(site.dir, fs, fs.Logical())
    case Reapply(_, _, name, _) => name != "" && name !in w.backups
    case Adopt(name) => name != "" && name !in w.backups
    case _ => true
  }

  /** What the store and the backups always satisfy. */
  ghost predicate Sound(w: World, site: Site) {
    && "" !in w.backups
    && (forall n | n in w.backups :: w.backups[n].entry.Some?)
    && (forall i, j | 0 <= i < j < |w.versions| :: !(w.versions[i].status == Pending && w.versions[j].status == Pending))
    && (forall k | 0 <= k < |w.versions| ::
          && LaysOut(site.dir, w.versions[k].fs, w.versions[k].text)
          && (w.versions[k].backup == "" || w.versions[k].backup in w.backups))
  }

  lemma {:induction false} SoundApplied(w: World, site: Site, text: string, fs: FileSet, now: nat, name: string, course: Course)
    requires Sound(w, site) && LaysOut(site.dir, fs, text) && name != "" && name !in w.backups
    ensures Sound(Applied(w, site, text, fs, now, name, course), site)
  {
  }

  lemma {:induction false} SoundConfirms(w: World, site: Site, reply: Reply)
    requires Sound(w, site)
    ensures Sound(Confirms(w, reply), site)
  {
  }

  lemma {:induction false} SoundReconciled(w: World, site: Site, now: nat)
    requires Sound(w, site)
    ensures Sound(Reconciled(w, now), site)
  {
  }

  lemma {:induction false} SoundRolledBack(w: World, site: Site, reply: Reply)
    requires Sound(w, site)
    ensures Sound(RolledBack(w, reply), site)
  {
  }

  /** Every step keeps the store sound, edits included. */
  lemma {:induction false} SoundStep(w: World, site: Site, e: Event)
    requires Sound(w, site) && Possible(w, site, e)
    ensures Sound(Next(w, site, e), site)
  {
    match e
    case Apply(now, fs, name, course) =>
      SoundReconciled(w, site, now);
      SoundApplied(Reconciled(w, now), site, fs.Logical(), fs, now, name, course);
    case Reapply(now, id, name, course) =>
      var w1 := Reconciled(w, now);
      SoundReconciled(w, site, now);
      if id < |w1.versions| { SoundApplied(w1, site, w1.versions[id].text, w1.versions[id].fs, now, name, course); }
    case Confirm(now, reply) =>
      SoundReconciled(w, site, now);
      SoundConfirms(Reconciled(w, now), site, reply);
    case Visit(now) => SoundReconciled(w, site, now);
    case Rollback(reply) => SoundRolledBack(w, site, reply);
    case _ =>
  }

  // ----- the server

  class Server {
    const site: Site
    const conf: ConfigDir
    var hash: Option<string>
    var versions: seq<Version>
    var daemon: Daemon

    function State(): World
      reads this, conf
    {
      World(conf.OnDisk(), conf.backups, daemon, hash, versions)
    }

    ghost predicate Valid()
      reads this, conf
    {
      site.dir == conf.dir && Sound(State(), site)
    }

    constructor (site: Site, conf: ConfigDir, daemon: Daemon)
      requires site.dir == conf.dir && conf.backups == map[]
      ensures this.site == site && this.conf == conf
      ensures State() == World(conf.OnDisk(), map[], daemon, None, []) && Valid()
    {
      this.site, this.conf, this.daemon, hash, versions := site, conf, daemon, None, [];
    }

    // --- the store

    method PendingConfigVersion() returns (id: Option<nat>)
      ensures id == PendingIn(versions)
    {
      var k := |versions|;
      assert versions[..k] == versions;
      while k > 0
        invariant 0 <= k <= |versions|
        invariant PendingIn(versions) == PendingIn(versions[..k])
      {
        assert versions[..k][..k - 1] == versions[..k - 1];
        k := k - 1;
        if versions[k].status == Pending { return Some(k); }
      }
      return None;
    }

    method ResolveConfigVersion(id: nat, status: Status)
      requires id < |versions|
      modifies `versions
      ensures versions == old(versions)[id := old(versions)[id].Resolve(status)]
    {
      versions := versions[id := versions[id].Resolve(status)];
    }

    /** One transaction: the hash and the outcome together. */
    method ConfirmAppliedVersion(id: nat, text: string)
      requires id < |versions|
      modifies `versions, `hash
      ensures versions == old(versions)[id := old(versions)[id].Resolve(Confirmed)] && hash == Some(text)
    {
      hash := Some(text);
      versions := versions[id := versions[id].Resolve(Confirmed)];
    }

    // --- the daemon's commands

    method ConfigureTimeout(reply: Reply)
      requires conf.dir == site.dir
      modifies `daemon
      ensures daemon == if reply.Took() then old(daemon).Arm(Read(site.dir, conf.OnDisk())) else old(daemon)
    {
      if reply.Took() {
        var text := conf.ReadLogicalConfig();
        daemon := daemon.Arm(text);
      }
    }

    method ConfigureConfirm(reply: Reply)
      modifies `daemon
      ensures daemon == if reply.Took() then old(daemon).Confirm() else old(daemon)
    {
      if reply.Took() { daemon := daemon.Confirm(); }
    }

    method ConfigureUndo(reply: Reply)
      modifies `daemon
      ensures daemon == if reply.Took() then old(daemon).Revert() else old(daemon)
    {
      if reply.Took() { daemon := daemon.Revert(); }
    }

    // --- the handlers

    method BirdConfState() returns (author: Authorship, read: Option<string>)
      requires conf.dir == site.dir
      ensures read == Read(site.dir, conf.OnDisk()) && author == Author(hash, read)
    {
      read := conf.ReadLogicalConfig();
      if read.None? {
        author := if hash.None? then Absent else Edited;
      } else if hash.None? {
        author := Foreign;
      } else if read == hash {
        author := Owned;
      } else {
        author := Edited;
      }
    }

    method ReconcilePending(now: nat)
      requires Valid()
      modifies `versions
      ensures Valid() && State() == Reconciled(old(State()), now)
    {
      var pending := PendingConfigVersion();
      if pending.Some? && versions[pending.value].Expired(now) {
        ResolveConfigVersion(pending.value, Reverted);
      }
    }

    /** No pending apply is left after catching up. */
    method CanStartApply(now: nat) returns (ok: bool)
      requires Valid()
      modifies `versions
      ensures Valid() && State() == Reconciled(old(State()), now)
      ensures ok <==> PendingIn(versions).None?
    {
      ReconcilePending(now);
      var pending := PendingConfigVersion();
      ok := pending.None?;
    }

    /** The write-and-arm pipeline. `budget` file operations succeed before one fails, if
        any does; `wrote` says whether the whole set was written. */
    method ApplyConfig(text: string, fs: FileSet, now: nat, name: string, preflight: bool, budget: Option<nat>, check: Reply, arm: Reply)
      returns (wrote: bool)
      requires Valid() && name != "" && name !in conf.backups && PendingIn(versions).None?
      requires LaysOut(site.dir, fs, text)
      modifies this, conf
      ensures site.dir == conf.dir
      ensures State() == Applied(old(State()), site, text, fs, now, name, Course(preflight, wrote, check, arm))
    {
      wrote := true;
      var author, read := BirdConfState();
      if !author.CanApply() || read == Some(text) || !preflight { return; }
      var backup;
      wrote, backup := WriteAndArm(fs, name, budget, check, arm);
      if !wrote || check != Done || arm != Done { return; }
      versions := versions + [Version(text, fs, backup, Pending, Some(now + site.timeout))];
    }

    /** Backs up, writes, has the daemon check and load the files, and puts the previous ones
        back however far it came. */
    method WriteAndArm(fs: FileSet, name: string, budget: Option<nat>, check: Reply, arm: Reply)
      returns (wrote: bool, backup: string)
      requires site.dir == conf.dir && name != "" && name !in conf.backups
      requires forall k | 0 <= k < |fs.includes| :: IsConf(fs.includes[k].name)
      modifies `daemon, conf
      ensures backup == BackupName(old(conf.OnDisk()), name)
      ensures State() == Tried(old(State()), site, fs, name, Course(true, wrote, check, arm))
    {
      ghost var before := conf.OnDisk();
      backup := conf.SnapshotConfig(name);
      wrote := conf.WriteFileSet(fs, budget);
      if wrote && check == Done {
        ConfigureTimeout(arm);
      }
      Undo(before, backup);
    }

    /** Puts back the files a backup was just taken of. */
    method Undo(ghost before: Disk, backup: string)
      requires Others(conf.files) == Others(before.files)
      requires backup == "" <==> before.entry.None?
      requires backup != "" ==> backup in conf.backups && conf.backups[backup] == Kept(before)
      modifies conf`entry, conf`files
      ensures conf.OnDisk() == PutBack(before)
    {
      ghost var now := conf.OnDisk();
      conf.RestoreConfig(backup);
      RestoreUndoes(before, now);
      RestoreUndoes(before, before);
    }

    method HandleApply(now: nat, fs: FileSet, name: string, preflight: bool, budget: Option<nat>, check: Reply, arm: Reply)
      returns (wrote: bool)
      requires Valid() && Possible(State(), site, Apply(now, fs, name, Course(preflight, true, check, arm)))
      modifies this, conf
      ensures Valid() && State() == Next(old(State()), site, Apply(now, fs, name, Course(preflight, wrote, check, arm)))
    {
      ghost var before := State();
      wrote := true;
      var ok := CanStartApply(now);
      if !ok { return; }
      wrote := ApplyConfig(fs.Logical(), fs, now, name, preflight, budget, check, arm);
      SoundStep(before, site, Apply(now, fs, name, Course(preflight, wrote, check, arm)));
    }

    method HandleReapply(now: nat, id: nat, name: string, preflight: bool, budget: Option<nat>, check: Reply, arm: Reply)
      returns (wrote: bool)
      requires Valid() && name != "" && name !in conf.backups
      modifies this, conf
      ensures Valid() && State() == Next(old(State()), site, Reapply(now, id, name, Course(preflight, wrote, check, arm)))
    {
      ghost var before := State();
      wrote := true;
      var ok := CanStartApply(now);
      if !ok || id >= |versions| { return; }
      var v := versions[id];
      wrote := ApplyConfig(v.text, v.fs, now, name, preflight, budget, check, arm);
      SoundStep(before, site, Reapply(now, id, name, Course(preflight, wrote, check, arm)));
    }

    /** A write that stops on the way ends the handler: nothing is put back and the version stays
        pending, as if somebody had edited the files. */
    method HandleApplyConfirm(now: nat, budget: Option<nat>, reply: Reply) returns (wrote: bool)
      requires Valid()
      modifies this, conf
      ensures Valid()
      ensures wrote ==> State() == Next(old(State()), site, Confirm(now, reply))
      ensures !wrote ==> State() == Stopped(old(State()), site, now, conf.OnDisk())
      ensures !wrote ==> PendingIn(versions).Some? && Others(conf.files) == Others(old(conf.files))
      ensures budget.None? ==> wrote
    {
      ghost var before := State();
      ReconcilePending(now);
      ghost var current := State();
      assert current == Reconciled(before, now);
      ConfirmParts(before, site, now, reply);
      var pending := PendingConfigVersion();
      if pending.None? { return true; }
      wrote := ConfirmPending(pending.value, budget, reply);
    }

    /** Puts the pending version's files on disk and tells BIRD to keep it; back to the backup
        when BIRD does not say it did. */
    method ConfirmPending(id: nat, budget: Option<nat>, reply: Reply) returns (wrote: bool)
      requires Valid() && PendingIn(versions) == Some(id)
      modifies this, conf
      ensures Valid()
      ensures State() == if wrote then Confirms(old(State()), reply) else old(State()).(disk := conf.OnDisk())
      ensures !wrote ==> Others(conf.files) == Others(old(conf.files))
      ensures budget.None? ==> wrote
    {
      SoundConfirms(State(), site, reply);
      var v := versions[id];
      wrote := conf.WriteFileSet(v.fs, budget);
      if !wrote { return; }
      ConfigureConfirm(reply);
      if reply != Done {
        conf.RestoreConfig(v.backup);
        return;
      }
      ConfirmAppliedVersion(id, v.text);
    }

    method HandleApplyRollback(reply: Reply)
      requires Valid()
      modifies `daemon, `versions
      ensures Valid() && State() == Next(old(State()), site, Rollback(reply))
    {
      ghost var before := State();
      SoundStep(before, site, Rollback(reply));
      var pending := PendingConfigVersion();
      if pending.None? { return; }
      ConfigureUndo(reply);
      ResolveConfigVersion(pending.value, Reverted);
    }

    method HandleAdopt(name: string)
      requires Valid() && name != "" && name !in conf.backups
      modifies `hash, conf`backups
      ensures Valid() && State() == Next(old(State()), site, Adopt(name))
    {
      ghost var before := State();
      SoundStep(before, site, Adopt(name));
      var backup := conf.SnapshotConfig(name);
      hash := conf.ReadLogicalConfig();
    }
  }
}
