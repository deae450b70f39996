/** Every run of the apply protocol: what always holds, what holds while nobody edits the files,
    and exactly which steps break the promise that BIRD falls back to what is on disk. */
module ApplySafety {
  import opened Options
  import opened ConfigFiles
  import opened ApplyProtocol

  // ----- runs

  /** Where a run of events leads. */
  function Exec(w: World, site: Site, run: seq<Event>): World {
    if run == [] then w else Next(Exec(w, site, run[..|run| - 1]), site, run[|run| - 1])
  }

  ghost predicate PossibleRun(w: World, site: Site, run: seq<Event>) {
    forall k | 0 <= k < |run| :: Possible(Exec(w, site, run[..k]), site, run[k])
  }

  predicate NoEdits(run: seq<Event>) { forall k | 0 <= k < |run| :: !run[k].Edit? }

  /** birdy just installed: it owns nothing, nothing is pending, BIRD runs what is on disk. */
  ghost predicate Fresh(w: World, site: Site) {
    && w.hash.None? && w.versions == [] && w.backups == map[]
    && w.daemon == Daemon(Read(site.dir, w.disk), w.daemon.fallback, false)
  }

  lemma {:induction false} RunPrefix(w: World, site: Site, run: seq<Event>)
    requires run != [] && PossibleRun(w, site, run)
    ensures PossibleRun(w, site, run[..|run| - 1])
    ensures Possible(Exec(w, site, run[..|run| - 1]), site, run[|run| - 1])
  {
    var r := run[..|run| - 1];
    forall k | 0 <= k < |r|
      ensures Possible(Exec(w, site, r[..k]), site, r[k])
    {
      assert r[..k] == run[..k] && r[k] == run[k];
    }
  }

  // ----- the version history, edits or not

  /** A version is new, unchanged, or was pending and now has its outcome. */
  ghost predicate Evolves(before: seq<Version>, after: seq<Version>) {
    && |before| <= |after|
    && forall k | 0 <= k < |before| ::
         || after[k] == before[k]
         || (before[k].status == Pending && after[k].status != Pending && after[k] == before[k].Resolve(after[k].status))
  }

  lemma {:induction false} EvolvesOn(a: seq<Version>, b: seq<Version>, c: seq<Version>)
    requires Evolves(a, b) && Evolves(b, c)
    ensures Evolves(a, c)
  {
  }

  lemma {:induction false} ReconcileEvolves(w: World, now: nat)
    ensures Evolves(w.versions, Reconciled(w, now).versions)
  {
  }

  lemma {:induction false} ApplyEvolves(w: World, site: Site, text: string, fs: FileSet, now: nat, name: string, course: Course)
    ensures Evolves(w.versions, Applied(w, site, text, fs, now, name, course).versions)
  {
  }

  lemma {:induction false} ConfirmEvolves(w: World, reply: Reply)
    ensures Evolves(w.versions, Confirms(w, reply).versions)
  {
  }

  lemma {:induction false} StepEvolves(w: World, site: Site, e: Event)
    ensures Evolves(w.versions, Next(w, site, e).versions)
  {
    if e.Apply? || e.Reapply? || e.Confirm? || e.Visit? {
      var w1 := Reconciled(w, e.now);
      ReconcileEvolves(w, e.now);
      match e {
        case Apply(now, fs, name, course) => ApplyEvolves(w1, site, fs.Logical(), fs, now, name, course);
        case Reapply(now, id, name, course) =>
          if id < |w1.versions| { ApplyEvolves(w1, site, w1.versions[id].text, w1.versions[id].fs, now, name, course); }
        case Confirm(_, reply) => ConfirmEvolves(w1, reply);
        case _ =>
      }
      EvolvesOn(w.versions, w1.versions, Next(w, site, e).versions);
    }
  }

  /** Over any run, however the files are edited: at most one version is pending, a pending one
      resolves at most once, and a resolved one never changes again. */
  lemma {:induction false} HistoryIsStable(w: World, site: Site, run: seq<Event>)
    requires Sound(w, site) && PossibleRun(w, site, run)
    ensures Sound(Exec(w, site, run), site) && Evolves(w.versions, Exec(w, site, run).versions)
  {
    if run != [] {
      RunPrefix(w, site, run);
      var r := run[..|run| - 1];
      HistoryIsStable(w, site, r);
      SoundStep(Exec(w, site, r), site, run[|run| - 1]);
      StepEvolves(Exec(w, site, r), site, run[|run| - 1]);
    }
  }

  // ----- the files, while nobody edits them

  /** birdy owns what it recorded; a pending version's backup holds the files as they are, and it
      carries something else. */
  ghost predicate InSync(w: World, site: Site) {
    && Sound(w, site)
    && (w.hash.Some? ==> Read(site.dir, w.disk) == w.hash)
    && (PendingIn(w.versions).Some? ==>
          var v := w.versions[PendingIn(w.versions).value];
          && Backup(w.backups, v.backup) == Kept(w.disk)
          && Read(site.dir, w.disk) != Some(v.text))
  }

  lemma {:induction false} PutBackReads(dir: string, disk: Disk)
    ensures Read(dir, PutBack(disk)) == Read(dir, disk)
    ensures disk.entry.Some? ==> PutBack(disk) == disk
    ensures disk.entry.None? ==> Kept(PutBack(disk)) == Disk(None, map[])
  {
    RestoreUndoes(disk, disk);
  }

  lemma {:induction false} ReconcileKeepsFiles(w: World, site: Site, now: nat)
    requires InSync(w, site)
    ensures InSync(Reconciled(w, now), site)
  {
    SoundStep(w, site, Visit(now));
  }

  lemma {:induction false} PendingAppended(versions: seq<Version>, v: Version)
    requires v.status == Pending
    ensures PendingIn(versions + [v]) == Some(|versions|)
  {
    assert (versions + [v])[|versions|] == v;
  }

  lemma {:induction false} ApplyKeepsFiles(w: World, site: Site, text: string, fs: FileSet, now: nat, name: string, course: Course)
    requires InSync(w, site) && LaysOut(site.dir, fs, text) && name != "" && name !in w.backups
    ensures InSync(Applied(w, site, text, fs, now, name, course), site)
  {
    SoundApplied(w, site, text, fs, now, name, course);
    PutBackReads(site.dir, w.disk);
    PendingAppended(w.versions, Version(text, fs, BackupName(w.disk, name), Pending, Some(now + site.timeout)));
  }

  lemma {:induction false} ResolvedNoneLeft(versions: seq<Version>, id: nat, outcome: Status)
    requires PendingIn(versions) == Some(id) && outcome != Pending
    requires forall i, j | 0 <= i < j < |versions| :: !(versions[i].status == Pending && versions[j].status == Pending)
    ensures PendingIn(versions[id := versions[id].Resolve(outcome)]).None?
  {
  }

  lemma {:induction false} ConfirmKeepsFiles(w: World, site: Site, reply: Reply)
    requires InSync(w, site)
    ensures InSync(Confirms(w, reply), site)
    ensures PendingIn(w.versions).Some? && reply != Done ==> Read(site.dir, Confirms(w, reply).disk) == Read(site.dir, w.disk)
    ensures PendingIn(w.versions).Some? && reply == Done ==>
              Read(site.dir, Confirms(w, reply).disk) == Some(w.versions[PendingIn(w.versions).value].text)
  {
    SoundConfirms(w, site, reply);
    if PendingIn(w.versions).Some? {
      var id := PendingIn(w.versions).value;
      var v := w.versions[id];
      ReadsBack(site.dir, w.disk, v.fs, v.text);
      WrittenKeepsOthers(site.dir, w.disk, v.fs, v.text);
      RestoreUndoes(w.disk, Written(w.disk, v.fs));
      if reply == Done {
        ResolvedNoneLeft(w.versions, id, Confirmed);
      } else if w.disk.entry.None? {
        assert Kept(w.disk).files == map[];
      }
    }
  }

  lemma {:induction false} WrittenKeepsOthers(dir: string, disk: Disk, fs: FileSet, text: string)
    requires LaysOut(dir, fs, text)
    ensures Others(Written(disk, fs).files) == Others(disk.files)
  {
    if fs.includes != [] { WrittenHoldsExactly(disk, fs); }
  }

  lemma {:induction false} RollbackKeepsFiles(w: World, site: Site, reply: Reply)
    requires InSync(w, site)
    ensures InSync(RolledBack(w, reply), site)
  {
    SoundStep(w, site, Rollback(reply));
    if PendingIn(w.versions).Some? { ResolvedNoneLeft(w.versions, PendingIn(w.versions).value, Reverted); }
  }

  lemma {:induction false} AdoptKeepsFiles(w: World, site: Site, name: string)
    requires InSync(w, site) && name != "" && name !in w.backups
    ensures InSync(Adopted(w, site, name), site)
  {
    SoundStep(w, site, Adopt(name));
  }

  /** With no outside edit the files stay in sync whatever BIRD replies. */
  lemma {:induction false} StepKeepsFiles(w: World, site: Site, e: Event)
    requires InSync(w, site) && Possible(w, site, e) && !e.Edit?
    ensures InSync(Next(w, site, e), site)
  {
    match e
    case Apply(now, fs, name, course) =>
      ReconcileKeepsFiles(w, site, now);
      ApplyKeepsFiles(Reconciled(w, now), site, fs.Logical(), fs, now, name, course);
    case Reapply(now, id, name, course) =>
      ReconcileKeepsFiles(w, site, now);
      var w1 := Reconciled(w, now);
      if id < |w1.versions| {
        ApplyKeepsFiles(w1, site, w1.versions[id].text, w1.versions[id].fs, now, name, course);
      }
    case Confirm(now, reply) =>
      ReconcileKeepsFiles(w, site, now);
      ConfirmKeepsFiles(Reconciled(w, now), site, reply);
    case Rollback(reply) => RollbackKeepsFiles(w, site, reply);
    case Adopt(name) => AdoptKeepsFiles(w, site, name);
    case Visit(now) => ReconcileKeepsFiles(w, site, now);
    case _ =>
  }

  lemma {:induction false} OwnedStaysOwned(w: World, site: Site, e: Event)
    requires InSync(w, site) && !e.Edit? && w.hash.Some?
    ensures Next(w, site, e).hash.Some?
  {
  }

  /** At every handler boundary of a run without outside edits, an owned file is owned. */
  lemma {:induction false} OwnershipHolds(w: World, site: Site, run: seq<Event>)
    requires InSync(w, site) && PossibleRun(w, site, run) && NoEdits(run)
    ensures InSync(Exec(w, site, run), site)
    ensures w.hash.Some? ==>
              var x := Exec(w, site, run);
              x.hash.Some? && Author(x.hash, Read(site.dir, x.disk)) == Owned
  {
    if run != [] {
      RunPrefix(w, site, run);
      var r := run[..|run| - 1];
      OwnershipHolds(w, site, r);
      StepKeepsFiles(Exec(w, site, r), site, run[|run| - 1]);
      if w.hash.Some? { OwnedStaysOwned(Exec(w, site, r), site, run[|run| - 1]); }
    }
  }

  // ----- the daemon

  /** Whatever happens to BIRD next -- its timer, an undo, a restart -- it ends up running what is
      on disk. */
  predicate Safe(w: World, site: Site) {
    var disk := Read(site.dir, w.disk);
    if w.daemon.armed then w.daemon.fallback == disk else w.daemon.running == disk
  }

  /** Safe is what the timer, an undo and a restart make of it. */
  lemma {:induction false} SafeMeans(w: World, site: Site)
    ensures Safe(w, site) <==>
              && (w.daemon.armed ==> Next(w, site, Fire).daemon.running == Read(site.dir, w.disk))
              && (!w.daemon.armed ==> w.daemon.running == Read(site.dir, w.disk))
    ensures PendingIn(w.versions).Some? ==>
              forall reply: Reply | reply.Took() ::
                Safe(w, site) <==> Next(w, site, Rollback(reply)).daemon.running == Read(site.dir, w.disk)
    ensures Next(w, site, Reboot).daemon.running == Read(site.dir, w.disk)
  {
    forall reply: Reply | reply.Took() && PendingIn(w.versions).Some?
      ensures Next(w, site, Rollback(reply)).daemon == w.daemon.Revert()
    {
    }
  }

  /** Safe, and an armed BIRD runs something else: the pending version, if there is one. */
  ghost predicate Settled(w: World, site: Site) {
    && Safe(w, site)
    && (w.daemon.armed ==> w.daemon.running != w.daemon.fallback)
    && (w.daemon.armed && PendingIn(w.versions).Some? ==>
          w.daemon.running == Some(w.versions[PendingIn(w.versions).value].text))
  }

  /** The apply an event comes down to, if any: the world it starts from and what it would load. */
  predicate LoadsWhileArmed(w: World, site: Site, text: string, course: Course) {
    Arms(w, site, text, course) && course.arm.Took() && w.daemon.armed
  }

  /** The steps that keep the promise: BIRD is not armed twice; a confirmation that is recorded
      finds BIRD still armed; and one whose reply is lost did not disarm it. */
  predicate Benign(w: World, site: Site, e: Event) {
    match e
    case Apply(now, fs, _, course) => !LoadsWhileArmed(Reconciled(w, now), site, fs.Logical(), course)
    case Reapply(now, id, _, course) =>
      var w1 := Reconciled(w, now);
      id < |w1.versions| ==> !LoadsWhileArmed(w1, site, w1.versions[id].text, course)
    case Confirm(now, reply) =>
      PendingIn(Reconciled(w, now).versions).Some? ==>
        if reply == Done then w.daemon.armed else !(reply.Took() && w.daemon.armed)
    case _ => true
  }

  lemma {:induction false} ApplySafe(w: World, site: Site, text: string, fs: FileSet, now: nat, name: string, course: Course)
    requires InSync(w, site) && Settled(w, site) && LaysOut(site.dir, fs, text) && name != "" && name !in w.backups
    ensures var x := Applied(w, site, text, fs, now, name, course);
      && (Safe(x, site) <==> !LoadsWhileArmed(w, site, text, course))
      && (!LoadsWhileArmed(w, site, text, course) ==> Settled(x, site))
  {
    PutBackReads(site.dir, w.disk);
    ReadsBack(site.dir, w.disk, fs, text);
    PendingAppended(w.versions, Version(text, fs, BackupName(w.disk, name), Pending, Some(now + site.timeout)));
  }

  lemma {:induction false} ReconcileSettled(w: World, site: Site, now: nat)
    requires InSync(w, site) && Settled(w, site)
    ensures Settled(Reconciled(w, now), site)
  {
    if PendingIn(w.versions).Some? { ResolvedNoneLeft(w.versions, PendingIn(w.versions).value, Reverted); }
  }

  lemma {:induction false} ConfirmSafe(w: World, site: Site, reply: Reply)
    requires InSync(w, site) && Settled(w, site)
    ensures var x := Confirms(w, reply);
      var good := PendingIn(w.versions).Some? ==>
                    if reply == Done then w.daemon.armed else !(reply.Took() && w.daemon.armed);
      (Safe(x, site) <==> good) && (good ==> Settled(x, site))
  {
    ConfirmKeepsFiles(w, site, reply);
  }

  /** Exactly when a step keeps the promise. */
  lemma {:induction false} SafeExactlyWhenBenign(w: World, site: Site, e: Event)
    requires InSync(w, site) && Settled(w, site) && Possible(w, site, e) && !e.Edit?
    ensures Safe(Next(w, site, e), site) <==> Benign(w, site, e)
    ensures Benign(w, site, e) ==> Settled(Next(w, site, e), site)
  {
    match e
    case Apply(now, fs, name, course) =>
      ReconcileKeepsFiles(w, site, now);
      ReconcileSettled(w, site, now);
      ApplySafe(Reconciled(w, now), site, fs.Logical(), fs, now, name, course);
    case Reapply(now, id, name, course) =>
      ReconcileKeepsFiles(w, site, now);
      ReconcileSettled(w, site, now);
      if id < |w.versions| {
        var w1 := Reconciled(w, now);
        ApplySafe(w1, site, w1.versions[id].text, w1.versions[id].fs, now, name, course);
      }
    case Confirm(now, reply) =>
      ReconcileKeepsFiles(w, site, now);
      ReconcileSettled(w, site, now);
      ConfirmSafe(Reconciled(w, now), site, reply);
    case Rollback(reply) =>
      if PendingIn(w.versions).Some? { ResolvedNoneLeft(w.versions, PendingIn(w.versions).value, Reverted); }
    case Visit(now) => ReconcileSettled(w, site, now);
    case _ =>
  }

  /** A run without outside edits whose every step is benign is safe throughout. */
  lemma {:induction false} BenignRunsAreSafe(w: World, site: Site, run: seq<Event>)
    requires InSync(w, site) && Settled(w, site) && PossibleRun(w, site, run) && NoEdits(run)
    requires forall k | 0 <= k < |run| :: Benign(Exec(w, site, run[..k]), site, run[k])
    ensures InSync(Exec(w, site, run), site) && Settled(Exec(w, site, run), site)
  {
    if run != [] {
      RunPrefix(w, site, run);
      var r := run[..|run| - 1];
      forall k | 0 <= k < |r|
        ensures Benign(Exec(w, site, r[..k]), site, r[k])
      {
        assert r[..k] == run[..k] && r[k] == run[k];
      }
      BenignRunsAreSafe(w, site, r);
      StepKeepsFiles(Exec(w, site, r), site, run[|run| - 1]);
      SafeExactlyWhenBenign(Exec(w, site, r), site, run[|run| - 1]);
    }
  }

  /** After a recorded confirmation the files and the hash hold the pending text; BIRD runs it too
      exactly when it was still armed. */
  lemma {:induction false} ConfirmAgrees(w: World, site: Site, now: nat)
    requires InSync(w, site) && Settled(w, site)
    requires PendingIn(Reconciled(w, now).versions).Some?
    ensures var x := Next(w, site, Confirm(now, Done));
      var text := w.versions[PendingIn(w.versions).value].text;
      && PendingIn(w.versions) == PendingIn(Reconciled(w, now).versions) && PendingIn(x.versions).None?
      && Read(site.dir, x.disk) == Some(text) && x.hash == Some(text)
      && (x.daemon.running == Some(text) && !x.daemon.armed <==> w.daemon.armed)
  {
    if PendingIn(w.versions).Some? { ResolvedNoneLeft(w.versions, PendingIn(w.versions).value, Reverted); }
    var id := PendingIn(w.versions).value;
    ConfirmKeepsFiles(w, site, Done);
    ResolvedNoneLeft(w.versions, id, Confirmed);
  }

  /** A restart inside the safety window forgets the timer but not the version: confirming it is
      recorded, and BIRD keeps running the old text beside the new files. */
  lemma {:induction false} RestartThenConfirm(w: World, site: Site, now: nat)
    requires InSync(w, site) && Settled(w, site)
    requires PendingIn(w.versions).Some? && !w.versions[PendingIn(w.versions).value].Expired(now)
    ensures !Safe(Exec(w, site, [Reboot, Confirm(now, Done)]), site)
  {
    var run := [Reboot, Confirm(now, Done)];
    assert run[..1] == [Reboot] && run[..1][..0] == [];
    var x := Next(w, site, Reboot);
    assert Exec(w, site, run[..1]) == x;
    SafeExactlyWhenBenign(w, site, Reboot);
    SafeExactlyWhenBenign(x, site, Confirm(now, Done));
  }

  // ----- what outside edits meet

  /** Of all steps only a confirmation changes what is read back from disk; an apply puts it back. */
  lemma {:induction false} OnlyConfirmWrites(w: World, site: Site, e: Event)
    requires !e.Edit? && !e.Confirm?
    ensures Read(site.dir, Next(w, site, e).disk) == Read(site.dir, w.disk)
  {
    PutBackReads(site.dir, w.disk);
  }

  /** An apply refuses files birdy did not write; a confirmation does not look. An edit made while
      a version is pending is gone once that version is confirmed. */
  lemma {:induction false} ConfirmOverwritesEdit(w: World, site: Site, edit: Disk, now: nat)
    requires Sound(w, site) && PendingIn(w.versions).Some?
    requires !w.versions[PendingIn(w.versions).value].Expired(now)
    ensures var v := w.versions[PendingIn(w.versions).value];
      var x := Exec(w, site, [Edit(edit), Confirm(now, Done)]);
      x.disk == Written(edit, v.fs) && Read(site.dir, x.disk) == Some(v.text) && x.hash == Some(v.text)
  {
    var run := [Edit(edit), Confirm(now, Done)];
    assert run[..1] == [Edit(edit)] && run[..1][..0] == [];
    assert Exec(w, site, run[..1]) == Next(w, site, Edit(edit));
    var v := w.versions[PendingIn(w.versions).value];
    ReadsBack(site.dir, edit, v.fs, v.text);
  }

  /** A confirmation whose write stops on the way leaves the files as an edit would, the version
      pending. Confirming again puts them right whatever was left; undoing does not: then birdy
      may apply again exactly when what was left reads as what it last recorded. */
  lemma {:induction false} StoppedConfirm(w: World, site: Site, now: nat, left: Disk, later: nat, reply: Reply)
    requires Sound(w, site) && PendingIn(w.versions).Some?
    requires !w.versions[PendingIn(w.versions).value].Expired(now)
    requires !w.versions[PendingIn(w.versions).value].Expired(later)
    ensures var v := w.versions[PendingIn(w.versions).value];
      var stopped := [Visit(now), Edit(left)];
      var again, undone := Exec(w, site, stopped + [Confirm(later, Done)]), Exec(w, site, stopped + [Rollback(reply)]);
      && Read(site.dir, again.disk) == Some(v.text) && again.hash == Some(v.text) && PendingIn(again.versions).None?
      && PendingIn(undone.versions).None? && undone.disk == left
      && (Author(undone.hash, Read(site.dir, undone.disk)).CanApply() <==> Read(site.dir, left) == w.hash)
  {
    StoppedThenConfirm(w, site, now, left, later);
    StoppedThenUndo(w, site, now, left, reply);
  }

  lemma {:induction false} StoppedThenConfirm(w: World, site: Site, now: nat, left: Disk, later: nat)
    requires Sound(w, site) && PendingIn(w.versions).Some?
    requires !w.versions[PendingIn(w.versions).value].Expired(now)
    requires !w.versions[PendingIn(w.versions).value].Expired(later)
    ensures var v := w.versions[PendingIn(w.versions).value];
      var x := Exec(w, site, [Visit(now), Edit(left)] + [Confirm(later, Done)]);
      Read(site.dir, x.disk) == Some(v.text) && x.hash == Some(v.text) && PendingIn(x.versions).None?
  {
    var stopped, id := [Visit(now), Edit(left)], PendingIn(w.versions).value;
    StoppedWorld(w, site, now, left);
    assert (stopped + [Confirm(later, Done)])[..2] == stopped;
    ReadsBack(site.dir, left, w.versions[id].fs, w.versions[id].text);
    ResolvedNoneLeft(w.versions, id, Confirmed);
  }

  lemma {:induction false} StoppedThenUndo(w: World, site: Site, now: nat, left: Disk, reply: Reply)
    requires Sound(w, site) && PendingIn(w.versions).Some?
    requires !w.versions[PendingIn(w.versions).value].Expired(now)
    ensures var x := Exec(w, site, [Visit(now), Edit(left)] + [Rollback(reply)]);
      && PendingIn(x.versions).None? && x.disk == left
      && (Author(x.hash, Read(site.dir, x.disk)).CanApply() <==> Read(site.dir, left) == w.hash)
  {
    var stopped := [Visit(now), Edit(left)];
    StoppedWorld(w, site, now, left);
    assert (stopped + [Rollback(reply)])[..2] == stopped;
    ResolvedNoneLeft(w.versions, PendingIn(w.versions).value, Reverted);
  }

  lemma {:induction false} StoppedWorld(w: World, site: Site, now: nat, left: Disk)
    requires PendingIn(w.versions).Some? && !w.versions[PendingIn(w.versions).value].Expired(now)
    ensures Exec(w, site, [Visit(now), Edit(left)]) == w.(disk := left)
  {
    var stopped := [Visit(now), Edit(left)];
    assert stopped[..1] == [Visit(now)] && stopped[..1][..0] == [];
    assert Exec(w, site, stopped[..1]) == Next(w, site, Visit(now)) == w;
  }

  // ----- when the timer and the replies behave

  /** A handler running before the recorded deadline finds BIRD still armed, one running after it
      finds the timer has fired. */
  ghost predicate Punctual(w: World, now: nat) {
    PendingIn(w.versions).Some? ==>
      (w.daemon.armed <==> !w.versions[PendingIn(w.versions).value].Expired(now))
  }

  /** The timer keeps to the deadline, no reply to an arming or a confirmation is lost, and an apply
      that finds nothing pending finds BIRD disarmed: a window left open by an undo BIRD refused is
      over. */
  ghost predicate Reliable(w: World, e: Event) {
    match e
    case Apply(now, _, _, course) => Unarmed(w, now) && !course.arm.Lost?
    case Reapply(now, _, _, course) => Unarmed(w, now) && !course.arm.Lost?
    case Confirm(now, reply) => Punctual(w, now) && !reply.Lost?
    case _ => true
  }

  ghost predicate Unarmed(w: World, now: nat) {
    Punctual(w, now) && (PendingIn(w.versions).None? ==> !w.daemon.armed)
  }

  lemma {:induction false} ReliableIsBenign(w: World, site: Site, e: Event)
    requires InSync(w, site) && Reliable(w, e) && !e.Edit?
    ensures Benign(w, site, e)
  {
    if PendingIn(w.versions).Some? { ResolvedNoneLeft(w.versions, PendingIn(w.versions).value, Reverted); }
  }

  /** From a fresh install, as long as nobody edits the files and the timer and the replies behave: at
      every handler boundary BIRD falls back to, or runs, what is on disk. */
  lemma {:induction false} AlwaysSafe(w: World, site: Site, run: seq<Event>)
    requires Fresh(w, site) && PossibleRun(w, site, run) && NoEdits(run)
    requires forall k | 0 <= k < |run| :: Reliable(Exec(w, site, run[..k]), run[k])
    ensures InSync(Exec(w, site, run), site) && Settled(Exec(w, site, run), site)
  {
    if run != [] {
      RunPrefix(w, site, run);
      var r := run[..|run| - 1];
      forall k | 0 <= k < |r|
        ensures Reliable(Exec(w, site, r[..k]), r[k])
      {
        assert r[..k] == run[..k] && r[k] == run[k];
      }
      AlwaysSafe(w, site, r);
      var x, e := Exec(w, site, r), run[|run| - 1];
      StepKeepsFiles(x, site, e);
      ReliableIsBenign(x, site, e);
      SafeExactlyWhenBenign(x, site, e);
    }
  }

  /** An undo BIRD refuses is recorded all the same; an apply that arms BIRD again before the old timer
      has fired leaves it with the wrong fallback. */
  lemma {:induction false} RefusedUndoThenApply(w: World, site: Site, now: nat, fs: FileSet, name: string)
    requires InSync(w, site) && Settled(w, site) && w.daemon.armed && PendingIn(w.versions).Some?
    requires var x := Next(w, site, Rollback(Refused));
      && Possible(x, site, Apply(now, fs, name, Course(true, true, Done, Done)))
      && Starts(x, site, fs.Logical(), Course(true, true, Done, Done))
    ensures !Safe(Exec(w, site, [Rollback(Refused), Apply(now, fs, name, Course(true, true, Done, Done))]), site)
  {
    var undo, again := Rollback(Refused), Apply(now, fs, name, Course(true, true, Done, Done));
    var x := Next(w, site, undo);
    StepKeepsFiles(w, site, undo);
    SafeExactlyWhenBenign(w, site, undo);
    SafeExactlyWhenBenign(x, site, again);
    assert [undo, again][..1] == [undo] && [undo][..0] == [];
    assert Exec(w, site, [undo]) == x;
  }
}
