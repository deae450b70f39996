/** What each step of the apply protocol does, said of the state before and after it alone: when an
    apply touches anything, what it records and until when, and what a confirmation, an undo and an
    adoption leave. (internal/web/apply.go, applyConfig, handleApplyConfirm, handleApplyRollback,
    handleAdopt and reconcilePending) */
module ApplyGates {
  import opened Options
  import opened ConfigFiles
  import opened ApplyProtocol
  import opened ApplySafety

  predicate IsApply(e: Event) { e.Apply? || e.Reapply? }

  /** Every version still pending is past its deadline. */
  predicate NothingLive(w: World, now: nat) {
    forall k | 0 <= k < |w.versions| && w.versions[k].status == Pending :: PastDeadline(w.versions[k], now)
  }

  lemma {:induction false} NothingLiveMeans(w: World, site: Site, now: nat)
    requires Sound(w, site)
    ensures PendingIn(Reconciled(w, now).versions).None? <==> NothingLive(w, now)
  {
    match PendingIn(w.versions)
    case None =>
    case Some(id) =>
      OnePending(w.versions, id, now);
      if w.versions[id].Expired(now) { ResolvedNoneLeft(w.versions, id, Reverted); }
  }

  lemma {:induction false} OnePending(versions: seq<Version>, id: nat, now: nat)
    requires id < |versions| && versions[id].status == Pending
    requires forall i, j | 0 <= i < j < |versions| :: !(versions[i].status == Pending && versions[j].status == Pending)
    ensures (forall k | 0 <= k < |versions| && versions[k].status == Pending :: PastDeadline(versions[k], now)) <==>
            PastDeadline(versions[id], now)
  {
  }

  /** Catching up changes no more than the outcome of a version that is past its deadline. */
  lemma {:induction false} CaughtUp(w: World, now: nat)
    ensures var x := Reconciled(w, now);
      && x.disk == w.disk && x.backups == w.backups && x.daemon == w.daemon && x.hash == w.hash
      && |x.versions| == |w.versions|
      && forall k | 0 <= k < |w.versions| ::
           x.versions[k].text == w.versions[k].text && x.versions[k].fs == w.versions[k].fs
  {
  }

  // ----- when an apply does anything

  /** The text an apply is about, and the files that carry it: the form's, or a stored version's. */
  predicate Applies(w: World, e: Event, text: string, fs: FileSet) {
    match e
    case Apply(_, files, _, _) => fs == files && text == Bodies(files.includes)
    case Reapply(_, id, _, _) => id < |w.versions| && fs == w.versions[id].fs && text == w.versions[id].text
    case _ => false
  }

  /** An apply that touches the disk, the backups or BIRD, or records a version. */
  predicate Touches(w: World, site: Site, e: Event) {
    var x := Next(w, site, e);
    x.disk != w.disk || x.backups != w.backups || x.daemon != w.daemon || x.hash != w.hash || |x.versions| != |w.versions|
  }

  /** After catching up, an apply is the pipeline on its text and files. */
  lemma {:induction false} NextIsApplied(w: World, site: Site, e: Event, text: string, fs: FileSet)
    requires IsApply(e) && Applies(w, e, text, fs)
    ensures Next(w, site, e) == Applied(Reconciled(w, e.now), site, text, fs, e.now, e.name, e.course)
  {
    CaughtUp(w, e.now);
  }

  lemma {:induction false} PipelineStops(w: World, site: Site, text: string, fs: FileSet, now: nat, name: string, course: Course)
    ensures PendingIn(w.versions).Some? || Read(site.dir, w.disk) != w.hash || Read(site.dir, w.disk) == Some(text)
            || !course.preflight ==>
              Applied(w, site, text, fs, now, name, course) == w
  {
  }

  /** birdy never touches files it did not write: whatever an apply does, it does to files that read
      as what birdy last recorded, while no version is live, for a text that is not there yet. */
  lemma {:induction false} TouchesOnlyItsOwn(w: World, site: Site, e: Event)
    requires Sound(w, site) && IsApply(e) && Touches(w, site, e)
    ensures Read(site.dir, w.disk) == w.hash && NothingLive(w, e.now)
    ensures exists text, fs :: Applies(w, e, text, fs) && Read(site.dir, w.disk) != Some(text)
  {
    NothingLiveMeans(w, site, e.now);
    CaughtUp(w, e.now);
    if e.Reapply? && e.id >= |w.versions| {
      UnknownVersionDoesNothing(w, site, e);
    } else {
      var text := if e.Apply? then Bodies(e.fs.includes) else w.versions[e.id].text;
      var fs := if e.Apply? then e.fs else w.versions[e.id].fs;
      NextIsApplied(w, site, e, text, fs);
      PipelineStops(Reconciled(w, e.now), site, text, fs, e.now, e.name, e.course);
      assert Applies(w, e, text, fs);
    }
  }

  /** The conditions under which an apply goes ahead, in the order they are checked. */
  ghost predicate GoesAhead(w: World, site: Site, e: Event, text: string)
    requires IsApply(e)
  {
    NothingLive(w, e.now) && Read(site.dir, w.disk) == w.hash && Read(site.dir, w.disk) != Some(text) && e.course.preflight
  }

  lemma {:induction false} AppliedText(w: World, site: Site, e: Event, text: string, fs: FileSet)
    requires Sound(w, site) && Possible(w, site, e) && IsApply(e) && Applies(w, e, text, fs)
    ensures LaysOut(site.dir, fs, text)
  {
  }

  lemma {:induction false} PipelineArms(w: World, site: Site, text: string, fs: FileSet, now: nat, name: string, course: Course)
    requires PendingIn(w.versions).None? && Read(site.dir, w.disk) == w.hash && Read(site.dir, w.disk) != Some(text)
    requires course.preflight && LaysOut(site.dir, fs, text)
    ensures Applied(w, site, text, fs, now, name, course).daemon ==
            if course.wrote && course.check.Done? && (course.arm.Done? || (course.arm.Lost? && course.arm.tookEffect))
            then Daemon(Some(text), w.daemon.running, true) else w.daemon
  {
    ReadsBack(site.dir, w.disk, fs, text);
  }

  /** BIRD loads the text, armed, exactly when the apply goes ahead, the write and BIRD's own check
      succeed and the arming takes effect; otherwise BIRD is left alone. */
  lemma {:induction false} ArmsExactly(w: World, site: Site, e: Event, text: string, fs: FileSet)
    requires Sound(w, site) && Possible(w, site, e) && IsApply(e) && Applies(w, e, text, fs)
    ensures var x := Next(w, site, e);
      x.daemon == if GoesAhead(w, site, e, text) && e.course.wrote && e.course.check.Done?
                     && (e.course.arm.Done? || (e.course.arm.Lost? && e.course.arm.tookEffect))
                  then Daemon(Some(text), w.daemon.running, true) else w.daemon
  {
    var w1 := Reconciled(w, e.now);
    NothingLiveMeans(w, site, e.now);
    CaughtUp(w, e.now);
    AppliedText(w, site, e, text, fs);
    NextIsApplied(w, site, e, text, fs);
    if GoesAhead(w, site, e, text) {
      PipelineArms(w1, site, text, fs, e.now, e.name, e.course);
    } else {
      PipelineStops(w1, site, text, fs, e.now, e.name, e.course);
    }
  }

  /** The row an apply that went through adds. */
  ghost predicate RowOf(w: World, site: Site, x: World, e: Event, text: string, fs: FileSet)
    requires IsApply(e)
  {
    && |x.versions| == |w.versions| + 1
    && var v := x.versions[|w.versions|];
      && v.text == text && v.fs == fs && v.status == Pending && v.deadline == Some(e.now + site.timeout)
      && (w.disk.entry.None? ==> v.backup == "")
      && (w.disk.entry.Some? ==> v.backup == e.name && e.name in x.backups && x.backups[e.name] == Kept(w.disk))
  }

  lemma {:induction false} PipelineRecords(w: World, site: Site, text: string, fs: FileSet, e: Event)
    requires PendingIn(w.versions).None? && Read(site.dir, w.disk) == w.hash && Read(site.dir, w.disk) != Some(text)
    requires IsApply(e) && e.course.preflight
    ensures var x := Applied(w, site, text, fs, e.now, e.name, e.course);
      && x.hash == w.hash
      && if e.course.wrote && e.course.check.Done? && e.course.arm.Done? then RowOf(w, site, x, e, text, fs)
         else |x.versions| == |w.versions|
  {
  }

  /** A version is recorded exactly when, besides, BIRD said so; the row carries the text and the
      files, the backup of what was on disk, and a deadline one timeout from now. */
  lemma {:induction false} RecordsExactly(w: World, site: Site, e: Event, text: string, fs: FileSet)
    requires Sound(w, site) && IsApply(e) && Applies(w, e, text, fs)
    ensures var x := Next(w, site, e);
      && x.hash == w.hash
      && if GoesAhead(w, site, e, text) && e.course.wrote && e.course.check.Done? && e.course.arm.Done? then
           RowOf(w, site, x, e, text, fs)
         else |x.versions| == |w.versions|
  {
    var w1 := Reconciled(w, e.now);
    NothingLiveMeans(w, site, e.now);
    CaughtUp(w, e.now);
    NextIsApplied(w, site, e, text, fs);
    if GoesAhead(w, site, e, text) {
      PipelineRecords(w1, site, text, fs, e);
    } else {
      PipelineStops(w1, site, text, fs, e.now, e.name, e.course);
    }
  }

  /** A stored version that is gone cannot be applied. */
  lemma {:induction false} UnknownVersionDoesNothing(w: World, site: Site, e: Event)
    requires e.Reapply? && e.id >= |w.versions|
    ensures !Touches(w, site, e)
  {
  }

  /** Whatever an apply does, it leaves the files on disk as they were; where there was no bird.conf,
      stale .conf files are gone too. */
  lemma {:induction false} ApplyPutsBack(w: World, site: Site, e: Event)
    requires IsApply(e)
    ensures var x := Next(w, site, e);
      x.disk == w.disk || (w.disk.entry.None? && x.disk == Disk(None, Others(w.disk.files)))
  {
    RestoreUndoes(w.disk, w.disk);
  }

  // ----- until it is adopted

  /** The state, since the files were edited: nothing on record has moved. */
  ghost predicate Held(w: World, site: Site, edit: Disk, x: World) {
    && Sound(x, site) && x.disk == edit && x.hash == w.hash && |x.versions| == |w.versions| && x.backups == w.backups
    && (PendingIn(w.versions).None? ==> PendingIn(x.versions).None?)
  }

  lemma {:induction false} HeldStep(w: World, site: Site, edit: Disk, x: World, e: Event)
    requires Held(w, site, edit, x) && Read(site.dir, edit) != w.hash && Possible(x, site, e)
    requires !e.Adopt? && !e.Edit? && (PendingIn(w.versions).None? || !e.Confirm?)
    ensures Held(w, site, edit, Next(x, site, e))
  {
    SoundStep(x, site, e);
    NotTouched(x, site, e);
  }

  lemma {:induction false} RefusedNow(w: World, site: Site, e: Event)
    requires Sound(w, site) && Read(site.dir, w.disk) != w.hash && IsApply(e)
    ensures !Touches(w, site, e)
  {
    if Touches(w, site, e) { TouchesOnlyItsOwn(w, site, e); }
  }

  /** Once the files are edited away from what birdy recorded, no apply touches anything -- BIRD is
      not armed, nothing is backed up or recorded -- until birdy adopts them, somebody edits them
      back, or a version that was already pending is confirmed. */
  lemma {:induction false} RefusedUntilAdopted(w: World, site: Site, edit: Disk, run: seq<Event>, k: nat)
    requires Sound(w, site) && Read(site.dir, edit) != w.hash && k <= |run|
    requires PossibleRun(w.(disk := edit), site, run)
    requires forall j | 0 <= j < |run| :: !run[j].Adopt? && !run[j].Edit?
    requires PendingIn(w.versions).None? || forall j | 0 <= j < |run| :: !run[j].Confirm?
    ensures var x := Exec(w.(disk := edit), site, run[..k]);
      Held(w, site, edit, x) && (k < |run| && IsApply(run[k]) ==> !Touches(x, site, run[k]))
  {
    var start := w.(disk := edit);
    if k > 0 {
      RefusedUntilAdopted(w, site, edit, run, k - 1);
      assert run[..k][..k - 1] == run[..k - 1] && run[..k][k - 1] == run[k - 1];
      HeldStep(w, site, edit, Exec(start, site, run[..k - 1]), run[k - 1]);
    }
    if k < |run| && IsApply(run[k]) { RefusedNow(Exec(start, site, run[..k]), site, run[k]); }
  }

  /** A refused apply does no more than catch up. */
  lemma {:induction false} RefusedIs(w: World, site: Site, e: Event)
    requires IsApply(e) && Read(site.dir, w.disk) != w.hash
    ensures Next(w, site, e) == Reconciled(w, e.now)
  {
    CaughtUp(w, e.now);
    if e.Apply? || e.id < |w.versions| {
      var text := if e.Apply? then Bodies(e.fs.includes) else w.versions[e.id].text;
      var fs := if e.Apply? then e.fs else w.versions[e.id].fs;
      NextIsApplied(w, site, e, text, fs);
      PipelineStops(Reconciled(w, e.now), site, text, fs, e.now, e.name, e.course);
    }
  }

  lemma {:induction false} NotTouched(w: World, site: Site, e: Event)
    requires Sound(w, site) && Read(site.dir, w.disk) != w.hash && !e.Adopt? && !e.Edit?
    requires PendingIn(w.versions).None? || !e.Confirm?
    ensures var x := Next(w, site, e);
      && x.disk == w.disk && x.hash == w.hash && |x.versions| == |w.versions| && x.backups == w.backups
      && (PendingIn(w.versions).None? ==> PendingIn(x.versions).None?)
  {
    if IsApply(e) {
      RefusedIs(w, site, e);
      CaughtUp(w, e.now);
    } else {
      OthersTouchNothing(w, site, e);
    }
  }

  lemma {:induction false} OthersTouchNothing(w: World, site: Site, e: Event)
    requires !IsApply(e) && !e.Adopt? && !e.Edit? && (PendingIn(w.versions).None? || !e.Confirm?)
    ensures var x := Next(w, site, e);
      && x.disk == w.disk && x.hash == w.hash && |x.versions| == |w.versions| && x.backups == w.backups
      && (PendingIn(w.versions).None? ==> x.versions == w.versions)
  {
  }

  /** An adoption backs up what is there and records it as birdy's; the running daemon and the
      versions are left alone, and the next apply of another text goes ahead. */
  lemma {:induction false} AdoptionOwns(w: World, site: Site, name: string, next: Event, text: string)
    requires Sound(w, site) && Possible(w, site, Adopt(name)) && IsApply(next)
    ensures var x := Next(w, site, Adopt(name));
      && x.hash == Read(site.dir, w.disk) && x.disk == w.disk && x.daemon == w.daemon && x.versions == w.versions
      && (w.disk.entry.Some? ==> x.backups == w.backups[name := Kept(w.disk)])
      && (w.disk.entry.None? ==> x.backups == w.backups)
      && (GoesAhead(x, site, next, text) <==>
            NothingLive(w, next.now) && Read(site.dir, w.disk) != Some(text) && next.course.preflight)
  {
  }

  // ----- how a pending version ends

  lemma {:induction false} PipelineKeepsRows(w: World, site: Site, text: string, fs: FileSet, now: nat, name: string,
                                             course: Course, id: nat)
    requires id < |w.versions|
    ensures var x := Applied(w, site, text, fs, now, name, course); id < |x.versions| && x.versions[id] == w.versions[id]
  {
  }

  /** An apply touches no version it did not add, but that it catches up. */
  lemma {:induction false} ApplyKeepsRows(w: World, site: Site, e: Event, id: nat)
    requires IsApply(e) && id < |w.versions|
    ensures var x := Next(w, site, e); id < |x.versions| && x.versions[id] == Reconciled(w, e.now).versions[id]
  {
    CaughtUp(w, e.now);
    if e.Apply? || e.id < |w.versions| {
      var text := if e.Apply? then Bodies(e.fs.includes) else w.versions[e.id].text;
      var fs := if e.Apply? then e.fs else w.versions[e.id].fs;
      NextIsApplied(w, site, e, text, fs);
      PipelineKeepsRows(Reconciled(w, e.now), site, text, fs, e.now, e.name, e.course, id);
    }
  }

  lemma {:induction false} CatchingUp(w: World, site: Site, now: nat, id: nat)
    requires Sound(w, site) && id < |w.versions| && w.versions[id].status == Pending
    ensures Reconciled(w, now).versions[id].status == if PastDeadline(w.versions[id], now) then Reverted else Pending
  {
    OnlyPending(w, site, id);
  }

  /** A version is recorded as confirmed exactly by a confirmation BIRD acknowledged, at a time the
      deadline has not passed. */
  lemma {:induction false} ConfirmedExactly(w: World, site: Site, e: Event, id: nat)
    requires Sound(w, site) && id < |w.versions| && w.versions[id].status == Pending
    ensures var x := Next(w, site, e);
      && id < |x.versions|
      && (x.versions[id].status == Confirmed <==> e.Confirm? && e.reply.Done? && !PastDeadline(w.versions[id], e.now))
  {
    OnlyPending(w, site, id);
    if IsApply(e) {
      ApplyKeepsRows(w, site, e, id);
      CatchingUp(w, site, e.now, id);
    } else {
      OtherOutcome(w, site, e, id);
    }
  }

  lemma {:induction false} OtherOutcome(w: World, site: Site, e: Event, id: nat)
    requires !IsApply(e) && PendingIn(w.versions) == Some(id)
    ensures var x, late := Next(w, site, e), (e.Confirm? || e.Visit?) && PastDeadline(w.versions[id], e.now);
      && id < |x.versions|
      && x.versions[id].status ==
           if e.Rollback? || late then Reverted else if e.Confirm? && e.reply.Done? then Confirmed else Pending
  {
    if (e.Confirm? || e.Visit?) && PastDeadline(w.versions[id], e.now) {
      assert Reconciled(w, e.now).versions[id].status == Reverted;
    }
  }

  /** Files, hash and record then hold the version; BIRD keeps what it runs, disarmed. */
  lemma {:induction false} ConfirmationLeaves(w: World, site: Site, now: nat, id: nat)
    requires Sound(w, site) && id < |w.versions| && w.versions[id].status == Pending && !PastDeadline(w.versions[id], now)
    ensures var x := Next(w, site, Confirm(now, Done));
      && x.hash == Some(w.versions[id].text) && Read(site.dir, x.disk) == Some(w.versions[id].text)
      && x.versions == w.versions[id := w.versions[id].(status := Confirmed, deadline := None)] && x.backups == w.backups
      && x.daemon == w.daemon.(armed := false)
  {
    OnlyPending(w, site, id);
    ReadsBack(site.dir, w.disk, w.versions[id].fs, w.versions[id].text);
  }

  predicate PastDeadline(v: Version, now: nat) { v.deadline.Some? && now > v.deadline.value }

  lemma {:induction false} OnlyPending(w: World, site: Site, id: nat)
    requires Sound(w, site) && id < |w.versions| && w.versions[id].status == Pending
    ensures PendingIn(w.versions) == Some(id)
  {
  }

  /** It is recorded as reverted exactly by an undo, or by the first handler that looks after the
      deadline. */
  lemma {:induction false} RevertedExactly(w: World, site: Site, e: Event, id: nat)
    requires Sound(w, site) && id < |w.versions| && w.versions[id].status == Pending
    ensures var x := Next(w, site, e);
      && id < |x.versions|
      && (x.versions[id].status == Reverted <==>
            e.Rollback? || ((IsApply(e) || e.Confirm? || e.Visit?) && PastDeadline(w.versions[id], e.now)))
  {
    OnlyPending(w, site, id);
    if IsApply(e) {
      ApplyKeepsRows(w, site, e, id);
      CatchingUp(w, site, e.now, id);
    } else {
      OtherOutcome(w, site, e, id);
    }
  }

  /** An undo leaves the files and the record as they are; one that takes effect has BIRD, if armed,
      back at its fallback. */
  lemma {:induction false} UndoLeaves(w: World, site: Site, reply: Reply)
    requires PendingIn(w.versions).Some?
    ensures var x, id := Next(w, site, Rollback(reply)), PendingIn(w.versions).value;
      && x.disk == w.disk && x.hash == w.hash && x.backups == w.backups
      && x.versions == w.versions[id := w.versions[id].(status := Reverted, deadline := None)]
      && x.daemon == if (reply.Done? || (reply.Lost? && reply.tookEffect)) && w.daemon.armed
                     then Daemon(w.daemon.fallback, w.daemon.fallback, false) else w.daemon
  {
  }

  /** A confirmation BIRD did not acknowledge leaves the record alone: hash, versions and backups. */
  lemma {:induction false} UnconfirmedChangesNoRecord(w: World, site: Site, now: nat, reply: Reply)
    requires Sound(w, site) && !reply.Done?
    ensures var x := Next(w, site, Confirm(now, reply));
      x.hash == w.hash && x.backups == w.backups && x.versions == Next(w, site, Visit(now)).versions
  {
  }

  /** The version lists a run goes through. */
  function Histories(w: World, site: Site, run: seq<Event>): (h: seq<seq<Version>>)
    ensures |h| == |run| + 1
  {
    seq(|run| + 1, k requires 0 <= k <= |run| => Exec(w, site, run[..k]).versions)
  }

  /** What one step may do to the pending versions: keep them, and an apply may add one. */
  predicate Grows(a: seq<Version>, b: seq<Version>, e: Event, timeout: nat) {
    && |a| <= |b| <= |a| + 1
    && (forall k | 0 <= k < |a| && b[k].status == Pending :: b[k] == a[k])
    && (|b| == |a| + 1 ==> IsApply(e) && b[|a|].deadline == Some(e.now + timeout))
  }

  lemma {:induction false} StepGrows(w: World, site: Site, e: Event)
    requires Sound(w, site)
    ensures Grows(w.versions, Next(w, site, e).versions, e, site.timeout)
  {
    var x := Next(w, site, e);
    StepEvolves(w, site, e);
    if |x.versions| > |w.versions| { RecordedNow(w, site, e, |x.versions| - 1); }
    forall k | 0 <= k < |w.versions| && x.versions[k].status == Pending
      ensures x.versions[k] == w.versions[k]
    {
      StillPending(w, site, e, k);
    }
  }

  lemma {:induction false} RunGrows(w: World, site: Site, run: seq<Event>, k: nat)
    requires Sound(w, site) && PossibleRun(w, site, run) && k < |run|
    ensures Grows(Histories(w, site, run)[k], Histories(w, site, run)[k + 1], run[k], site.timeout)
  {
    assert Histories(w, site, run)[k] == Exec(w, site, run[..k]).versions;
    assert Histories(w, site, run)[k + 1] == Exec(w, site, run[..k + 1]).versions;
    assert run[..k + 1][..k] == run[..k] && run[..k + 1][k] == run[k];
    PrefixPossible(w, site, run, k);
    HistoryIsStable(w, site, run[..k]);
    StepGrows(Exec(w, site, run[..k]), site, run[k]);
  }

  lemma {:induction false} PrefixPossible(w: World, site: Site, run: seq<Event>, k: nat)
    requires PossibleRun(w, site, run) && k <= |run|
    ensures PossibleRun(w, site, run[..k])
  {
    forall j | 0 <= j < k
      ensures Possible(Exec(w, site, run[..k][..j]), site, run[..k][j])
    {
      assert run[..k][..j] == run[..j];
    }
  }

  predicate GrowsAt(h: seq<seq<Version>>, run: seq<Event>, timeout: nat, k: nat)
    requires k < |run| < |h|
  {
    Grows(h[k], h[k + 1], run[k], timeout)
  }

  lemma {:induction false} AddedAt(h: seq<seq<Version>>, run: seq<Event>, timeout: nat, n: nat, id: nat) returns (j: nat)
    requires |h| == |run| + 1 && n <= |run| && forall k | 0 <= k < |run| :: GrowsAt(h, run, timeout, k)
    requires |h[0]| <= id < |h[n]| && h[n][id].status == Pending
    ensures j < n && IsApply(run[j]) && |h[j]| == id < |h[j + 1]| && h[n][id].deadline == Some(run[j].now + timeout)
  {
    assert GrowsAt(h, run, timeout, n - 1);
    if id < |h[n - 1]| { j := AddedAt(h, run, timeout, n - 1, id); } else { j := n - 1; }
  }

  lemma {:induction false} AllGrow(w: World, site: Site, run: seq<Event>)
    requires Sound(w, site) && PossibleRun(w, site, run)
    ensures var h := Histories(w, site, run);
      forall k | 0 <= k < |run| :: GrowsAt(h, run, site.timeout, k)
  {
    forall k | 0 <= k < |run|
      ensures GrowsAt(Histories(w, site, run), run, site.timeout, k)
    {
      RunGrows(w, site, run, k);
    }
  }

  lemma {:induction false} HistoryEnds(w: World, site: Site, run: seq<Event>)
    ensures Histories(w, site, run)[0] == w.versions && Histories(w, site, run)[|run|] == Exec(w, site, run).versions
  {
    assert run[..|run|] == run && run[..0] == [];
  }

  /** Version `id`, still pending at the end, was recorded by the j-th event, an apply, one timeout
      before its deadline. */
  predicate AddedBy(h: seq<seq<Version>>, run: seq<Event>, timeout: nat, id: nat, j: nat) {
    && j < |run| && |h| == |run| + 1 && IsApply(run[j]) && |h[j]| == id < |h[j + 1]|
    && id < |h[|run|]| && h[|run|][id].deadline == Some(run[j].now + timeout)
  }

  lemma {:induction false} SomeoneAdded(h: seq<seq<Version>>, run: seq<Event>, timeout: nat, id: nat) returns (j: nat)
    requires |h| == |run| + 1 && forall k | 0 <= k < |run| :: GrowsAt(h, run, timeout, k)
    requires |h[0]| <= id < |h[|run|]| && h[|run|][id].status == Pending
    ensures AddedBy(h, run, timeout, id, j)
  {
    j := AddedAt(h, run, timeout, |run|, id);
  }

  predicate StillPendingIn(h: seq<seq<Version>>, id: nat) { h != [] && |h[0]| <= id < |h[|h| - 1]| && h[|h| - 1][id].status == Pending }

  /** Over every run: a version still pending was recorded by an apply of that run, and its deadline
      is one timeout after that apply. */
  lemma {:induction false} PendingSince(w: World, site: Site, run: seq<Event>, id: nat) returns (j: nat)
    requires Sound(w, site) && PossibleRun(w, site, run) && StillPendingIn(Histories(w, site, run), id)
    ensures AddedBy(Histories(w, site, run), run, site.timeout, id, j)
  {
    AllGrow(w, site, run);
    j := SomeoneAdded(Histories(w, site, run), run, site.timeout, id);
  }

  lemma {:induction false} StillPending(w: World, site: Site, e: Event, id: nat)
    requires id < |w.versions| && id < |Next(w, site, e).versions| && Next(w, site, e).versions[id].status == Pending
    ensures w.versions[id] == Next(w, site, e).versions[id]
  {
    StepEvolves(w, site, e);
  }

  lemma {:induction false} RecordedNow(w: World, site: Site, e: Event, id: nat)
    requires Sound(w, site) && |w.versions| <= id < |Next(w, site, e).versions|
    ensures IsApply(e) && id == |w.versions| && Next(w, site, e).versions[id].deadline == Some(e.now + site.timeout)
  {
    if e.Apply? || (e.Reapply? && e.id < |w.versions|) {
      var text := if e.Apply? then Bodies(e.fs.includes) else w.versions[e.id].text;
      var fs := if e.Apply? then e.fs else w.versions[e.id].fs;
      RecordsExactly(w, site, e, text, fs);
    } else {
      NothingRecorded(w, site, e);
    }
  }

  lemma {:induction false} NothingRecorded(w: World, site: Site, e: Event)
    requires !IsApply(e) || (e.Reapply? && e.id >= |w.versions|)
    ensures |Next(w, site, e).versions| == |w.versions|
  {
  }

  /** So a handler that looks after the run finds it pending until one timeout after that apply, and
      records it as reverted when it looks later. */
  lemma {:induction false} RevertsAfterTimeout(w: World, site: Site, run: seq<Event>, id: nat, now: nat) returns (j: nat)
    requires Sound(w, site) && PossibleRun(w, site, run)
    requires var x := Exec(w, site, run); |w.versions| <= id < |x.versions| && x.versions[id].status == Pending
    ensures AddedBy(Histories(w, site, run), run, site.timeout, id, j)
    ensures var x := Next(Exec(w, site, run), site, Visit(now));
      id < |x.versions| && x.versions[id].status == if now > run[j].now + site.timeout then Reverted else Pending
  {
    HistoryEnds(w, site, run);
    HistoryIsStable(w, site, run);
    j := PendingSince(w, site, run, id);
    VisitDecides(Exec(w, site, run), site, now, id);
  }

  lemma {:induction false} VisitDecides(w: World, site: Site, now: nat, id: nat)
    requires Sound(w, site) && id < |w.versions| && w.versions[id].status == Pending
    ensures var x := Next(w, site, Visit(now));
      id < |x.versions| && x.versions[id].status == if PastDeadline(w.versions[id], now) then Reverted else Pending
  {
    OnlyPending(w, site, id);
  }
}
