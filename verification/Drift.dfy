/** The background check that alerts when the files stop matching what birdy applied.
    (internal/web/drift.go) */
module Drift {
  import opened Options
  import opened ConfigFiles
  import opened ApplyProtocol
  import opened ApplySafety

  /** What a drift alert is about: the configuration is gone, or holds this text. */
  datatype Seen = Missing | Holds(text: string)

  /** What one check looks at. No hash also stands for settings that cannot be read. */
  datatype Check = Check(hash: Option<string>, pending: bool, readable: bool, disk: Option<string>) {
    function State(): Seen { if disk.None? then Missing else Holds(disk.value) }

    predicate InSync() { hash.Some? && !pending && readable && disk == hash }

    predicate Drifted() { hash.Some? && !pending && readable && disk != hash }
  }

  /** The state last alerted about after a check, and the alert it raised. */
  function Alert(last: Option<Seen>, c: Check): (Option<Seen>, Option<Seen>) {
    if c.hash.None? || c.InSync() then (None, None)
    else if !c.Drifted() || last == Some(c.State()) then (last, None)
    else (Some(c.State()), Some(c.State()))
  }

  function LastAfter(checks: seq<Check>): Option<Seen> {
    if checks == [] then None else Alert(LastAfter(checks[..|checks| - 1]), checks[|checks| - 1]).0
  }

  function AlertAt(checks: seq<Check>, k: nat): Option<Seen>
    requires k < |checks|
  {
    Alert(LastAfter(checks[..k]), checks[k]).1
  }

  /** What is on disk is what `s` says. */
  predicate Shows(disk: Option<string>, s: Seen) {
    match s
    case Missing => disk.None?
    case Holds(text) => disk == Some(text)
  }

  /** Nothing stands in the way of comparing: birdy owns a configuration, nothing is pending, and the
      files can be read. */
  predicate Comparable(c: Check) { c.hash.Some? && !c.pending && c.readable }

  /** Between two alerts about the same state: birdy owned nothing for a moment, the files were
      back in sync, or another state was alerted. */
  predicate Separates(checks: seq<Check>, m: nat, s: Seen)
    requires m < |checks|
  {
    || checks[m].hash.None? || (Comparable(checks[m]) && checks[m].disk == checks[m].hash)
    || (AlertAt(checks, m).Some? && AlertAt(checks, m) != Some(s))
  }

  ghost predicate NothingBetween(checks: seq<Check>, i: nat, k: nat, s: Seen)
    requires k <= |checks|
  {
    forall m | i < m < k :: !Separates(checks, m, s)
  }

  /** The alert raised for `s` still stands before check `k`. */
  ghost predicate Standing(checks: seq<Check>, k: nat, s: Seen)
    requires k <= |checks|
  {
    exists i | 0 <= i < k :: AlertAt(checks, i) == Some(s) && NothingBetween(checks, i, k, s)
  }

  lemma {:induction false} LastNext(checks: seq<Check>, k: nat, s: Seen)
    requires k < |checks|
    ensures LastAfter(checks[..k + 1]) == Some(s) <==>
              AlertAt(checks, k) == Some(s) || (LastAfter(checks[..k]) == Some(s) && !Separates(checks, k, s))
  {
    assert checks[..k + 1][..k] == checks[..k];
  }

  lemma {:induction false} StandingNext(checks: seq<Check>, k: nat, s: Seen)
    requires k < |checks|
    ensures Standing(checks, k + 1, s) <==>
              AlertAt(checks, k) == Some(s) || (Standing(checks, k, s) && !Separates(checks, k, s))
  {
    if AlertAt(checks, k) == Some(s) {
      assert NothingBetween(checks, k, k + 1, s);
    } else if Standing(checks, k, s) && !Separates(checks, k, s) {
      var i :| 0 <= i < k && AlertAt(checks, i) == Some(s) && NothingBetween(checks, i, k, s);
      assert NothingBetween(checks, i, k + 1, s);
    }
    if Standing(checks, k + 1, s) && AlertAt(checks, k) != Some(s) {
      var i :| 0 <= i < k + 1 && AlertAt(checks, i) == Some(s) && NothingBetween(checks, i, k + 1, s);
      assert NothingBetween(checks, i, k, s);
    }
  }

  lemma {:induction false} LastIsStanding(checks: seq<Check>, k: nat, s: Seen)
    requires k <= |checks|
    ensures LastAfter(checks[..k]) == Some(s) <==> Standing(checks, k, s)
  {
    if k > 0 {
      LastIsStanding(checks, k - 1, s);
      LastNext(checks, k - 1, s);
      StandingNext(checks, k - 1, s);
    }
  }

  /** A check alerts exactly when the files can be compared, are not what birdy applied, and no alert
      about what they are stands already. */
  lemma {:induction false} AlertsExactlyWhenNew(checks: seq<Check>, k: nat, s: Seen)
    requires k < |checks|
    ensures AlertAt(checks, k) == Some(s) <==>
              && Comparable(checks[k]) && checks[k].disk != checks[k].hash && Shows(checks[k].disk, s)
              && !Standing(checks, k, s)
  {
    LastIsStanding(checks, k, s);
  }

  /** Two alerts about the same state on disk are separated. */
  lemma {:induction false} AlertsAreSeparated(checks: seq<Check>, i: nat, j: nat, s: Seen)
    requires i < j < |checks| && AlertAt(checks, i) == Some(s) && AlertAt(checks, j) == Some(s)
    ensures exists m | i < m < j :: Separates(checks, m, s)
  {
    AlertsExactlyWhenNew(checks, j, s);
  }

  // ----- the checks of a server

  function CheckOf(w: World, site: Site, readable: bool): Check {
    Check(w.hash, PendingIn(w.versions).Some?, readable, Read(site.dir, w.disk))
  }

  /** What a check looks at in the state: whether any version is pending, and the files as they are read. */
  lemma {:induction false} ChecksTheState(w: World, site: Site, last: Option<Seen>, readable: bool, s: Seen)
    ensures Alert(last, CheckOf(w, site, readable)).1 == Some(s) <==>
              && w.hash.Some? && readable && (forall k | 0 <= k < |w.versions| :: w.versions[k].status != Pending)
              && Read(site.dir, w.disk) != w.hash && Shows(Read(site.dir, w.disk), s) && last != Some(s)
  {
    var pending := PendingIn(w.versions);
    if pending.Some? { assert w.versions[pending.value].status == Pending; }
  }

  /** While nobody edits the files no check ever alerts. */
  lemma {:induction false} NoFalseAlarm(w: World, site: Site, run: seq<Event>, last: Option<Seen>, readable: bool)
    requires InSync(w, site) && PossibleRun(w, site, run) && NoEdits(run)
    ensures Alert(last, CheckOf(Exec(w, site, run), site, readable)).1.None?
  {
    OwnershipHolds(w, site, run);
  }

  class Watcher {
    const server: Server
    var lastAlerted: Option<Seen>

    constructor (server: Server)
      ensures this.server == server && lastAlerted.None?
    {
      this.server := server;
      lastAlerted := None;
    }

    method CheckDrift(readable: bool) returns (alert: Option<Seen>)
      requires server.Valid()
      modifies `lastAlerted
      ensures (lastAlerted, alert) == Alert(old(lastAlerted), CheckOf(server.State(), server.site, readable))
    {
      if server.hash.None? {
        lastAlerted := None;
        return None;
      }
      var pending := server.PendingConfigVersion();
      if pending.Some? || !readable { return None; }
      var logical := server.conf.ReadLogicalConfig();
      if logical.Some? && logical == server.hash {
        lastAlerted := None;
        return None;
      }
      var seen := if logical.None? then Missing else Holds(logical.value);
      if lastAlerted == Some(seen) { return None; }
      lastAlerted := Some(seen);
      return Some(seen);
    }
  }
}
