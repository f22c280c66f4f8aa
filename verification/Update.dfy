/**
 * Installing an agent update and deciding its fate: the renames of performAgentUpgrade with their undo steps, and
 * commit, rollback and the watchdog, over a file system whose operations may fail.
 */
module Update {
  import opened Basics

  /** The paths involved: the running binary, its backup, the failed one, the download, and the pending-update file. */
  datatype Path = Current | Previous | FailedCopy | Downloaded | PendingTmp | Pending

  /** A binary, or the pending-update record. */
  datatype File = Binary(version: string) | Record(target: string)

  type Fs = map<Path, File>

  function Without(fs: Fs, p: Path): Fs {
    fs - {p}
  }

  function Moved(fs: Fs, source: Path, target: Path): Fs
    requires source in fs
  {
    (fs - {source})[target := fs[source]]
  }

  /** Which system calls of one installation succeed. A rename also needs its source to exist. */
  datatype Calls = Calls(
    removeOld: bool, backup: bool, install: bool, undoInstall: bool,
    makeDir: bool, writeTmp: bool, renameTmp: bool, removeNew: bool, undoRecord: bool)

  // ---------- The file system as the update code sees it ----------

  class Disk {
    var fs: Fs
    /** Every state the disk has been in, oldest first. */
    ghost var trace: seq<Fs>

    ghost predicate Valid()
      reads this
    {
      trace != [] && trace[|trace| - 1] == fs
    }

    constructor (fs: Fs)
      ensures Valid() && this.fs == fs && trace == [fs]
    {
      this.fs := fs;
      trace := [fs];
    }

    method Remove(p: Path, ok: bool) returns (done: bool)
      requires Valid()
      modifies this
      ensures Valid()
      ensures done == (ok && p in old(fs))
      ensures fs == if ok then Without(old(fs), p) else old(fs)
      ensures trace == old(trace) + [fs]
    {
      done := ok && p in fs;
      if done {
        fs := fs - {p};
      }
      assert p !in old(fs) ==> Without(old(fs), p) == old(fs);
      trace := trace + [fs];
    }

    method Rename(source: Path, target: Path, ok: bool) returns (done: bool)
      requires Valid() && source != target
      modifies this
      ensures Valid()
      ensures done == (ok && source in old(fs))
      ensures fs == if done then Moved(old(fs), source, target) else old(fs)
      ensures trace == old(trace) + [fs]
    {
      done := ok && source in fs;
      if done {
        fs := (fs - {source})[target := fs[source]];
      }
      trace := trace + [fs];
    }

    method Write(p: Path, f: File, ok: bool)
      requires Valid()
      modifies this
      ensures Valid()
      ensures fs == if ok then old(fs)[p := f] else old(fs)
      ensures trace == old(trace) + [fs]
    {
      if ok {
        fs := fs[p := f];
      }
      trace := trace + [fs];
    }

    /** writePending: a temporary file, renamed into place. */
    method WritePending(target: string, c: Calls) returns (ok: bool)
      requires Valid()
      modifies this
      ensures Valid()
      ensures ok == (c.makeDir && c.writeTmp && c.renameTmp)
      ensures fs == (if !c.makeDir || !c.writeTmp then old(fs)
                     else if !c.renameTmp then old(fs)[PendingTmp := Record(target)]
                     else Moved(old(fs)[PendingTmp := Record(target)], PendingTmp, Pending))
      ensures old(trace) <= trace
      ensures forall i :: |old(trace)| <= i < |trace| ==> SameBinaries(trace[i], old(fs))
    {
      if !c.makeDir {
        return false;
      }
      Write(PendingTmp, Record(target), c.writeTmp);
      if !c.writeTmp {
        return false;
      }
      ok := Rename(PendingTmp, Pending, c.renameTmp);
    }

    /** The last part of an installation: record it as pending, or undo both renames. */
    method RecordOrUndo(target: string, c: Calls) returns (ok: bool)
      requires Valid() && Previous in fs
      modifies this
      ensures Valid()
      ensures (fs, ok) == RecordedOrUndone(old(fs), target, c)
      ensures old(trace) <= trace
      ensures forall i :: |old(trace)| <= i < |trace| ==> Survives(old(fs)[Previous], trace[i])
    {
      ok := WritePending(target, c);
      assert Survives(old(fs)[Previous], fs);
      if !ok {
        var done := Remove(Current, c.removeNew);
        assert Survives(old(fs)[Previous], fs);
        done := Rename(Previous, Current, c.undoRecord);
        assert Survives(old(fs)[Previous], fs);
      }
    }

    /** The installation part of performAgentUpgrade, after the download has been verified. */
    method Install(target: string, c: Calls) returns (ok: bool)
      requires Valid()
      modifies this
      ensures Valid()
      ensures (fs, ok) == Installed(old(fs), target, c)
      ensures old(trace) <= trace
      ensures Current in old(fs) ==>
        forall i :: |old(trace)| <= i < |trace| ==> Survives(old(fs)[Current], trace[i])
    {
      hide RecordedOrUndone;
      var done := Remove(Previous, c.removeOld);
      ok := Rename(Current, Previous, c.backup);
      if !ok {
        return;
      }
      ok := Rename(Downloaded, Current, c.install);
      if !ok {
        done := Rename(Previous, Current, c.undoInstall);
        return;
      }
      ok := RecordOrUndo(target, c);
    }

    /** rollbackAgentBinary, its system calls succeeding whenever their source exists. */
    method Rollback() returns (ok: bool)
      requires Valid()
      modifies this
      ensures Valid()
      ensures (fs, ok) == RolledBack(old(fs))
    {
      if Pending !in fs || !fs[Pending].Record? {
        return false;
      }
      var done := Remove(FailedCopy, true);
      if Current in fs {
        done := Rename(Current, FailedCopy, true);
      }
      ok := Rename(Previous, Current, true);
      if !ok {
        return;
      }
      done := Remove(Pending, true);
    }

    /** commitAgentUpdate, likewise. */
    method CommitUpdate() returns (ok: bool)
      requires Valid()
      modifies this
      ensures Valid()
      ensures (fs, ok) == Committed(old(fs))
    {
      if Pending !in fs {
        return true;
      }
      if !fs[Pending].Record? {
        return false;
      }
      var done := Remove(Previous, true);
      ok := Remove(Pending, true);
    }
  }

  ghost predicate SameBinaries(a: Fs, b: Fs) {
    forall p :: p in {Current, Previous, FailedCopy, Downloaded} ==> (p in a <==> p in b) && (p in a ==> a[p] == b[p])
  }

  /** The binary is at the running path or at the backup path. */
  predicate Survives(f: File, fs: Fs) {
    (Current in fs && fs[Current] == f) || (Previous in fs && fs[Previous] == f)
  }

  function RecordedOrUndone(fs: Fs, target: string, c: Calls): (Fs, bool)
    requires Previous in fs
  {
    if c.makeDir && c.writeTmp && c.renameTmp then
      (Moved(fs[PendingTmp := Record(target)], PendingTmp, Pending), true)
    else
      var fs1 := if c.makeDir && c.writeTmp then fs[PendingTmp := Record(target)] else fs;
      var fs2 := if c.removeNew then Without(fs1, Current) else fs1;
      (if c.undoRecord then Moved(fs2, Previous, Current) else fs2, false)
  }

  function Installed(fs: Fs, target: string, c: Calls): (Fs, bool) {
    var fs1 := if c.removeOld then Without(fs, Previous) else fs;
    if !c.backup || Current !in fs1 then (fs1, false)
    else
      var fs2 := Moved(fs1, Current, Previous);
      if !c.install || Downloaded !in fs2 then
        (if c.undoInstall then Moved(fs2, Previous, Current) else fs2, false)
      else RecordedOrUndone(Moved(fs2, Downloaded, Current), target, c)
  }

  // ---------- Installation ----------

  /**
   * What an installation leaves, as long as the renames that undo it succeed: on success the new binary is current, the
   * old one is kept as previous, and the update is recorded as pending; on failure the old binary is current again and
   * no new update is pending.
   */
  lemma InstallOutcome(fs: Fs, target: string, c: Calls)
    requires Current in fs && c.undoInstall && c.undoRecord
    ensures var (fs', ok) := Installed(fs, target, c);
      if ok then
        && Downloaded in fs && fs'.Keys >= {Current, Previous, Pending}
        && fs'[Current] == fs[Downloaded] && fs'[Previous] == fs[Current] && fs'[Pending] == Record(target)
      else
        && Current in fs' && fs'[Current] == fs[Current]
        && (Pending in fs' <==> Pending in fs) && (Pending in fs ==> fs'[Pending] == fs[Pending])
  {
  }

  /** An installation succeeds exactly when there are a running binary and a download, and each of its steps works. */
  lemma InstallSucceedsExactly(fs: Fs, target: string, c: Calls)
    ensures Installed(fs, target, c).1 <==>
      Current in fs && Downloaded in fs && c.backup && c.install && c.makeDir && c.writeTmp && c.renameTmp
  {
  }

  // ---------- Deciding an update ----------

  /** rollbackAgentBinary with successful system calls; false when it returns an error. */
  function RolledBack(fs: Fs): (Fs, bool) {
    if Pending !in fs || !fs[Pending].Record? then (fs, false)
    else
      var fs1 := Without(fs, FailedCopy);
      var fs2 := if Current in fs1 then Moved(fs1, Current, FailedCopy) else fs1;
      if Previous !in fs2 then (fs2, false)
      else (Without(Moved(fs2, Previous, Current), Pending), true)
  }

  /** commitAgentUpdate; nothing pending is not an error. */
  function Committed(fs: Fs): (Fs, bool) {
    if Pending !in fs then (fs, true)
    else if !fs[Pending].Record? then (fs, false)
    else (Without(Without(fs, Previous), Pending), true)
  }

  /** The watchdog wakes up and rolls back whatever is still pending. */
  function WatchdogFired(fs: Fs): Fs {
    if Pending !in fs then fs else RolledBack(fs).0
  }

  datatype Decision = Commit | Rollback | Watchdog

  function Decided(fs: Fs, d: Decision): Fs {
    match d
    case Commit => Committed(fs).0
    case Rollback => RolledBack(fs).0
    case Watchdog => WatchdogFired(fs)
  }

  function AllDecided(fs: Fs, ds: seq<Decision>): Fs
    decreases ds
  {
    if ds == [] then fs else AllDecided(Decided(fs, ds[0]), ds[1..])
  }

  lemma {:induction false} NothingPendingNothingHappens(fs: Fs, ds: seq<Decision>)
    requires Pending !in fs
    ensures AllDecided(fs, ds) == fs
    decreases ds
  {
    if ds != [] {
      NothingPendingNothingHappens(fs, ds[1..]);
    }
  }

  /** The state an update is decided in: the new binary running, the old one kept, the record written. */
  ghost predicate Undecided(fs: Fs) {
    Pending in fs && fs[Pending].Record? && Current in fs && Previous in fs
  }

  /**
   * The first decision after an installation settles it: commit keeps the new binary and drops the backup, rollback and
   * the watchdog restore the old one and keep the new one aside; any further decisions change nothing.
   */
  lemma FirstDecisionWins(fs: Fs, ds: seq<Decision>)
    requires Undecided(fs) && ds != []
    ensures var fs' := AllDecided(fs, ds);
      && fs' == Decided(fs, ds[0]) && Pending !in fs'
      && (ds[0] == Commit ==> Current in fs' && fs'[Current] == fs[Current] && Previous !in fs')
      && (ds[0] != Commit ==>
            && Current in fs' && fs'[Current] == fs[Previous]
            && FailedCopy in fs' && fs'[FailedCopy] == fs[Current] && Previous !in fs')
  {
    NothingPendingNothingHappens(Decided(fs, ds[0]), ds[1..]);
  }

  /** A successful installation followed by any decisions: the running binary is the new or the old one, never lost. */
  lemma InstallThenDecide(fs: Fs, target: string, c: Calls, ds: seq<Decision>)
    requires Current in fs && c.undoInstall && c.undoRecord && Installed(fs, target, c).1
    ensures var fs' := AllDecided(Installed(fs, target, c).0, ds);
      && Downloaded in fs && Current in fs'
      && fs'[Current] == (if ds != [] && ds[0] != Commit then fs[Current] else fs[Downloaded])
  {
    InstallOutcome(fs, target, c);
    if ds != [] {
      FirstDecisionWins(Installed(fs, target, c).0, ds);
    }
  }

  // ---------- Where the protection ends ----------

  /** A rollback of a pending update leaves a binary at the running path if and only if the backup was there. */
  lemma RollbackNeedsBackup(fs: Fs)
    requires Pending in fs && fs[Pending].Record?
    ensures Current in RolledBack(fs).0 <==> Previous in fs
    ensures RolledBack(fs).1 <==> Previous in fs
  {
  }

  /**
   * A second upgrade attempted while the first is still pending: when it fails, the record of the first stays but its
   * backup does not, so the first one's watchdog then removes the running binary, unless the failed upgrade neither
   * deleted nor replaced the backup.
   */
  lemma FailedSecondUpgradeThenWatchdog(fs: Fs, target: string, c: Calls)
    requires Undecided(fs) && c.undoInstall && c.undoRecord && !Installed(fs, target, c).1
    ensures var fs' := Installed(fs, target, c).0;
      && Current in fs' && fs'[Current] == fs[Current]
      && (Current in WatchdogFired(fs') <==> !c.removeOld && !c.backup)
  {
    InstallOutcome(fs, target, c);
    RollbackNeedsBackup(Installed(fs, target, c).0);
  }

  /**
   * Exactly when a failed upgrade is safe: however its system calls fail, undo steps excepted, a watchdog firing
   * afterwards leaves a binary in place if and only if no update was pending before the attempt.
   */
  lemma FailedUpgradeSafeExactly(fs: Fs, target: string)
    requires Current in fs
    ensures (forall c: Calls :: c.undoInstall && c.undoRecord && !Installed(fs, target, c).1 ==>
               Current in WatchdogFired(Installed(fs, target, c).0))
      <==> !(Pending in fs && fs[Pending].Record?)
  {
    if Pending in fs && fs[Pending].Record? {
      var c := Calls(true, true, true, true, false, true, true, true, true);
      RollbackNeedsBackup(Installed(fs, target, c).0);
      assert !Installed(fs, target, c).1 && Current !in WatchdogFired(Installed(fs, target, c).0);
    } else {
      forall c: Calls | c.undoInstall && c.undoRecord && !Installed(fs, target, c).1
        ensures Current in WatchdogFired(Installed(fs, target, c).0)
      {
        InstallOutcome(fs, target, c);
      }
    }
  }

  /** A commit succeeds unless the record is unreadable; it then removes the record and the backup and nothing else. */
  lemma CommitExactly(fs: Fs)
    ensures Committed(fs).1 <==> !(Pending in fs && fs[Pending].Binary?)
    ensures Pending !in fs || fs[Pending].Binary? ==> Committed(fs).0 == fs
    ensures Pending in fs && fs[Pending].Record? ==>
      var fs' := Committed(fs).0;
      forall p :: (p in fs' <==> p in fs && p != Pending && p != Previous) && (p in fs' ==> fs'[p] == fs[p])
  {
  }

  // ---------- Many updates ----------

  /** Everything that moves binaries: an upgrade to a downloaded version, and the three ways to decide one. */
  datatype Event = Upgrade(version: string, c: Calls) | Confirmed | Reverted | Fired(install: nat)

  /** The disk, and how many upgrades were attempted. Upgrade number i, if installed, starts watchdog number i. */
  datatype World = World(fs: Fs, attempts: nat)

  function Attempted(fs: Fs, version: string, c: Calls): (Fs, bool) {
    Installed(fs[Downloaded := Binary(version)], version, c)
  }

  function Step(w: World, e: Event): World {
    match e
    case Upgrade(version, c) => World(Attempted(w.fs, version, c).0, w.attempts + 1)
    case Confirmed => w.(fs := Committed(w.fs).0)
    case Reverted => w.(fs := RolledBack(w.fs).0)
    case Fired(_) => w.(fs := WatchdogFired(w.fs))
  }

  /** The books: the binary that should be running, and the one to return to while an upgrade is undecided. */
  datatype Books = Books(running: File, undecided: Option<Fallback>)
  datatype Fallback = Fallback(binary: File, install: nat)

  function Booked(b: Books, w: World, e: Event): Books {
    match e
    case Upgrade(version, c) =>
      if Attempted(w.fs, version, c).1 then Books(Binary(version), Some(Fallback(b.running, w.attempts))) else b
    case Confirmed => b.(undecided := None)
    case Reverted => if b.undecided.Some? then Books(b.undecided.value.binary, None) else b
    case Fired(_) => if b.undecided.Some? then Books(b.undecided.value.binary, None) else b
  }

  ghost predicate Agree(w: World, b: Books) {
    && Current in w.fs && w.fs[Current] == b.running
    && (Pending in w.fs <==> b.undecided.Some?)
    && (b.undecided.Some? ==>
          w.fs[Pending].Record? && Previous in w.fs && w.fs[Previous] == b.undecided.value.binary
          && b.undecided.value.install < w.attempts)
  }

  /** Undo renames succeed, and an upgrade on top of an undecided one does not fail. */
  ghost predicate Sheltered(w: World, e: Event) {
    e.Upgrade? ==>
      && e.c.undoInstall && e.c.undoRecord
      && (Pending in w.fs ==> Attempted(w.fs, e.version, e.c).1)
  }

  lemma StepKeepsBooks(w: World, b: Books, e: Event)
    requires Agree(w, b) && Sheltered(w, e)
    ensures Agree(Step(w, e), Booked(b, w, e))
  {
    if e.Upgrade? {
      InstallOutcome(w.fs[Downloaded := Binary(e.version)], e.version, e.c);
    }
  }

  ghost predicate ShelteredRun(w: World, es: seq<Event>)
    decreases es
  {
    es == [] || (Sheltered(w, es[0]) && ShelteredRun(Step(w, es[0]), es[1..]))
  }

  function After(w: World, es: seq<Event>): World
    decreases es
  {
    if es == [] then w else After(Step(w, es[0]), es[1..])
  }

  function BookedAfter(b: Books, w: World, es: seq<Event>): Books
    decreases es
  {
    if es == [] then b else BookedAfter(Booked(b, w, es[0]), Step(w, es[0]), es[1..])
  }

  /**
   * Any interleaving of upgrades, commits, rollbacks and watchdogs: there is always a running binary, and it is the one
   * the books name, the newest version installed and not taken back.
   */
  lemma {:induction false} RunKeepsBooks(w: World, b: Books, es: seq<Event>)
    requires Agree(w, b) && ShelteredRun(w, es)
    ensures Agree(After(w, es), BookedAfter(b, w, es))
    decreases es
  {
    hide Step, Booked, Sheltered, Agree;
    if es != [] {
      StepKeepsBooks(w, b, es[0]);
      RunKeepsBooks(Step(w, es[0]), Booked(b, w, es[0]), es[1..]);
    }
  }

  /** What watchdog number i is there for: to take back upgrade number i, if that is the undecided one. */
  function Meant(w: World, b: Books, i: nat): Fs {
    if b.undecided.Some? && b.undecided.value.install == i then RolledBack(w.fs).0 else w.fs
  }

  /** A watchdog does what it is there for if and only if no other upgrade is undecided when it wakes up. */
  lemma WatchdogAsMeantExactly(w: World, b: Books, i: nat)
    requires Agree(w, b)
    ensures Step(w, Fired(i)).fs == Meant(w, b, i) <==> b.undecided.None? || b.undecided.value.install == i
  {
    if Pending in w.fs {
      assert Pending !in Step(w, Fired(i)).fs;
    }
  }

  /** The watchdog of a committed upgrade takes back the next one. */
  lemma StaleWatchdogTakesBackNextUpgrade(fs: Fs, first: string, second: string, c: Calls)
    requires Current in fs && Pending !in fs
    requires c.backup && c.install && c.makeDir && c.writeTmp && c.renameTmp
    ensures var w := After(World(fs, 0), [Upgrade(first, c), Confirmed, Upgrade(second, c), Fired(0)]);
      Current in w.fs && w.fs[Current] == Binary(first)
  {
    hide After;
    var w1 := Step(World(fs, 0), Upgrade(first, c));
    var w2 := Step(w1, Confirmed);
    var w3 := Step(w2, Upgrade(second, c));
    CleanInstall(fs, first, c);
    CleanInstall(w2.fs, second, c);
    hide Attempted;
    AfterFirst(World(fs, 0), Upgrade(first, c), [Confirmed, Upgrade(second, c), Fired(0)]);
    AfterFirst(w1, Confirmed, [Upgrade(second, c), Fired(0)]);
    AfterFirst(w2, Upgrade(second, c), [Fired(0)]);
    AfterFirst(w3, Fired(0), []);
    AfterFirst(Step(w3, Fired(0)), Confirmed, []);
    assert [Fired(0)] + [] == [Fired(0)];
    assert [Upgrade(second, c)] + [Fired(0)] == [Upgrade(second, c), Fired(0)];
    assert [Confirmed] + [Upgrade(second, c), Fired(0)] == [Confirmed, Upgrade(second, c), Fired(0)];
    assert [Upgrade(first, c)] + [Confirmed, Upgrade(second, c), Fired(0)]
      == [Upgrade(first, c), Confirmed, Upgrade(second, c), Fired(0)];
  }

  lemma CleanInstall(fs: Fs, version: string, c: Calls)
    requires Current in fs && c.backup && c.install && c.makeDir && c.writeTmp && c.renameTmp
    ensures var fs' := Attempted(fs, version, c).0;
      && Undecided(fs') && fs'[Current] == Binary(version) && fs'[Previous] == fs[Current]
  {
  }

  lemma AfterFirst(w: World, e: Event, es: seq<Event>)
    ensures After(w, [e] + es) == After(Step(w, e), es)
    ensures After(w, []) == w
  {
    assert ([e] + es)[1..] == es;
  }
}
