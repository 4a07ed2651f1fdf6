/** Restarts and purges between connections: what they make of a storage that has everything on disk. */
module Restarts {
  import opened Prelude
  import opened BinlogNames
  import opened Streaming
  import opened Application
  import opened EndToEnd
  import SM = StorageModel
  import R = Recovery
  import CS = CrashSafety
  import P = Purge

  datatype Settings = Settings(ckptSize: nat, ckptInterval: nat)

  /** What has been purged, and the log of what is there. */
  datatype Shelf = Shelf(past: seq<FileLog>, h: Hist)

  /** Everything is on disk, and the GTIDs of what has been purged are known. */
  ghost predicate AtEase(s: State, base: set<Gtid>, a: Shelf) {
    && Tidy(s, a.h) && a.h.ready == [] && a.h.tail == []
    && a.h.base == SM.AllGtids(base, a.past) && (a.past == [] || a.h.files != [])
  }

  // ----- restarts ----------------------------------------------------------------------

  ghost function Restart(img: SM.Disk, mode: ReplicationMode, base: set<Gtid>, again: Settings): Result<State> {
    var o := R.Load(img, mode, SM.Streaming);
    if o.Opened? then Ok(Started(CS.Restarted(o, mode, again.ckptSize, again.ckptInterval), base)) else Err
  }

  ghost predicate Loads(img: SM.Disk, mode: ReplicationMode) {
    R.Load(img, mode, SM.Streaming).Opened?
  }

  lemma RestartEases(mode: ReplicationMode, base: set<Gtid>, past: seq<FileLog>, files: seq<FileLog>, img: SM.Disk,
                     again: Settings)
    returns (b: Shelf)
    requires img == SM.DiskOf(mode, SM.AllGtids(base, past), files) && Loads(img, mode)
    requires SM.DistinctNames(files) && SM.WholeTransactions(files) && (past == [] || files != [])
    ensures Restart(img, mode, base, again).Ok? && Restart(img, mode, base, again).value.mode == mode
    ensures AtEase(Restart(img, mode, base, again).value, base, b) && b.past == past && b.h.files == files && !b.h.open
  {
    hide R.Load;
    RestartIsReady(mode, base, past, files, again.ckptSize, again.ckptInterval);
    b := Shelf(past, SM.Hist(SM.AllGtids(base, past), files, [], [], false));
  }

  /** Without line breaks in its names the directory of a log is accepted. */
  lemma Reopens(mode: ReplicationMode, base: set<Gtid>, files: seq<FileLog>, construction: SM.ConstructionMode)
    requires SM.DistinctNames(files) && R.NewlineFree(files)
    ensures R.Load(SM.DiskOf(mode, base, files), mode, construction).Opened?
  {
    hide R.Load, SM.DiskOf, SM.RecordsOf, SM.Gtids, SingleLine;
    if files == [] {
      CS.EmptyDisk(mode, base);
    } else {
      R.LoadOfDisk(mode, base, files, construction);
    }
  }

  lemma OnDisk(s: State, base: set<Gtid>, a: Shelf)
    requires AtEase(s, base, a)
    ensures s.backend.disk == SM.DiskOf(s.mode, SM.AllGtids(base, a.past), a.h.files)
    ensures SM.DistinctNames(a.h.files) && SM.WholeTransactions(a.h.files)
    ensures s.records == SM.RecordsOf(s.mode, a.h.base, a.h.files)
  {
    hide SM.DiskOf, SM.AllGtids, SM.RecordsOf;
    CS.RestFiles(s, a.h);
  }

  // ----- purges ------------------------------------------------------------------------

  /** The storage of the purge command, opened on the same directory. */
  ghost function Purger(s: State): Result<State> {
    var o := R.Load(s.backend.disk, s.mode, SM.Purging);
    if o.Opened? then Ok(CS.Restarted(o, s.mode, 0, 0).(construction := SM.Purging)) else Err
  }

  ghost predicate PurgeWorks(s: State, target: Name, refusing: set<ObjectName>) {
    Purger(s).Ok? && P.PurgeBinlogs(Purger(s).value, target, refusing).Ok?
  }

  ghost function PurgeDisk(s: State, target: Name, refusing: set<ObjectName>): SM.Disk {
    if PurgeWorks(s, target, refusing) then P.PurgeBinlogs(Purger(s).value, target, refusing).value.state.backend.disk
    else s.backend.disk
  }

  /** A crash inside a purge that would have worked leaves img. */
  ghost predicate PurgeCrash(s: State, target: Name, refusing: set<ObjectName>, snap: SM.Snap, img: SM.Disk) {
    && PurgeWorks(s, target, refusing)
    && CS.CrashPoint(Purger(s).value, P.PurgeBinlogs(Purger(s).value, target, refusing).value.state, snap)
    && R.CrashImage(snap, img)
  }

  /** The files up to and including the target have been purged. */
  ghost predicate Shortened(a: Shelf, target: Name, b: Shelf) {
    var n := |b.past| - |a.past|;
    && 0 < n < |a.h.files| && a.h.files[n - 1].name == target
    && b.past == a.past + a.h.files[..n] && b.h.files == a.h.files[n..]
  }

  ghost predicate Same(a: Shelf, b: Shelf) {
    b.past == a.past && b.h.files == a.h.files
  }

  lemma PurgerOpens(s: State, base: set<Gtid>, a: Shelf)
    requires AtEase(s, base, a) && Purger(s).Ok?
    ensures var p := Purger(s).value; P.OpenedOn(p, a.h.base, a.h.files) && p.mode == s.mode && p.records == s.records
  {
    hide R.Load, SM.DiskOf, SM.AllGtids, SM.RecordsOf;
    OnDisk(s, base, a);
    if a.h.files == [] {
      CS.EmptyDisk(s.mode, a.h.base);
    } else {
      R.LoadOfDisk(s.mode, a.h.base, a.h.files, SM.Purging);
    }
  }

  lemma ShorterShelf(base: set<Gtid>, a: Shelf, n: nat)
    requires a.h.base == SM.AllGtids(base, a.past) && n < |a.h.files|
    requires SM.DistinctNames(a.h.files) && SM.WholeTransactions(a.h.files)
    ensures SM.AllGtids(a.h.base, a.h.files[..n]) == SM.AllGtids(base, a.past + a.h.files[..n])
    ensures a.past + a.h.files[..n] + a.h.files[n..] == a.past + a.h.files
    ensures SM.DistinctNames(a.h.files[n..]) && SM.WholeTransactions(a.h.files[n..])
  {
    hide SM.AllGtids;
    AllKnown(base, a.past, a.h.files[..n]);
    assert a.h.files[..n] + a.h.files[n..] == a.h.files;
    P.SuffixNames(a.h.files, n);
  }

  /**
   * A purge whose removals are not refused leaves the files behind the target if the target may be purged, and
   * everything otherwise.
   */
  lemma PurgeLeaves(s: State, base: set<Gtid>, a: Shelf, target: Name, refusing: set<ObjectName>, again: Settings)
    returns (b: Shelf)
    requires AtEase(s, base, a) && R.NewlineFree(a.h.files)
    requires PurgeWorks(s, target, refusing) ==> !P.WillRefuse(s, target, refusing)
    ensures var r := Restart(PurgeDisk(s, target, refusing), s.mode, base, again);
      r.Ok? && r.value.mode == s.mode && AtEase(r.value, base, b)
    ensures PurgeWorks(s, target, refusing) <==> P.Purgeable(a.h.files, target)
    ensures if P.Purgeable(a.h.files, target) then Shortened(a, target, b) else Same(a, b)
    ensures b.past + b.h.files == a.past + a.h.files && !b.h.open
  {
    hide SM.Inv, SM.DiskOf, Restart, SM.AllGtids, SM.DistinctNames, SM.WholeTransactions, R.Load, P.PurgeBinlogs,
      P.OpenedOn, P.Purgeable, R.NewlineFree, SM.RecordsOf;
    OnDisk(s, base, a);
    Reopens(s.mode, a.h.base, a.h.files, SM.Purging);
    Reopens(s.mode, a.h.base, a.h.files, SM.Streaming);
    PurgerOpens(s, base, a);
    var p := Purger(s).value;
    hide Purger, P.VictimObjects;
    P.PurgeSucceedsIff(p, a.h.base, a.h.files, target, refusing);
    var img := PurgeDisk(s, target, refusing);
    if P.PurgeBinlogs(p, target, refusing).Err? {
      b := RestartEases(s.mode, base, a.past, a.h.files, img, again);
    } else {
      P.PurgedReopensIff(p, a.h.base, a.h.files, target, refusing);
      var n := P.IndexOfName(s.records, target) + 1;
      ShorterShelf(base, a, n);
      b := RestartEases(s.mode, base, a.past + a.h.files[..n], a.h.files[n..], img, again);
    }
  }

  /** A crash inside a purge leaves everything, or the files behind the target. */
  lemma PurgeCrashLeaves(s: State, base: set<Gtid>, a: Shelf, target: Name, refusing: set<ObjectName>,
                         snap: SM.Snap, img: SM.Disk, again: Settings)
    returns (b: Shelf)
    requires AtEase(s, base, a) && PurgeCrash(s, target, refusing, snap, img) && Loads(img, s.mode)
    ensures var r := Restart(img, s.mode, base, again); r.Ok? && r.value.mode == s.mode && AtEase(r.value, base, b)
    ensures P.Purgeable(a.h.files, target) && (Same(a, b) || Shortened(a, target, b))
    ensures b.past + b.h.files == a.past + a.h.files && !b.h.open
  {
    hide SM.Inv, SM.DiskOf, Restart, SM.AllGtids, SM.DistinctNames, SM.WholeTransactions, R.Load, P.PurgeBinlogs,
      P.OpenedOn, P.Purgeable, Purger, R.CrashImage, CS.CrashPoint, SM.RecordsOf;
    OnDisk(s, base, a);
    PurgerOpens(s, base, a);
    var p := Purger(s).value;
    P.PurgeIsAtomic(p, a.h.base, a.h.files, target, refusing, snap, img, SM.Streaming);
    P.PurgeSucceedsIff(p, a.h.base, a.h.files, target, refusing);
    if img == SM.DiskOf(s.mode, a.h.base, a.h.files) {
      b := RestartEases(s.mode, base, a.past, a.h.files, img, again);
    } else {
      var n := P.IndexOfName(s.records, target) + 1;
      ShorterShelf(base, a, n);
      b := RestartEases(s.mode, base, a.past + a.h.files[..n], a.h.files[n..], img, again);
    }
  }
}
