/** Every history of a storage: connections, timeouts, exits, crashes and purges, against a source that grows. */
module StorageHistory {
  import opened Prelude
  import opened BinlogNames
  import opened ReaderContext
  import opened Streaming
  import opened Alignment
  import opened Connections
  import opened Sessions
  import opened Application
  import opened EndToEnd
  import opened Restarts
  import SM = StorageModel
  import SR = StorageRuns
  import R = Recovery
  import CS = CrashSafety
  import P = Purge

  // ----- what may happen ---------------------------------------------------------------

  /** What happens next; everything but a timeout ends the program, which is then started again. */
  datatype Doing =
    | TimesOut(received: nat, clocks: seq<seq<nat>>)
    | Exits(received: nat, clocks: seq<seq<nat>>, again: Settings)
    | Crashes(received: nat, clocks: seq<seq<nat>>, stage: Stage, clock: seq<nat>, i: nat,
              snap: SM.Snap, img: SM.Disk, again: Settings)
    | Purges(target: Name, refusing: set<ObjectName>, again: Settings)
    | PurgeCrashes(target: Name, refusing: set<ObjectName>, snap: SM.Snap, img: SM.Disk, again: Settings)

  /** What the source has by then, and what happens. */
  datatype Turn = Turn(src: seq<SrcFile>, doing: Doing)

  /** The storage and the reader after these events of the answer. */
  ghost function Taken(s: State, base: set<Gtid>, src: seq<SrcFile>, n: nat,
                       clocks: seq<seq<nat>>): Result<(State, Ctx)> {
    var answer := Answer(s, base, src);
    if answer.None? || n > |answer.value| || !Timed(clocks, n) then Err
    else AppFeed(s, FreshReader(s), answer.value[..n], clocks)
  }

  ghost function Left(s: State, base: set<Gtid>, src: seq<SrcFile>, n: nat, clocks: seq<seq<nat>>): Result<State> {
    var r := Taken(s, base, src, n, clocks);
    if r.Err? then Err else SR.Apply(r.value.0, SR.FlushNow, 0)
  }

  ghost function After(s: State, base: set<Gtid>, t: Turn): Result<State> {
    match t.doing
    case TimesOut(n, clocks) =>
      var r := Taken(s, base, t.src, n, clocks);
      if r.Err? then Err else TimeOut(r.value.0)
    case Exits(n, clocks, again) =>
      var r := Left(s, base, t.src, n, clocks);
      if r.Err? then Err else Restart(r.value.backend.disk, s.mode, base, again)
    case Crashes(n, clocks, stage, clock, i, snap, img, again) => Restart(img, s.mode, base, again)
    case Purges(target, refusing, again) => Restart(PurgeDisk(s, target, refusing), s.mode, base, again)
    case PurgeCrashes(target, refusing, snap, img, again) => Restart(img, s.mode, base, again)
  }

  ghost predicate InTime(s: State, base: set<Gtid>, src: seq<SrcFile>, n: nat, clocks: seq<seq<nat>>) {
    Timed(clocks, n) && (Answer(s, base, src).Some? ==> n <= |Answer(s, base, src).value|)
  }

  /** The names of the source's files have no line breaks. */
  ghost predicate OneLine(src: seq<SrcFile>) {
    forall i :: 0 <= i < |src| ==> SingleLine(src[i].name)
  }

  /**
   * What the outside decides: how much of the answer arrives, where a crash falls and what it leaves, that a restart
   * after a crash accepts that, and that the system refuses no removal.
   */
  ghost predicate Possible(s: State, base: set<Gtid>, t: Turn) {
    match t.doing
    case TimesOut(n, clocks) => InTime(s, base, t.src, n, clocks)
    case Exits(n, clocks, again) =>
      InTime(s, base, t.src, n, clocks) && OneLine(t.src)
    case Crashes(n, clocks, stage, clock, i, snap, img, again) =>
      && InTime(s, base, t.src, n, clocks)
      && (Answer(s, base, t.src).Some? ==> StageAt(stage, Answer(s, base, t.src).value, n))
      && (Taken(s, base, t.src, n, clocks).Ok? ==>
            var (s1, c1) := Taken(s, base, t.src, n, clocks).value;
            CrashIn(s1, CallsIn(s1, c1, stage), clock, i, snap, img))
      && Loads(img, s.mode)
    case Purges(target, refusing, again) =>
      OneLine(t.src) && (PurgeWorks(s, target, refusing) ==> !P.WillRefuse(s, target, refusing))
    case PurgeCrashes(target, refusing, snap, img, again) =>
      PurgeCrash(s, target, refusing, snap, img) && Loads(img, s.mode)
  }

  // ----- what a turn does to the files -------------------------------------------------

  ghost predicate Received(s: State, base: set<Gtid>, src: seq<SrcFile>, n: nat, a: Shelf, b: Shelf) {
    && b.past == a.past && Answer(s, base, src).Some? && n <= |Answer(s, base, src).value|
    && Arrived(s, a.h, base, src, n).Ok? && b.h.files == Arrived(s, a.h, base, src, n).value.0.files
  }

  /**
   * Timeouts and exits leave exactly the complete transactions that arrived, crashes part of those of the last file,
   * purges the files behind the target.
   */
  ghost predicate Leads(s: State, base: set<Gtid>, t: Turn, a: Shelf, b: Shelf) {
    match t.doing
    case TimesOut(n, clocks) => Received(s, base, t.src, n, a, b)
    case Exits(n, clocks, again) => Received(s, base, t.src, n, a, b)
    case Crashes(n, clocks, stage, clock, i, snap, img, again) =>
      && b.past == a.past && Answer(s, base, t.src).Some? && n <= |Answer(s, base, t.src).value|
      && Leftover(s, a.h, base, t.src, n, b.h.files)
    case Purges(target, refusing, again) =>
      if P.Purgeable(a.h.files, target) then Shortened(a, target, b) else Same(a, b)
    case PurgeCrashes(target, refusing, snap, img, again) => Same(a, b) || Shortened(a, target, b)
  }

  ghost predicate Stands(s: State, base: set<Gtid>, shelf: Shelf, src: seq<SrcFile>, at: seq<nat>) {
    AtEase(s, base, shelf) && Aligned(s.mode, shelf.past + shelf.h.files, src, at)
  }

  lemma StandsIsStored(s: State, base: set<Gtid>, a: Shelf, src: seq<SrcFile>, at: seq<nat>)
    ensures Stands(s, base, a, src, at) <==> Stored(s, a.h, base, a.past, src, at)
  {
    hide Tidy, Aligned, SM.AllGtids;
  }

  // ----- one turn ----------------------------------------------------------------------

  lemma RestartStands(mode: ReplicationMode, base: set<Gtid>, past: seq<FileLog>, files: seq<FileLog>,
                      src: seq<SrcFile>, at: seq<nat>, img: SM.Disk, again: Settings)
    returns (b: Shelf)
    requires img == SM.DiskOf(mode, SM.AllGtids(base, past), files) && Loads(img, mode)
    requires SM.DistinctNames(files) && SM.WholeTransactions(files) && Aligned(mode, past + files, src, at)
    requires past == [] || files != []
    ensures Restart(img, mode, base, again).Ok? && Restart(img, mode, base, again).value.mode == mode
    ensures Stands(Restart(img, mode, base, again).value, base, b, src, at) && b.past == past && b.h.files == files
  {
    hide R.Load, SM.DiskOf, SM.AllGtids, SM.DistinctNames, SM.WholeTransactions, Aligned, AtEase, Restart;
    b := RestartEases(mode, base, past, files, img, again);
  }

  lemma {:induction false} NamesOfSource(mode: ReplicationMode, files: seq<FileLog>, src: seq<SrcFile>, at: seq<nat>)
    requires Aligned(mode, files, src, at) && OneLine(src)
    ensures R.NewlineFree(files)
  {
    hide Aligned, SingleLine, SM.Bytes, Data;
    forall i | 0 <= i < |files| ensures SingleLine(files[i].name) {
      StoredBytes(mode, files, src, at, i);
    }
  }

  lemma StandsNewlineFree(mode: ReplicationMode, past: seq<FileLog>, files: seq<FileLog>, src: seq<SrcFile>,
                          at: seq<nat>)
    requires Aligned(mode, past + files, src, at) && OneLine(src)
    ensures R.NewlineFree(files)
  {
    hide Aligned, OneLine, SingleLine;
    NamesOfSource(mode, past + files, src, at);
    assert forall i :: 0 <= i < |files| ==> (past + files)[|past| + i] == files[i];
  }

  lemma TimesOutKeeps(s: State, base: set<Gtid>, t: Turn, a: Shelf, at: seq<nat>) returns (b: Shelf, at': seq<nat>)
    requires Stands(s, base, a, t.src, at) && Sound(s.mode, base, t.src) && NoneBare(t.src)
    requires t.doing.TimesOut? && Possible(s, base, t)
    ensures After(s, base, t).Ok? && After(s, base, t).value.mode == s.mode
    ensures Stands(After(s, base, t).value, base, b, t.src, at') && Leads(s, base, t, a, b)
    ensures t.doing.received == |Answer(s, base, t.src).value| ==>
      StoredCommits(s.mode, b.past + b.h.files) == SourceCommits(s.mode, t.src, |t.src|)
  {
    hide Stands, Stored, AppFeed, FreshReader, Answer, Sound, NoneBare, TimeOut, Arrived, StoredCommits, SourceCommits,
      Grows, SM.DiskOf;
    StandsIsStored(s, base, a, t.src, at);
    var h';
    h', at' := StorageSession(s, a.h, base, a.past, t.src, at, t.doing.received, t.doing.clocks);
    b := Shelf(a.past, h');
    StandsIsStored(After(s, base, t).value, base, b, t.src, at');
  }

  lemma ExitsKeeps(s: State, base: set<Gtid>, t: Turn, a: Shelf, at: seq<nat>) returns (b: Shelf, at': seq<nat>)
    requires Stands(s, base, a, t.src, at) && Sound(s.mode, base, t.src) && NoneBare(t.src)
    requires t.doing.Exits? && Possible(s, base, t)
    ensures After(s, base, t).Ok? && After(s, base, t).value.mode == s.mode
    ensures Stands(After(s, base, t).value, base, b, t.src, at') && Leads(s, base, t, a, b)
  {
    hide Tidy, Aligned, AppFeed, FreshReader, Answer, Sound, NoneBare, Arrived, StoredCommits, SourceCommits, Grows,
      SM.DiskOf, SR.Apply, Restart, SM.AllGtids, SM.DistinctNames, SM.WholeTransactions, R.Load, OneLine;
    StandsIsStored(s, base, a, t.src, at);
    var n, clocks := t.doing.received, t.doing.clocks;
    var h0, at0 := ConnectionOnStorage(s, a.h, base, a.past, t.src, at, n, clocks);
    var h';
    h', at' := ExitFlushes(s, a.h, base, a.past, t.src, at, n, clocks);
    var img := Left(s, base, t.src, n, clocks).value.backend.disk;
    StandsNewlineFree(s.mode, a.past, h'.files, t.src, at');
    Reopens(s.mode, a.h.base, h'.files, SM.Streaming);
    b := RestartStands(s.mode, base, a.past, h'.files, t.src, at', img, t.doing.again);
  }

  lemma CrashesKeeps(s: State, base: set<Gtid>, t: Turn, a: Shelf, at: seq<nat>) returns (b: Shelf, at': seq<nat>)
    requires Stands(s, base, a, t.src, at) && Sound(s.mode, base, t.src) && NoneBare(t.src)
    requires t.doing.Crashes? && Possible(s, base, t)
    ensures After(s, base, t).Ok? && After(s, base, t).value.mode == s.mode
    ensures Stands(After(s, base, t).value, base, b, t.src, at') && Leads(s, base, t, a, b)
  {
    hide Tidy, Aligned, AppFeed, FreshReader, Answer, Sound, NoneBare, Arrived, Grows, SM.DiskOf, CrashIn, CallsIn,
      StageAt, Leftover, Restart, SM.AllGtids, SM.DistinctNames, SM.WholeTransactions, R.Load, CutOff, HasAll;
    StandsIsStored(s, base, a, t.src, at);
    var d := t.doing;
    var h0, at0 := ConnectionOnStorage(s, a.h, base, a.past, t.src, at, d.received, d.clocks);
    var files;
    files, at' := CrashInConnection(s, a.h, base, a.past, t.src, at, d.received, d.clocks, d.stage, d.clock, d.i,
                                    d.snap, d.img);
    b := RestartStands(s.mode, base, a.past, files, t.src, at', d.img, d.again);
  }

  // ----- purges ------------------------------------------------------------------------

  lemma PurgesKeeps(s: State, base: set<Gtid>, t: Turn, a: Shelf, at: seq<nat>) returns (b: Shelf)
    requires Stands(s, base, a, t.src, at) && t.doing.Purges? && Possible(s, base, t)
    ensures After(s, base, t).Ok? && After(s, base, t).value.mode == s.mode
    ensures Stands(After(s, base, t).value, base, b, t.src, at) && Leads(s, base, t, a, b)
  {
    hide AtEase, Aligned, Restart, PurgeDisk, PurgeWorks, P.Purgeable, Shortened, Same, R.NewlineFree, OneLine,
      P.WillRefuse;
    StandsNewlineFree(s.mode, a.past, a.h.files, t.src, at);
    b := PurgeLeaves(s, base, a, t.doing.target, t.doing.refusing, t.doing.again);
  }

  lemma PurgeCrashesKeeps(s: State, base: set<Gtid>, t: Turn, a: Shelf, at: seq<nat>) returns (b: Shelf)
    requires Stands(s, base, a, t.src, at) && t.doing.PurgeCrashes? && Possible(s, base, t)
    ensures After(s, base, t).Ok? && After(s, base, t).value.mode == s.mode
    ensures Stands(After(s, base, t).value, base, b, t.src, at) && Leads(s, base, t, a, b)
  {
    hide AtEase, Aligned, Restart, PurgeCrash, P.Purgeable, Shortened, Same, Loads;
    var d := t.doing;
    b := PurgeCrashLeaves(s, base, a, d.target, d.refusing, d.snap, d.img, d.again);
  }

  /** Whatever happens next succeeds and leaves the storage ready for what comes then. */
  lemma TurnOnStorage(s: State, base: set<Gtid>, t: Turn, a: Shelf, at: seq<nat>) returns (b: Shelf, at': seq<nat>)
    requires Stands(s, base, a, t.src, at) && Sound(s.mode, base, t.src) && NoneBare(t.src) && Possible(s, base, t)
    ensures After(s, base, t).Ok? && After(s, base, t).value.mode == s.mode
    ensures Stands(After(s, base, t).value, base, b, t.src, at') && Leads(s, base, t, a, b)
  {
    hide Stands, Sound, NoneBare, Possible, After, Leads;
    at' := at;
    match t.doing
    case TimesOut(_, _) => b, at' := TimesOutKeeps(s, base, t, a, at);
    case Exits(_, _, _) => b, at' := ExitsKeeps(s, base, t, a, at);
    case Crashes(_, _, _, _, _, _, _, _) => b, at' := CrashesKeeps(s, base, t, a, at);
    case Purges(_, _, _) => b := PurgesKeeps(s, base, t, a, at);
    case PurgeCrashes(_, _, _, _, _) => b := PurgeCrashesKeeps(s, base, t, a, at);
  }

  // ----- every history -----------------------------------------------------------------

  ghost function Lives(s: State, base: set<Gtid>, turns: seq<Turn>): Result<State>
    decreases |turns|
  {
    if turns == [] then Ok(s)
    else
      var n := |turns| - 1;
      var r := Lives(s, base, turns[..n]);
      if r.Err? then Err else After(r.value, base, turns[n])
  }

  ghost predicate AllPossible(s: State, base: set<Gtid>, turns: seq<Turn>)
    decreases |turns|
  {
    turns == [] ||
    var n := |turns| - 1;
    && AllPossible(s, base, turns[..n])
    && (Lives(s, base, turns[..n]).Ok? ==> Possible(Lives(s, base, turns[..n]).value, base, turns[n]))
  }

  /** The source is well formed at every turn and grows from turn to turn, up to src. */
  ghost predicate Timeline(mode: ReplicationMode, base: set<Gtid>, turns: seq<Turn>, src: seq<SrcFile>)
    decreases |turns|
  {
    turns == [] ||
    var n := |turns| - 1;
    && Sound(mode, base, turns[n].src) && NoneBare(turns[n].src) && Grown(turns[n].src, src)
    && Timeline(mode, base, turns[..n], turns[n].src)
  }

  /** One shelf for every moment, each following from the one before. */
  ghost predicate Chronicle(s: State, base: set<Gtid>, turns: seq<Turn>, shelves: seq<Shelf>) {
    && |shelves| == |turns| + 1
    && forall i :: 0 <= i < |turns| ==>
         && Lives(s, base, turns[..i]).Ok?
         && Leads(Lives(s, base, turns[..i]).value, base, turns[i], shelves[i], shelves[i + 1])
  }

  lemma ChronicleSnoc(s: State, base: set<Gtid>, turns: seq<Turn>, shelves: seq<Shelf>, b: Shelf)
    requires turns != [] && var n := |turns| - 1;
      && Chronicle(s, base, turns[..n], shelves) && Lives(s, base, turns[..n]).Ok?
      && Leads(Lives(s, base, turns[..n]).value, base, turns[n], shelves[n], b)
    ensures Chronicle(s, base, turns, shelves + [b])
  {
    hide Lives, Leads;
    var n := |turns| - 1;
    var all := shelves + [b];
    forall i | 0 <= i < |turns|
      ensures Lives(s, base, turns[..i]).Ok?
      ensures Leads(Lives(s, base, turns[..i]).value, base, turns[i], all[i], all[i + 1])
    {
      if i < n {
        assert turns[..n][..i] == turns[..i];
        assert all[i] == shelves[i] && all[i + 1] == shelves[i + 1];
      }
    }
  }

  lemma {:induction false} HistoryStands(s: State, h: Hist, base: set<Gtid>, turns: seq<Turn>, src: seq<SrcFile>)
    returns (shelves: seq<Shelf>, at: seq<nat>)
    requires forall any :: Stands(s, base, Shelf([], h), any, [])
    requires AllPossible(s, base, turns) && Timeline(s.mode, base, turns, src)
    ensures Lives(s, base, turns).Ok? && Lives(s, base, turns).value.mode == s.mode
    ensures Chronicle(s, base, turns, shelves) && shelves[0] == Shelf([], h)
    ensures Stands(Lives(s, base, turns).value, base, shelves[|turns|], src, at)
    decreases |turns|
  {
    hide Stands, Possible, After, Leads, Sound, NoneBare, Grown;
    if turns == [] {
      shelves, at := [Shelf([], h)], [];
      assert Stands(s, base, Shelf([], h), src, []);
    } else {
      var n := |turns| - 1;
      var t := turns[n];
      var before, at0 := HistoryStands(s, h, base, turns[..n], t.src);
      var s1 := Lives(s, base, turns[..n]).value;
      var b, at1 := TurnOnStorage(s1, base, t, before[n], at0);
      ChronicleSnoc(s, base, turns, before, b);
      shelves, at := before + [b], at1;
      StandsWhileGrowing(After(s1, base, t).value, base, b, t.src, src, at1);
    }
  }

  lemma StandsWhileGrowing(s: State, base: set<Gtid>, b: Shelf, src: seq<SrcFile>, src': seq<SrcFile>, at: seq<nat>)
    requires Stands(s, base, b, src, at) && Grown(src, src')
    ensures Stands(s, base, b, src', at)
  {
    hide Stands, Stored, Grown;
    StandsIsStored(s, base, b, src, at);
    StandsIsStored(s, base, b, src', at);
    StoredWhileGrowing(s, b.h, base, b.past, src, src', at);
  }

  /** The storage a first start finds in an empty directory. */
  ghost function First(mode: ReplicationMode, base: set<Gtid>, settings: Settings): Result<State> {
    Restart(map[], mode, base, settings)
  }

  /**
   * Exactly once, on disk.  From an empty directory, after any history of connections that time out, exits, crashes
   * anywhere, purges and crashes in purges, in either mode: nothing was ever refused, the disk is exactly the disk of a
   * list of files, those files continue what has been purged to a prefix of the source's transactions, and each is byte
   * for byte a prefix of the source's file of that name.
   */
  lemma ExactlyOnceOnDisk(mode: ReplicationMode, base: set<Gtid>, settings: Settings, turns: seq<Turn>,
                          src: seq<SrcFile>)
    returns (shelves: seq<Shelf>)
    requires First(mode, base, settings).Ok? ==> AllPossible(First(mode, base, settings).value, base, turns)
    requires Timeline(mode, base, turns, src)
    ensures First(mode, base, settings).Ok?
    ensures var s := First(mode, base, settings).value;
      && Lives(s, base, turns).Ok? && Chronicle(s, base, turns, shelves)
      && shelves[0].past == [] && shelves[0].h.files == []
    ensures var (past, files) := (shelves[|turns|].past, shelves[|turns|].h.files);
      && Lives(First(mode, base, settings).value, base, turns).value.backend.disk
         == SM.DiskOf(mode, SM.AllGtids(base, past), files)
      && StoredCommits(mode, past + files) <= SourceCommits(mode, src, |src|)
      && forall i :: 0 <= i < |files| ==> Faithful(files[i], src)
  {
    hide R.Load, Possible, After, Leads, Sound, NoneBare, Grown, SM.DiskOf, StoredCommits, SourceCommits, Faithful,
      Tidy, Aligned, SM.AllGtids, Started, Lives, AllPossible, Timeline, Chronicle;
    var h := SM.Hist(base, [], [], [], false);
    forall any
      ensures First(mode, base, settings).Ok? && Stands(First(mode, base, settings).value, base, Shelf([], h), any, [])
    {
      FirstIsStored(mode, base, any, settings.ckptSize, settings.ckptInterval);
      StandsIsStored(First(mode, base, settings).value, base, Shelf([], h), any, []);
    }
    FirstIsStored(mode, base, src, settings.ckptSize, settings.ckptInterval);
    var s := First(mode, base, settings).value;
    FirstMode(mode, base, settings);
    var at;
    shelves, at := HistoryStands(s, h, base, turns, src);
    ChronicleLength(s, base, turns, shelves);
    var b := shelves[|turns|];
    WhatStands(Lives(s, base, turns).value, base, b, src, at);
  }

  lemma ChronicleLength(s: State, base: set<Gtid>, turns: seq<Turn>, shelves: seq<Shelf>)
    requires Chronicle(s, base, turns, shelves)
    ensures |shelves| == |turns| + 1
  {
  }

  lemma FirstMode(mode: ReplicationMode, base: set<Gtid>, settings: Settings)
    requires First(mode, base, settings).Ok?
    ensures First(mode, base, settings).value.mode == mode
  {
  }

  lemma WhatStands(s: State, base: set<Gtid>, b: Shelf, src: seq<SrcFile>, at: seq<nat>)
    requires Stands(s, base, b, src, at)
    ensures s.backend.disk == SM.DiskOf(s.mode, SM.AllGtids(base, b.past), b.h.files)
    ensures StoredCommits(s.mode, b.past + b.h.files) <= SourceCommits(s.mode, src, |src|)
    ensures forall i :: 0 <= i < |b.h.files| ==> Faithful(b.h.files[i], src)
  {
    hide SM.Inv, Aligned, SM.DiskOf, StoredCommits, SourceCommits, SM.AllGtids, SM.Bytes, Data;
    CS.RestFiles(s, b.h);
    var all := b.past + b.h.files;
    StoredIsAPrefix(s.mode, all, src, at);
    forall i | 0 <= i < |b.h.files| ensures Faithful(b.h.files[i], src) {
      StoredBytes(s.mode, all, src, at, |b.past| + i);
    }
  }

  /** After any history a connection that delivers everything leaves nothing missing. */
  lemma CatchesUpOnDisk(mode: ReplicationMode, base: set<Gtid>, settings: Settings, turns: seq<Turn>, t: Turn)
    returns (past: seq<FileLog>, files: seq<FileLog>)
    requires First(mode, base, settings).Ok? && AllPossible(First(mode, base, settings).value, base, turns + [t])
    requires Timeline(mode, base, turns + [t], t.src) && t.doing.TimesOut?
    ensures var s := First(mode, base, settings).value;
      && Lives(s, base, turns).Ok? && Answer(Lives(s, base, turns).value, base, t.src).Some?
      && Lives(s, base, turns + [t]).Ok?
      && Lives(s, base, turns + [t]).value.backend.disk == SM.DiskOf(mode, SM.AllGtids(base, past), files)
      && (t.doing.received == |Answer(Lives(s, base, turns).value, base, t.src).value| ==>
            StoredCommits(mode, past + files) == SourceCommits(mode, t.src, |t.src|))
  {
    hide R.Load, Possible, After, Leads, Sound, NoneBare, Grown, SM.DiskOf, StoredCommits, SourceCommits, Faithful,
      Tidy, Aligned, SM.AllGtids, Started, Answer;
    assert (turns + [t])[..|turns|] == turns;
    var h := SM.Hist(base, [], [], [], false);
    var s := First(mode, base, settings).value;
    forall any ensures Stands(s, base, Shelf([], h), any, []) {
      FirstIsStored(mode, base, any, settings.ckptSize, settings.ckptInterval);
      StandsIsStored(First(mode, base, settings).value, base, Shelf([], h), any, []);
    }
    FirstMode(mode, base, settings);
    var shelves, at := HistoryStands(s, h, base, turns, t.src);
    var s1 := Lives(s, base, turns).value;
    StandsIsStored(s1, base, shelves[|turns|], t.src, at);
    var h0, at0 := ConnectionOnStorage(s1, shelves[|turns|].h, base, shelves[|turns|].past, t.src, at, 0, []);
    var b, at' := TimesOutKeeps(s1, base, t, shelves[|turns|], at);
    past, files := b.past, b.h.files;
    WhatStands(After(s1, base, t).value, base, b, t.src, at');
  }
}
