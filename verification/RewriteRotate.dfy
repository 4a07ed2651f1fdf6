/**
 * When ROTATE stays the last event of a file in rewrite mode.  A crash after a file got its ROTATE and before the next
 * file exists leaves a finished file as the last one, and the next connection continues it.
 */
module RewriteRotate {
  import opened Prelude
  import opened BinlogNames
  import opened ReaderContext
  import opened Streaming
  import opened Connections
  import opened Sessions
  import opened PurgedPast
  import opened Application
  import opened EndToEnd
  import opened Restarts
  import opened RewriteMode
  import opened RewriteJournal
  import opened RewriteCrashes
  import opened RewriteSessions
  import opened RewriteStorage
  import opened RewriteHistory
  import SM = StorageModel
  import SR = StorageRuns
  import R = Recovery

  // ----- the first transaction of a connection -----------------------------------------

  /** The last event directly follows a terminator. */
  ghost predicate BehindTerminator(events: seq<Event>) {
    |events| > 1 && events[|events| - 2].IsTerminator()
  }

  /** The last stored file already has its terminator. */
  ghost predicate LastIsFinished(outs: seq<Output>) {
    outs != [] && PhaseOf(GtidBased, LastOut(outs).f.events).Ended?
  }

  lemma FinishedIff(events: seq<Event>)
    requires events != [] && SoFar(events)
    ensures PhaseOf(GtidBased, events).Ended? <==> events[|events| - 1].IsTerminator()
  {
    TerminatorEnds(PhaseOf(GtidBased, events[..|events| - 1]), events[|events| - 1]);
  }

  lemma AddedEvent(outs: seq<Output>, e: Event)
    requires outs != []
    ensures LastOut(Continued(outs, e)).f.events == LastOut(outs).f.events + [e]
    ensures var events := LastOut(outs).f.events;
      events != [] ==>
        (BehindTerminator(LastOut(Continued(outs, e)).f.events) <==> events[|events| - 1].IsTerminator())
  {
  }

  lemma NewIsNotFinished(cfg: Config, was: Log, g: Generated, outs: seq<Output>)
    requires NewlyOpened(cfg, was, g, outs)
    ensures outs != [] && |LastOut(outs).f.events| == 2 && !LastOut(outs).f.events[1].IsTerminator()
  {
  }

  lemma PausedLast(cfg: Config, log: Log, outs: seq<Output>)
    requires Paused(cfg, log, outs) && outs != []
    ensures log.files != [] && SoFar(LastOut(outs).f.events)
    ensures LastOut(outs).f.events == [] <==> LastFile(log).evs == []
    ensures LastOut(outs).f.events == [] ==> !LastIsFinished(outs)
  {
    hide FilesMade, SoFar;
  }

  lemma OneEach(cfg: Config, log: Log, g: Generated, name: Name, files: seq<FileLog>, outs: seq<Output>)
    requires var c := FreshContext(log, GtidBased);
      && FileToUse(cfg, log, c) == Some(name) && PrefaceKeeps(cfg, log, c, name, g, files)
      && Opened(cfg, log, NewFile(cfg, log, c, g), outs)
    ensures |outs| == |files|
  {
    hide ProcessEvent, Preface, Conn, FilesMade, Fits, PhaseOf, Order;
    KeptFiles(cfg, log, FreshContext(log, GtidBased), name, g, files);
  }

  /** The file for the first transaction, and whether it is finished already. */
  lemma FileForFirst(cfg: Config, log: Log, outs: seq<Output>, g: Generated) returns (outs1: seq<Output>)
    requires Paused(cfg, log, outs) && NewFileFits(cfg, log, FreshContext(log, GtidBased), g)
    ensures Opened(cfg, log, NewFile(cfg, log, FreshContext(log, GtidBased), g), outs1)
    ensures outs1 != [] && LastOut(outs1).f.events != []
    ensures LastOut(outs1).f.events[|LastOut(outs1).f.events| - 1].IsTerminator() <==> LastIsFinished(outs)
    ensures LastIsFinished(outs) ==> LastOut(outs1).f == LastOut(outs).f
    ensures |outs1| == if outs == [] then 1 else |outs|
    ensures Events(outs1) == FileEvents(cfg, log, FreshContext(log, GtidBased), outs, g, Storing)
  {
    hide Events, FileEvents, Opened, NewFile, PrefaceFits, PrefaceKeeps, Since, PhaseOf, SoFar, FilesMade, Fits,
      NewlyOpened;
    if log.files == [] {
      NothingToPause(cfg, log, outs);
      outs1 := OpenFirst(cfg, log, g);
      NewIsNotFinished(cfg, log, g, outs1);
      OneEach(cfg, log, g, cfg.first, log.files + [SM.FileLog(cfg.first, [])], outs1);
    } else {
      PausedLast(cfg, log, outs);
      if LastFile(log).evs == [] {
        outs1 := OpenEmpty(cfg, log, outs, g);
        NewIsNotFinished(cfg, log, g, outs1);
        OneEach(cfg, log, g, LastFile(log).name, log.files, outs1);
        OneOutEach(cfg, log, outs);
      } else {
        OpenAgain(cfg, log, outs, g);
        outs1 := Resumed(outs);
        FinishedIff(LastOut(outs).f.events);
      }
    }
  }

  /**
   * The first transaction of a connection, of either kind and of any length, lands directly behind a terminator iff the
   * last stored file is finished; then it continues that file.
   */
  lemma FirstTransaction(cfg: Config, log: Log, outs: seq<Output>, e: Event, g: Generated) returns (outs': seq<Output>)
    requires Paused(cfg, log, outs) && e.IsGtid() && LeftAfter(0, e).Some?
    requires AllFits(cfg, log, FreshContext(log, GtidBased), e, g)
    ensures RewriteEvent(cfg, log, FreshContext(log, GtidBased), e, g).Ok?
    ensures var (log', c') := RewriteEvent(cfg, log, FreshContext(log, GtidBased), e, g).value;
      && Connected(cfg, log', c', outs') && outs' != []
      && Going(cfg, log', c', outs', LeftAfter(0, e).value, e.gtid)
    ensures var events := LastOut(outs').f.events;
      && events != [] && events[|events| - 1].gtid == e.gtid && events[|events| - 1].data == g.body.value
      && (BehindTerminator(events) <==> LastIsFinished(outs))
      && (LastIsFinished(outs) ==> events == LastOut(outs).f.events + [events[|events| - 1]])
    ensures |outs'| == if outs == [] then 1 else |outs|
    ensures NewFile(cfg, log, FreshContext(log, GtidBased), g).Ok?
    ensures CurrentPosition(RewriteEvent(cfg, log, FreshContext(log, GtidBased), e, g).value.0)
         == CurrentPosition(NewFile(cfg, log, FreshContext(log, GtidBased), g).value.0) + |g.body.value|
    ensures Events(outs') == Handled(cfg, Events(outs), log, FreshContext(log, GtidBased), e, g, Storing)
  {
    hide Events, FileEvents, Extended, Handled, IsWritten, ProcessEvent, Connected, NewFile, CurrentPosition, Relocated,
      NewFileFits, RoomFor, BodyOk, PhaseOf, Order, Opened, Paused, Going;
    var c := FreshContext(log, GtidBased);
    FreshBasics(cfg, log, outs);
    var outs1 := FileForFirst(cfg, log, outs, g);
    OpenedBasics(cfg, log, NewFile(cfg, log, c, g), outs1);
    var (log1, c1) := NewFile(cfg, log, c, g).value;
    var e' := Relocated(log1, e, g.body.value);
    StoreOne(cfg, log1, c1, outs1, e, g.body.value, 0, e.gtid);
    outs' := Continued(outs1, e');
    AddedEvent(outs1, e');
    RelocatedKeeps(log1, e, g.body.value);
    var (log', c') := RewriteEvent(cfg, log, c, e, g).value;
    PositionAfter(cfg, log1, c1, outs1, log', c', e');
    ContinuedEvents(outs1, e');
    PausedGoes(cfg, log, outs);
    HandledIs(cfg, log, c, outs, e, g, 0, None, Storing);
  }

  lemma PausedGoes(cfg: Config, log: Log, outs: seq<Output>)
    requires Paused(cfg, log, outs)
    ensures Going(cfg, log, FreshContext(log, GtidBased), outs, 0, None)
  {
    hide Paused, Connected, FreshContext;
  }

  lemma ConnectedPosition(cfg: Config, log: Log, c: Ctx, outs: seq<Output>)
    requires Connected(cfg, log, c, outs)
    ensures outs != [] && CurrentPosition(log) == Offset(LastOut(outs).f.events)
  {
    hide FilesMade, Conn, SoFar, PhaseOf, Offset, CurrentPosition;
    ConnPosition(log, c, LastOut(outs).f);
  }

  lemma PositionAfter(cfg: Config, log: Log, c: Ctx, outs: seq<Output>, log': Log, c': Ctx, e: Event)
    requires Connected(cfg, log, c, outs) && outs != [] && Connected(cfg, log', c', Continued(outs, e))
    requires e.size == |e.data|
    ensures CurrentPosition(log') == CurrentPosition(log) + |e.data|
  {
    hide Connected, CurrentPosition;
    ConnectedPosition(cfg, log, c, outs);
    ConnectedPosition(cfg, log', c', Continued(outs, e));
    var events := LastOut(outs).f.events;
    assert (events + [e])[..|events|] == events;
  }

  lemma RelocatedKeeps(log: Log, e: Event, data: seq<Byte>)
    ensures Relocated(log, e, data).gtid == e.gtid && Relocated(log, e, data).data == data
    ensures Relocated(log, e, data).size == |data|
  {
  }

  /** The same on the storage, whatever has been purged. */
  lemma FirstTransactionOnStorage(cfg: Config, s: State, a: Shelf, log: Log, outs: seq<Output>, e: Event, g: Generated,
                                  clocks: seq<seq<nat>>)
    returns (h': Hist, outs': seq<Output>)
    requires Holds(cfg, s, a, log) && Paused(cfg, log, outs) && e.IsGtid() && LeftAfter(0, e).Some?
    requires AllFits(cfg, log, FreshContext(log, GtidBased), e, g) && Substantial(cfg, g) && Clocked(clocks)
    ensures AppRewrite(cfg, s, FreshReader(s), e, g, clocks).Ok?
    ensures var (s', c') := AppRewrite(cfg, s, FreshReader(s), e, g, clocks).value;
      && Behind(cfg, s', a.past, h') && Connected(cfg, View(a.past, h'), c', outs') && outs' != []
      && Going(cfg, View(a.past, h'), c', outs', LeftAfter(0, e).value, e.gtid)
      && NewFile(cfg, log, FreshContext(log, GtidBased), g).Ok?
      && CurrentPosition(View(a.past, h'))
         == CurrentPosition(NewFile(cfg, log, FreshContext(log, GtidBased), g).value.0) + |g.body.value|
    ensures BehindTerminator(LastOut(outs').f.events) <==> LastIsFinished(outs)
    ensures |outs'| == if outs == [] then 1 else |outs|
    ensures Events(outs') == Handled(cfg, Events(outs), log, FreshContext(log, GtidBased), e, g, Storing)
  {
    hide Events, Handled, AtEase, View, Behind, Paused, Connected, AllFits, RewriteEvent, AppRewrite, FreshContext,
      FreshReader, PhaseOf, Going, Substantial, NewFile, CurrentPosition;
    HoldsBasics(cfg, s, a, log);
    outs' := FirstTransaction(cfg, log, outs, e, g);
    h' := RewriteLinked(cfg, s, a.past, a.h, FreshReader(s), e, g, clocks);
  }

  // ----- the crash between two files ---------------------------------------------------

  lemma BoundaryGoes(cfg: Config, log: Log, c: Ctx, outs: seq<Output>)
    requires Connected(cfg, log, c, outs) && c.AtBoundary()
    ensures Going(cfg, log, c, outs, 0, None) && !c.IsFresh()
  {
    hide FilesMade, Fits, PhaseOf;
    var f := LastOut(outs).f;
    AtBoundaryPhase(log, c, f);
    assert f.events[..|f.events|] == f.events;
  }

  lemma ClosedStorage(cfg: Config, s: State, past: seq<FileLog>, h: Hist)
    requires Behind(cfg, s, past, h) && !View(past, h).open
    ensures View(past, h) == SR.Log(past + h.files, [], false)
    ensures s.backend.disk == s.backend.synced == SM.DiskOf(GtidBased, SM.AllGtids(cfg.base, past), h.files)
    ensures SM.DistinctNames(h.files) && SM.WholeTransactions(h.files) && (past == [] || h.files != [])
  {
    hide SM.DiskOf, SM.AllGtids;
    FlushedLog(h);
  }

  lemma SameDisk(d: SM.Disk)
    ensures R.CrashImage(SM.Snap(d, d), d)
  {
  }

  lemma NothingRun(s: State)
    ensures SR.Run(s, [], []) == Ok(s)
  {
  }

  /** A crash before the first call has done anything finds the disk as it is. */
  lemma FirstCallCrash(s: State, ops: seq<SR.Op>, clock: seq<nat>)
    requires |clock| == 3 && 0 < |ops| <= 3 && SR.Effect(s, ops[0], clock[0]).Ok? && s.backend.disk == s.backend.synced
    ensures CrashIn(s, ops, clock, 0, SM.Snap(s.backend.disk, s.backend.disk), s.backend.disk)
  {
    hide SR.Run, SR.Effect, R.CrashImage;
    assert ops[..0] == [] && clock[..0] == [];
    NothingRun(s);
    SameDisk(s.backend.disk);
  }

  lemma CrashAtOnce(s: State, c: Ctx, e: Event, clock: seq<nat>)
    requires |clock| == 3 && AppEvent(s, c, e, clock).Ok? && CallsFor(s, c, e) != []
    requires s.backend.disk == s.backend.synced
    ensures CrashIn(s, CallsFor(s, c, e), clock, 0, SM.Snap(s.backend.disk, s.backend.disk), s.backend.disk)
  {
    hide SR.Apply, SR.Run, AppEvent, CallsFor, CrashIn, SR.Effect;
    var ops := CallsFor(s, c, e);
    EventCallsOk(s, c, e, clock);
    RunStep(s, ops, clock[..|ops|], 0);
    assert ops[..0] == [] && clock[..|ops|][..0] == [] && clock[..|ops|][0] == clock[0];
    NothingRun(s);
    ApplyIsEffect(s, ops[0], clock[0]);
    FirstCallCrash(s, ops, clock);
  }

  lemma OpenCalls(s: State, c: Ctx, name: Name)
    requires Process(c, ArtificialRotate(name, MAGIC_OFFSET)).Ok? && !SeeState(s).open
    ensures CallsFor(s, c, ArtificialRotate(name, MAGIC_OFFSET)) != []
  {
    hide Process;
    RotateIsInfo(c, ArtificialRotate(name, MAGIC_OFFSET));
  }

  /** A crash may leave img right before the Opening part, on a disk of these files, the last one finished. */
  ghost predicate LeftFinished(cfg: Config, past: seq<FileLog>, x: (State, Ctx, Event, seq<nat>), files: seq<FileLog>,
                               outs: seq<Output>) {
    var img := x.0.backend.disk;
    && CrashIn(x.0, CallsFor(x.0, x.1, x.2), x.3, 0, SM.Snap(img, img), img)
    && img == SM.DiskOf(GtidBased, SM.AllGtids(cfg.base, past), files) && Loads(img, GtidBased)
    && SM.DistinctNames(files) && SM.WholeTransactions(files) && (past == [] || files != [])
    && Paused(cfg, SR.Log(past + files, [], false), outs) && LastIsFinished(outs)
  }

  /**
   * The state is real: whenever a connection is about to change files, a crash between the close of the old one and the
   * creation of the next leaves a directory that is the disk of a log, opens again, and has a finished last file.
   */
  lemma CrashBetweenFiles(cfg: Config, s: State, past: seq<FileLog>, h: Hist, c: Ctx, outs: seq<Output>, e: Event,
                          g: Generated, clocks: seq<seq<nat>>)
    returns (files: seq<FileLog>, outs1: seq<Output>)
    requires Behind(cfg, s, past, h) && Connected(cfg, View(past, h), c, outs) && c.AtBoundary()
    requires s.CurrentPosition() >= cfg.fileSize && e.IsGtid() && LeftAfter(0, e).Some?
    requires AllFits(cfg, View(past, h), c, e, g)
    requires Substantial(cfg, g) && Clocked(clocks) && SingleLine(cfg.first)
    ensures AppPart(cfg, s, c, e, g, clocks, Opening).Some?
    ensures LeftFinished(cfg, past, AppPart(cfg, s, c, e, g, clocks, Opening).value, files, outs1)
    ensures Order(past + files) == Order(View(past, h).files)
    ensures CurrentPosition(SR.Log(past + files, [], false)) == CurrentPosition(View(past, h)) + |g.rotate.data|
  {
    hide Behind, View, ProcessEvent, AppEvent, Connected, NewFile, CurrentPosition, Relocated, RoomFor, BodyOk, PhaseOf,
      Order, PrefaceFits, CanEnter, FilesMade, AppRotate, SM.DiskOf, SM.AllGtids, CrashIn, CallsFor, R.Load, Paused,
      Substantial, SM.DistinctNames, SM.WholeTransactions, RewriteEvent, FileToUse, AppFileToUse, RotateFits,
      SingleLine, Going, RotatesAway;
    var log := View(past, h);
    BoundaryGoes(cfg, log, c, outs);
    ConnectedBasics(cfg, log, c, outs);
    PositionSeen(cfg, s, past, h, c);
    var outs' := RewriteStep(cfg, log, c, outs, e, g, 0, None);
    var name := AppFileToUse(cfg, s, c).value;
    FinishFile(cfg, log, c, outs, name, g);
    var rotate := Made(Rotate, g.rotate, CurrentPosition(log), name);
    outs1 := Continued(outs, rotate);
    var h1 := RotateLinked(cfg, s, past, h, c, name, g, clocks[3]);
    var (s1, c1) := AppEvent(s, c, AppRotate(s, g, name), clocks[3]).value;
    var log1 := View(past, h1);
    ClosedStorage(cfg, s1, past, h1);
    files := h1.files;
    FinishedOrder(cfg, log, log1, rotate);
    MadePaused(cfg, log1, outs1);
    MadeStorable(cfg, log1.files, outs1);
    StorableNames(cfg, past, files, outs1);
    Reopens(GtidBased, SM.AllGtids(cfg.base, past), files, SM.Streaming);
    var h2 := PartLinked(cfg, s, past, h, c, e, g, clocks, Opening);
    OpeningCrash(cfg, s1, past, h1, h2, c1, name, clocks[0]);
    FinishedPosition(cfg, log, c, outs, log1, rotate);
  }

  lemma FinishedPosition(cfg: Config, log: Log, c: Ctx, outs: seq<Output>, log1: Log, rotate: Event)
    requires Connected(cfg, log, c, outs) && c.AtBoundary() && log1.files != [] && log1.tail == []
    requires LastFile(log1).evs == LastFile(log).evs + [StoredAs(Ended, rotate)]
    ensures CurrentPosition(log1) == CurrentPosition(log) + |rotate.data|
  {
    hide FilesMade, Fits, PhaseOf, Conn;
    AtBoundaryPhase(log, c, LastOut(outs).f);
    WholeInFile(log, c, LastOut(outs).f);
    SM.BytesConcat(LastFile(log).evs, [StoredAs(Ended, rotate)]);
    OneBytes(StoredAs(Ended, rotate));
    SM.NoBytes();
  }

  lemma OneBytes(ev: Ev)
    ensures SM.Bytes([ev]) == ev.bytes
  {
    assert [ev][..0] == [];
    SM.NoBytes();
  }

  lemma OpeningCrash(cfg: Config, s: State, past: seq<FileLog>, h: Hist, h2: Hist, c: Ctx, name: Name, clock: seq<nat>)
    requires Behind(cfg, s, past, h) && !View(past, h).open && s.backend.disk == s.backend.synced
    requires PartStands(cfg, past, (s, c, ArtificialRotate(name, MAGIC_OFFSET), clock), h2)
    ensures var img := s.backend.disk;
      CrashIn(s, CallsFor(s, c, ArtificialRotate(name, MAGIC_OFFSET)), clock, 0, SM.Snap(img, img), img)
  {
    hide Tidy, ProcessEvent, AppEvent, SR.Abs, CrashIn, CallsFor, RotatesAway, Process, Covers, SM.AllGtids, SeeState,
      See;
    var e := ArtificialRotate(name, MAGIC_OFFSET);
    var h3 := Linked(cfg, s, past, h2, c, e, clock);
    SameSeen(s, h);
    SeeIsOpen(SR.Abs(h));
    OpenCalls(s, c, name);
    CrashAtOnce(s, c, e, clock);
  }

  lemma SeeIsOpen(log: Log)
    ensures See(log).open == log.open
  {
  }

  lemma MadePaused(cfg: Config, log: Log, outs: seq<Output>)
    requires FilesMade(cfg, log.files, outs) && log.files != [] && log.tail == []
    ensures Paused(cfg, log, outs) && LastIsFinished(outs)
  {
    hide Shaped;
    var n := |log.files| - 1;
    EndsComplete(outs[n].f.events);
  }

  lemma EndsComplete(events: seq<Event>)
    requires PhaseOf(GtidBased, events).Ended?
    ensures SM.Complete(Copy(GtidBased, events))
  {
  }

  /**
   * From that crash on: the program starts again, and the first transaction of the next connection is written directly
   * behind the ROTATE.
   */
  lemma ContinuesAfterRotate(cfg: Config, past: seq<FileLog>, x: (State, Ctx, Event, seq<nat>), files: seq<FileLog>,
                             outs: seq<Output>, again: Settings, e: Event, g: Generated, clocks: seq<seq<nat>>)
    returns (h': Hist, outs': seq<Output>)
    requires LeftFinished(cfg, past, x, files, outs) && e.IsGtid() && LeftAfter(0, e).Some?
    requires var log := SR.Log(past + files, [], false); AllFits(cfg, log, FreshContext(log, GtidBased), e, g)
    requires Substantial(cfg, g) && Clocked(clocks)
    ensures var r := Restart(x.0.backend.disk, GtidBased, cfg.base, again);
      && r.Ok? && AppRewrite(cfg, r.value, FreshReader(r.value), e, g, clocks).Ok?
      && var (s', c') := AppRewrite(cfg, r.value, FreshReader(r.value), e, g, clocks).value;
         && Behind(cfg, s', past, h') && Connected(cfg, View(past, h'), c', outs') && outs' != []
         && BehindTerminator(LastOut(outs').f.events)
  {
    hide SM.DiskOf, SM.AllGtids, Loads, Restart, CrashIn, CallsFor, Paused, PhaseOf, AllFits, AppRewrite, Behind, View,
      Connected, FreshReader, FreshContext, SM.DistinctNames, SM.WholeTransactions, Substantial, AtEase;
    var b := RestartHolds(cfg, past, files, x.0.backend.disk, again);
    var s := Restart(x.0.backend.disk, GtidBased, cfg.base, again).value;
    var log := SR.Log(past + files, [], false);
    h', outs' := FirstTransactionOnStorage(cfg, s, b, log, outs, e, g, clocks);
  }

  // ----- a concrete run ----------------------------------------------------------------

  /** A size limit that every transaction exceeds. */
  ghost function Tiny(first: Name): Config {
    Config(first, 0, {}, (gtids: set<Gtid>) => [0])
  }

  ghost function OneByte(): Generated {
    Generated(Blob(1, [0]), Blob(1, [0]), 1, Some([0]), true)
  }

  /** A transaction of one event. */
  ghost function Txn(name: Name, x: Gtid): Event {
    Event(GtidLog, false, 1, 1, MAGIC_OFFSET + 1, [0], name, 0, Some(x), 1, 1, true)
  }

  ghost function Zeros(): seq<seq<nat>> {
    [[0, 0, 0], [0, 0, 0], [0, 0, 0], [0, 0, 0], [0, 0, 0]]
  }

  lemma TinyBasics(first: Name, x: Gtid)
    ensures Clocked(Zeros()) && Substantial(Tiny(first), OneByte()) && BodyOk(Txn(first, x), [0])
    ensures Txn(first, x).IsGtid() && LeftAfter(0, Txn(first, x)) == Some(0)
    ensures forall gtids :: PrefaceFits(Tiny(first), gtids, OneByte())
  {
  }

  lemma NewPosition(first: Name, was: Log, log: Log, c: Ctx, outs: seq<Output>)
    requires Connected(Tiny(first), log, c, outs) && NewlyOpened(Tiny(first), was, OneByte(), outs)
    ensures CurrentPosition(log) == MAGIC_OFFSET + 2
  {
    hide Connected, CurrentPosition;
    ConnectedPosition(Tiny(first), log, c, outs);
    var events := LastOut(outs).f.events;
    assert events[..1] == [events[0]] && [events[0]][..0] == [];
    assert Offset([events[0]]) == MAGIC_OFFSET + 1;
  }

  lemma SmallRoom(log: Log, first: Name, x: Gtid)
    requires CurrentPosition(log) < 100
    ensures RoomFor(log, Txn(first, x), [0]) && RotateFits(log, OneByte())
  {
    hide CurrentPosition;
  }

  lemma FirstFits(first: Name, x: Gtid)
    ensures var (cfg, log) := (Tiny(first), SR.Log([], [], false));
      && AllFits(cfg, log, FreshContext(log, GtidBased), Txn(first, x), OneByte())
      && NewFile(cfg, log, FreshContext(log, GtidBased), OneByte()).Ok?
      && CurrentPosition(NewFile(cfg, log, FreshContext(log, GtidBased), OneByte()).value.0) == MAGIC_OFFSET + 2
  {
    hide NewFile, CurrentPosition, Connected, PrefaceFits, PrefaceKeeps, Since, NewlyOpened, RoomFor, BodyOk;
    var (cfg, log, g) := (Tiny(first), SR.Log([], [], false), OneByte());
    TinyBasics(first, x);
    var outs := OpenFirst(cfg, log, g);
    var (log1, c1) := NewFile(cfg, log, FreshContext(log, GtidBased), g).value;
    NewPosition(first, log, log1, c1, outs);
    SmallRoom(log1, first, x);
  }

  lemma OnlyFile(cfg: Config, log: Log, c: Ctx, outs: seq<Output>)
    requires Connected(cfg, log, c, outs) && |outs| == 1
    ensures log.files != [] && LastFile(log).name == cfg.first
  {
    hide Shaped, Conn, PhaseOf;
  }

  lemma SecondFits(first: Name, x: Gtid, log: Log, c: Ctx, outs: seq<Output>)
    requires first.number < 999_999 && Connected(Tiny(first), log, c, outs) && |outs| == 1 && c.AtBoundary()
    requires !c.IsFresh()
    requires CurrentPosition(log) < 50
    ensures AllFits(Tiny(first), log, c, Txn(first, x), OneByte())
  {
    hide NewFile, CurrentPosition, Connected, PrefaceFits, SameMarks, NewlyOpened, RoomFor, BodyOk, RotateFits;
    var (cfg, g) := (Tiny(first), OneByte());
    TinyBasics(first, x);
    SmallRoom(log, first, x);
    OnlyFile(cfg, log, c, outs);
    var outs' := OpenNext(cfg, log, c, outs, g);
    var (log1, c1) := NewFile(cfg, log, c, g).value;
    NewPosition(first, log, log1, c1, outs');
    SmallRoom(log1, first, x);
  }

  lemma AgainFits(first: Name, x: Gtid, log: Log, outs: seq<Output>)
    requires Paused(Tiny(first), log, outs) && LastIsFinished(outs) && CurrentPosition(log) < 60
    ensures AllFits(Tiny(first), log, FreshContext(log, GtidBased), Txn(first, x), OneByte())
  {
    hide CurrentPosition, PrefaceFits, PrefaceKeeps, RoomFor, BodyOk, Paused, PhaseOf, Connected, ProcessEvent, Preface;
    var (cfg, g) := (Tiny(first), OneByte());
    TinyBasics(first, x);
    PausedLast(cfg, log, outs);
    FreshBasics(cfg, log, outs);
    PrefaceSkipped(cfg, log, outs, g);
    SamePosition(log);
    SmallRoom(log.(open := true), first, x);
  }

  /**
   * ROTATE does not always stay last.  From an empty directory: one transaction; a crash while the second one changes
   * files, after the close and before the next file; a restart; and the second transaction again.
   */
  lemma RotateIsNotAlwaysLast(first: Name, x: Gtid, y: Gtid, settings: Settings, again: Settings)
    returns (h': Hist, outs': seq<Output>)
    requires SingleLine(first) && first.number < 999_999
    ensures var (cfg, g, zeros) := (Tiny(first), OneByte(), Zeros());
      && Clocked(zeros) && First(cfg, settings).Ok?
      && var s0 := First(cfg, settings).value;
         && AppRewrite(cfg, s0, FreshReader(s0), Txn(first, x), g, zeros).Ok?
         && var (s1, c1) := AppRewrite(cfg, s0, FreshReader(s0), Txn(first, x), g, zeros).value;
            && AppPart(cfg, s1, c1, Txn(first, y), g, zeros, Opening).Some?
            && var (s2, c2, e2, clock) := AppPart(cfg, s1, c1, Txn(first, y), g, zeros, Opening).value;
               var img := s2.backend.disk;
               && CrashIn(s2, CallsFor(s2, c2, e2), clock, 0, SM.Snap(img, img), img)
               && Restart(img, GtidBased, cfg.base, again).Ok?
               && var s3 := Restart(img, GtidBased, cfg.base, again).value;
                  && AppRewrite(cfg, s3, FreshReader(s3), Txn(first, y), g, zeros).Ok?
                  && var (s4, c4) := AppRewrite(cfg, s3, FreshReader(s3), Txn(first, y), g, zeros).value;
                     && Behind(cfg, s4, [], h') && Connected(cfg, View([], h'), c4, outs') && outs' != []
                     && BehindTerminator(LastOut(outs').f.events)
  {
    hide First, AppRewrite, AppPart, CrashIn, CallsFor, Restart, Behind, View, Connected, CurrentPosition, NewFile,
      Holds, Paused, Going, AllFits, FreshReader, FreshContext, Clocked, Substantial, SingleLine, Order;
    var (cfg, g, zeros) := (Tiny(first), OneByte(), Zeros());
    TinyBasics(first, x);
    TinyBasics(first, y);
    FirstFits(first, x);
    NothingPaused(cfg);
    var h := FirstHolds(cfg, settings);
    var s0, log0 := First(cfg, settings).value, SR.Log([], [], false);
    var h1, outs1 := FirstTransactionOnStorage(cfg, s0, Shelf([], h), log0, [], Txn(first, x), g, zeros);
    var (s1, c1) := AppRewrite(cfg, s0, FreshReader(s0), Txn(first, x), g, zeros).value;
    var log1 := View([], h1);
    NotFresh(cfg, log1, c1, outs1);
    GoingBasics(cfg, log1, c1, outs1, 0, Some(x));
    SecondFits(first, y, log1, c1, outs1);
    var files, outs2 := CrashBetweenFiles(cfg, s1, [], h1, c1, outs1, Txn(first, y), g, zeros);
    var log2 := SR.Log([] + files, [], false);
    AgainFits(first, y, log2, outs2);
    var part := AppPart(cfg, s1, c1, Txn(first, y), g, zeros, Opening).value;
    h', outs' := ContinuesAfterRotate(cfg, [], part, files, outs2, again, Txn(first, y), g, zeros);
  }
}
