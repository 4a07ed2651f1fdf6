/** Every history of a storage in rewrite mode: connections, timeouts, exits, crashes and purges. */
module RewriteHistory {
  import opened Prelude
  import opened BinlogNames
  import opened ReaderContext
  import opened Streaming
  import opened Alignment
  import opened Connections
  import opened GtidResume
  import opened Sessions
  import opened PurgedPast
  import opened Application
  import opened EndToEnd
  import opened Restarts
  import opened RewriteMode
  import opened RewriteCrashes
  import opened RewriteSessions
  import opened RewriteStorage
  import SM = StorageModel
  import SR = StorageRuns
  import R = Recovery
  import P = Purge

  // ----- limits ------------------------------------------------------------------------

  /** Everything that is generated or rewritten has bytes, and positions stay below 2^32. */
  ghost predicate AppFits(cfg: Config, s: State, c: Ctx, e: Event, g: Generated, clocks: seq<seq<nat>>)
    requires Clocked(clocks)
  {
    && Substantial(cfg, g) && g.body.Some? && BodyOk(e, g.body.value)
    && (AppNeedsFile(cfg, s, c) ==>
          && AppFileToUse(cfg, s, c).Some? && PrefaceFits(cfg, Known(s), g)
          && (c.IsFresh() || RotateFitsAt(s.CurrentPosition(), g)))
    && var r := if AppNeedsFile(cfg, s, c) then AppNewFile(cfg, s, c, g, clocks) else Ok((s, c));
       r.Ok? ==> RoomAt(r.value.0.CurrentPosition(), e, g.body.value)
  }

  lemma FitsLinked(cfg: Config, s: State, past: seq<FileLog>, h: Hist, c: Ctx, e: Event, g: Generated,
                   clocks: seq<seq<nat>>)
    requires Behind(cfg, s, past, h) && (c.IsFresh() ==> s.boundary == 0)
    requires Clocked(clocks) && AppFits(cfg, s, c, e, g, clocks)
    ensures AllFits(cfg, View(past, h), c, e, g)
  {
    hide Behind, View, NewFile, AppNewFile, PrefaceFits, RotateFitsAt, RoomAt, BodyOk, CurrentPosition, FileToUse,
      AppFileToUse, NeedsFile, AppNeedsFile, Substantial, Known;
    PositionSeen(cfg, s, past, h, c);
    KnownSeen(cfg, s, past, h);
    if NeedsFile(cfg, View(past, h), c) && NewFile(cfg, View(past, h), c, g).Ok? {
      var h1 := NewFileLinked(cfg, s, past, h, c, g, clocks);
      PositionSeen(cfg, AppNewFile(cfg, s, c, g, clocks).value.0, past, h1, c);
    }
  }

  // ----- events that arrive ------------------------------------------------------------

  ghost predicate AllClocked(clocks: seq<seq<seq<nat>>>, n: nat) {
    |clocks| == n && forall i :: 0 <= i < n ==> Clocked(clocks[i])
  }

  /** The loop of receive_binlog_events in rewrite mode. */
  ghost function AppRewriteFeed(cfg: Config, s: State, c: Ctx, events: seq<Event>, gens: seq<Generated>,
                                clocks: seq<seq<seq<nat>>>)
    : Result<(State, Ctx)>
    requires |gens| == |events| && AllClocked(clocks, |events|)
    decreases |events|
  {
    if events == [] then Ok((s, c))
    else
      var r := AppRewrite(cfg, s, c, events[0], gens[0], clocks[0]);
      if r.Err? then Err else AppRewriteFeed(cfg, r.value.0, r.value.1, events[1..], gens[1..], clocks[1..])
  }

  /** A source file without checksums ends the connection. */
  lemma {:induction false} AppChecksumsRequired(cfg: Config, s: State, c: Ctx, events: seq<Event>,
                                                gens: seq<Generated>, clocks: seq<seq<seq<nat>>>)
    requires |gens| == |events| && AllClocked(clocks, |events|)
    requires AppRewriteFeed(cfg, s, c, events, gens, clocks).Ok?
    ensures forall i :: 0 <= i < |events| && events[i].code.FormatDescription? ==> gens[i].checksums
    decreases |events|
  {
    hide AppNewFile, AppEvent, AppNeedsFile, AppRelocated;
    if events != [] {
      var (s1, c1) := AppRewrite(cfg, s, c, events[0], gens[0], clocks[0]).value;
      AppChecksumsRequired(cfg, s1, c1, events[1..], gens[1..], clocks[1..]);
      forall i | 0 <= i < |events| && events[i].code.FormatDescription? ensures gens[i].checksums {
        if i > 0 { assert events[1..][i - 1] == events[i] && gens[1..][i - 1] == gens[i]; }
      }
    }
  }

  /** All source files have checksums, and nothing that is written exceeds its limits. */
  ghost predicate AppAllowed(cfg: Config, s: State, c: Ctx, events: seq<Event>, gens: seq<Generated>,
                             clocks: seq<seq<seq<nat>>>)
    requires |gens| == |events| && AllClocked(clocks, |events|)
    decreases |events|
  {
    events != [] ==>
      && (events[0].code.FormatDescription? ==> gens[0].checksums) && Substantial(cfg, gens[0])
      && (!IsSkipped(events[0]) ==> AppFits(cfg, s, c, events[0], gens[0], clocks[0]))
      && var r := AppRewrite(cfg, s, c, events[0], gens[0], clocks[0]);
         r.Ok? ==> AppAllowed(cfg, r.value.0, r.value.1, events[1..], gens[1..], clocks[1..])
  }

  lemma {:induction false} AllowedLinked(cfg: Config, s: State, past: seq<FileLog>, h: Hist, c: Ctx, events: seq<Event>,
                                         gens: seq<Generated>, clocks: seq<seq<seq<nat>>>)
    requires Behind(cfg, s, past, h) && (c.IsFresh() ==> s.boundary == 0)
    requires |gens| == |events| && AllClocked(clocks, |events|) && AppAllowed(cfg, s, c, events, gens, clocks)
    ensures Allowed(cfg, View(past, h), c, events, gens)
    decreases |events|
  {
    hide Behind, View, RewriteEvent, AppRewrite, Substantial, AppFits, AllFits;
    if events != [] {
      if !IsSkipped(events[0]) { FitsLinked(cfg, s, past, h, c, events[0], gens[0], clocks[0]); }
      if RewriteEvent(cfg, View(past, h), c, events[0], gens[0]).Ok? {
        var h1 := RewriteLinked(cfg, s, past, h, c, events[0], gens[0], clocks[0]);
        var (s1, c1) := AppRewrite(cfg, s, c, events[0], gens[0], clocks[0]).value;
        AllowedLinked(cfg, s1, past, h1, c1, events[1..], gens[1..], clocks[1..]);
      }
    }
  }

  lemma {:induction false} FeedLinked(cfg: Config, s: State, past: seq<FileLog>, h: Hist, c: Ctx, events: seq<Event>,
                                      gens: seq<Generated>, clocks: seq<seq<seq<nat>>>)
    returns (h': Hist)
    requires Behind(cfg, s, past, h) && (c.IsFresh() ==> s.boundary == 0)
    requires |gens| == |events| && AllClocked(clocks, |events|) && AppAllowed(cfg, s, c, events, gens, clocks)
    requires RewriteFeed(cfg, View(past, h), c, events, gens).Ok?
    ensures var r := AppRewriteFeed(cfg, s, c, events, gens, clocks);
      && r.Ok? && Behind(cfg, r.value.0, past, h') && (r.value.1.IsFresh() ==> r.value.0.boundary == 0)
      && RewriteFeed(cfg, View(past, h), c, events, gens) == Ok((View(past, h'), r.value.1))
    decreases |events|
  {
    hide Behind, View, RewriteEvent, AppRewrite, Substantial, AppFits;
    h' := h;
    if events != [] {
      var h1 := RewriteLinked(cfg, s, past, h, c, events[0], gens[0], clocks[0]);
      var (s1, c1) := AppRewrite(cfg, s, c, events[0], gens[0], clocks[0]).value;
      h' := FeedLinked(cfg, s1, past, h1, c1, events[1..], gens[1..], clocks[1..]);
    }
  }

  // ----- what may happen ---------------------------------------------------------------

  /** What arrives in a connection, with the clock readings of its calls. */
  datatype Arrival = Arrival(received: nat, gens: seq<Generated>, clocks: seq<seq<seq<nat>>>)

  /** What happens next; everything but a timeout ends the program, which is then started again. */
  datatype Doing =
    | TimesOut(a: Arrival)
    | Exits(a: Arrival, again: Settings)
    | CrashesAfter(a: Arrival, stage: Stage, clock: seq<nat>, i: nat, snap: SM.Snap, img: SM.Disk, again: Settings)
    | CrashesIn(a: Arrival, g: Generated, clocks: seq<seq<nat>>, part: Part, i: nat, snap: SM.Snap, img: SM.Disk,
                again: Settings)
    | Purges(target: Name, refusing: set<ObjectName>, again: Settings)
    | PurgeCrashes(target: Name, refusing: set<ObjectName>, snap: SM.Snap, img: SM.Disk, again: Settings)

  datatype Turn = Turn(src: seq<SrcFile>, doing: Doing)

  /** These events of the answer can arrive, within all limits. */
  ghost predicate Arrives(cfg: Config, s: State, src: seq<SrcFile>, a: Arrival) {
    && Answer(s, cfg.base, src).Some? && a.received <= |Answer(s, cfg.base, src).value|
    && |a.gens| == a.received && AllClocked(a.clocks, a.received)
    && AppAllowed(cfg, s, FreshReader(s), Answer(s, cfg.base, src).value[..a.received], a.gens, a.clocks)
  }

  ghost function Taken(cfg: Config, s: State, src: seq<SrcFile>, a: Arrival): Result<(State, Ctx)>
    requires Arrives(cfg, s, src, a)
  {
    AppRewriteFeed(cfg, s, FreshReader(s), Answer(s, cfg.base, src).value[..a.received], a.gens, a.clocks)
  }

  ghost function One(a: Arrival, g: Generated, clocks: seq<seq<nat>>): Arrival {
    Arrival(a.received + 1, a.gens + [g], a.clocks + [clocks])
  }

  /** A crash inside a part of the handling of the next event leaves img. */
  ghost predicate CrashInPart(cfg: Config, s: State, c: Ctx, e: Event, g: Generated, clocks: seq<seq<nat>>, part: Part,
                              i: nat, snap: SM.Snap, img: SM.Disk)
  {
    && Clocked(clocks) && AppPart(cfg, s, c, e, g, clocks, part).Some?
    && var (s1, c1, e1, clock) := AppPart(cfg, s, c, e, g, clocks, part).value;
       CrashIn(s1, CallsFor(s1, c1, e1), clock, i, snap, img)
  }

  /** What the outside decides, as far as the application gets there; every answer is within the limits. */
  ghost predicate Possible(cfg: Config, s: State, t: Turn) {
    match t.doing
    case TimesOut(a) => Answer(s, cfg.base, t.src).Some? ==> Arrives(cfg, s, t.src, a)
    case Exits(a, again) => SingleLine(cfg.first) && (Answer(s, cfg.base, t.src).Some? ==> Arrives(cfg, s, t.src, a))
    case CrashesAfter(a, stage, clock, i, snap, img, again) =>
      && !stage.InEvent? && Loads(img, GtidBased)
      && (Answer(s, cfg.base, t.src).Some? ==>
            && Arrives(cfg, s, t.src, a)
            && (Taken(cfg, s, t.src, a).Ok? ==>
                  var (s1, c1) := Taken(cfg, s, t.src, a).value;
                  CrashIn(s1, CallsIn(s1, c1, stage), clock, i, snap, img)))
    case CrashesIn(a, g, clocks, part, i, snap, img, again) =>
      && Loads(img, GtidBased)
      && (Answer(s, cfg.base, t.src).Some? ==>
            && Arrives(cfg, s, t.src, a) && Arrives(cfg, s, t.src, One(a, g, clocks))
            && (Taken(cfg, s, t.src, a).Ok? ==>
                  var (s1, c1) := Taken(cfg, s, t.src, a).value;
                  var e := Answer(s, cfg.base, t.src).value[a.received];
                  CrashInPart(cfg, s1, c1, e, g, clocks, part, i, snap, img)))
    case Purges(target, refusing, again) =>
      SingleLine(cfg.first) && (PurgeWorks(s, target, refusing) ==> !P.WillRefuse(s, target, refusing))
    case PurgeCrashes(target, refusing, snap, img, again) =>
      PurgeCrash(s, target, refusing, snap, img) && Loads(img, s.mode)
  }

  ghost function After(cfg: Config, s: State, t: Turn): Result<State> {
    match t.doing
    case TimesOut(a) =>
      if !Arrives(cfg, s, t.src, a) || Taken(cfg, s, t.src, a).Err? then Err
      else TimeOut(Taken(cfg, s, t.src, a).value.0)
    case Exits(a, again) =>
      if !Arrives(cfg, s, t.src, a) || Taken(cfg, s, t.src, a).Err? then Err
      else
        var r := SR.Apply(Taken(cfg, s, t.src, a).value.0, SR.FlushNow, 0);
        if r.Err? then Err else Restart(r.value.backend.disk, s.mode, cfg.base, again)
    case CrashesAfter(_, _, _, _, _, img, again) => Restart(img, s.mode, cfg.base, again)
    case CrashesIn(_, _, _, _, _, _, img, again) => Restart(img, s.mode, cfg.base, again)
    case Purges(target, refusing, again) => Restart(PurgeDisk(s, target, refusing), s.mode, cfg.base, again)
    case PurgeCrashes(_, _, _, img, again) => Restart(img, s.mode, cfg.base, again)
  }

  /** What a turn purges: the files up to the target if it may be purged, in a crash that or nothing. */
  ghost predicate PurgedIn(t: Turn, a: Shelf, b: Shelf) {
    match t.doing
    case Purges(target, _, _) => if P.Purgeable(a.h.files, target) then Shortened(a, target, b) else Same(a, b)
    case PurgeCrashes(target, _, _, _, _) => Same(a, b) || Shortened(a, target, b)
    case _ => b.past == a.past
  }

  // ----- a turn of the storage is a turn of the log ------------------------------------

  /** Between connections the storage stands for this log, all of it on disk. */
  ghost predicate Holds(cfg: Config, s: State, a: Shelf, log: Log) {
    AtEase(s, cfg.base, a) && s.mode == GtidBased && log == View(a.past, a.h)
  }

  lemma HoldsBasics(cfg: Config, s: State, a: Shelf, log: Log)
    requires Holds(cfg, s, a, log)
    ensures Behind(cfg, s, a.past, a.h) && s.boundary == 0 && FreshReader(s).IsFresh()
    ensures log == SR.Log(a.past + a.h.files, [], a.h.open) && Covers(a.past, SR.Abs(a.h))
    ensures FreshReader(s) == FreshContext(log, GtidBased)
  {
    hide SM.Inv, SM.AllGtids;
    FlushedLog(a.h);
    NothingReady(s, a.h);
    SameReader(s, a.h);
    SameContext(a.past, SR.Abs(a.h), GtidBased);
  }

  lemma NothingReady(s: State, h: Hist)
    requires SM.Inv(s, h) && h.ready == []
    ensures s.boundary == 0
  {
    SM.NoBytes();
  }

  /** The request and so the answer are those of the log. */
  lemma SameRequest(cfg: Config, s: State, a: Shelf, log: Log, src: seq<SrcFile>)
    requires Holds(cfg, s, a, log)
    ensures Answer(s, cfg.base, src) == Offered(cfg, log, src)
  {
    hide AtEase, Behind, View, Known, ServeGtids, SM.AllGtids;
    HoldsBasics(cfg, s, a, log);
    KnownSeen(cfg, s, a.past, a.h);
  }

  /** A connection on the storage and on the log. */
  lemma ArrivalLinked(cfg: Config, s: State, a: Shelf, log: Log, outs: seq<Output>, plain: Log, at: seq<nat>,
                      src: seq<SrcFile>, arrival: Arrival)
    returns (h1: Hist, outs1: seq<Output>)
    requires Holds(cfg, s, a, log) && Shadowed(cfg, log, outs, plain, src, at) && Sound(GtidBased, cfg.base, src)
    requires Arrives(cfg, s, src, arrival)
    ensures Answer(s, cfg.base, src) == Offered(cfg, log, src)
    ensures var stream, c := Answer(s, cfg.base, src).value, FreshContext(log, GtidBased);
      && Allowed(cfg, log, c, stream[..arrival.received], arrival.gens)
      && RewriteFeed(cfg, log, c, stream[..arrival.received], arrival.gens).Ok?
      && Taken(cfg, s, src, arrival).Ok?
      && var (s1, c1) := Taken(cfg, s, src, arrival).value;
         && Behind(cfg, s1, a.past, h1) && (c1.IsFresh() ==> s1.boundary == 0)
         && RewriteFeed(cfg, log, c, stream[..arrival.received], arrival.gens) == Ok((View(a.past, h1), c1))
         && Storable(cfg, View(a.past, h1).files, outs1)
  {
    hide AtEase, Behind, View, Answer, AppAllowed, Allowed, RewriteFeed, AppRewriteFeed, FreshReader, FreshContext,
      Paused, AtRest, Order, GoodSource, FreshGtids, Active, ServeGtids, Serve, Resumes, Storable, Since, AfterTimeout,
      Feed, SM.AllGtids;
    HoldsBasics(cfg, s, a, log);
    SameRequest(cfg, s, a, log, src);
    var stream, n, c := Answer(s, cfg.base, src).value, arrival.received, FreshContext(log, GtidBased);
    AllowedLinked(cfg, s, a.past, a.h, c, stream[..n], arrival.gens, arrival.clocks);
    var j := SameAnswer(cfg, log, plain, src, at);
    var paused;
    outs1, paused := RewriteConnection(cfg, log, outs, plain, src, at, j, stream, n, arrival.gens);
    h1 := FeedLinked(cfg, s, a.past, a.h, c, stream[..n], arrival.gens, arrival.clocks);
  }

  /** What a turn of the storage is for the log, given the files it leaves. */
  ghost function LogTurn(t: Turn, files: seq<FileLog>): RewriteTurn {
    match t.doing
    case TimesOut(a) => RewriteTurn(t.src, a.received, a.gens, TimedOut)
    case Exits(a, _) => RewriteTurn(t.src, a.received, a.gens, Crashed(files))
    case CrashesAfter(a, _, _, _, _, _, _) => RewriteTurn(t.src, a.received, a.gens, Crashed(files))
    case CrashesIn(a, g, _, part, _, _, _, _) => RewriteTurn(t.src, a.received, a.gens, CrashedIn(g, part, files))
    case _ => RewriteTurn(t.src, 0, [], Crashed(files))
  }

  ghost predicate Follows(cfg: Config, log: Log, t: Turn, lt: RewriteTurn, log': Log) {
    RewriteLeads(cfg, log, lt, log') && lt == LogTurn(t, log'.files)
  }

  lemma TimesOutTurn(cfg: Config, s: State, a: Shelf, log: Log, outs: seq<Output>, plain: Log, at: seq<nat>, t: Turn)
    returns (b: Shelf, lt: RewriteTurn, log': Log)
    requires Holds(cfg, s, a, log) && Shadowed(cfg, log, outs, plain, t.src, at) && Sound(GtidBased, cfg.base, t.src)
    requires Answer(s, cfg.base, t.src).Some? && Possible(cfg, s, t) && t.doing.TimesOut?
    ensures After(cfg, s, t).Ok? && Holds(cfg, After(cfg, s, t).value, b, log') && Follows(cfg, log, t, lt, log')
    ensures b.past == a.past
  {
    hide SM.Inv, SR.Abs, Answer, Allowed, AppAllowed, RewriteFeed, AppRewriteFeed, FreshReader, FreshContext, Shadowed,
      Sound, Storable, SM.AllGtids, TimeOut, ServeGtids, SR.LogApply, Taken;
    var arrival := t.doing.a;
    var h1, outs1 := ArrivalLinked(cfg, s, a, log, outs, plain, at, t.src, arrival);
    var (s1, c1) := Taken(cfg, s, t.src, arrival).value;
    var h' := FinishFlushes(s1, h1);
    FinishMode(s1);
    Discarded(SR.Abs(h1));
    Discarded(View(a.past, h1));
    b, lt, log' := Shelf(a.past, h'), RewriteTurn(t.src, arrival.received, arrival.gens, TimedOut), View(a.past, h');
    FlushedLog(h');
  }

  /** The storage starts again on the files a crash or an exit has left. */
  lemma RestartHolds(cfg: Config, past: seq<FileLog>, files: seq<FileLog>, img: SM.Disk, again: Settings)
    returns (b: Shelf)
    requires img == SM.DiskOf(GtidBased, SM.AllGtids(cfg.base, past), files) && Loads(img, GtidBased)
    requires SM.DistinctNames(files) && SM.WholeTransactions(files) && (past == [] || files != [])
    ensures Restart(img, GtidBased, cfg.base, again).Ok?
    ensures Holds(cfg, Restart(img, GtidBased, cfg.base, again).value, b, SR.Log(past + files, [], false))
    ensures b.past == past
  {
    hide SM.DiskOf, SM.AllGtids, SM.DistinctNames, SM.WholeTransactions, Restart, Loads, Tidy;
    b := RestartEases(GtidBased, cfg.base, past, files, img, again);
    FlushedLog(b.h);
  }

  lemma CrashesAfterTurn(cfg: Config, s: State, a: Shelf, log: Log, outs: seq<Output>, plain: Log, at: seq<nat>,
                         t: Turn)
    returns (b: Shelf, lt: RewriteTurn, log': Log)
    requires Holds(cfg, s, a, log) && Shadowed(cfg, log, outs, plain, t.src, at) && Sound(GtidBased, cfg.base, t.src)
    requires Answer(s, cfg.base, t.src).Some? && Possible(cfg, s, t) && t.doing.CrashesAfter?
    ensures After(cfg, s, t).Ok? && Holds(cfg, After(cfg, s, t).value, b, log') && Follows(cfg, log, t, lt, log')
    ensures b.past == a.past
  {
    hide Tidy, SR.Abs, Answer, Allowed, AppAllowed, RewriteFeed, AppRewriteFeed, FreshReader, FreshContext, Shadowed,
      Sound, Storable, SM.AllGtids, ServeGtids, Taken, CrashIn, CallsIn, R.Load, SM.DiskOf, SM.DistinctNames,
      SM.WholeTransactions, Trimmed, Restart, Covers;
    var d := t.doing;
    var h1, outs1 := ArrivalLinked(cfg, s, a, log, outs, plain, at, t.src, d.a);
    var (s1, c1) := Taken(cfg, s, t.src, d.a).value;
    var files := CrashAtEnd(s1, h1, c1, d.stage, d.clock, d.i, d.snap, d.img);
    TrimmedUnpurged(a.past, SR.Abs(h1), files);
    b := RestartHolds(cfg, a.past, files, d.img, d.again);
    lt, log' := RewriteTurn(t.src, d.a.received, d.a.gens, Crashed(a.past + files)), SR.Log(a.past + files, [], false);
  }

  lemma FlushedTrim(s: State, h1: Hist, h': Hist)
    requires Tidy(s, h') && h'.files == SR.Abs(h').files && SR.Abs(h').files == SR.Abs(h1).files
    ensures Trimmed(SR.Abs(h1), h'.files)
  {
    hide SM.Inv, SR.Abs, Trimmed;
    TrimmedOnDisk(s, h');
    TrimmedFiles(SR.Abs(h'), SR.Abs(h1), h'.files);
  }

  lemma {:induction false} MadeNames(cfg: Config, files: seq<FileLog>, outs: seq<Output>, i: nat)
    requires FilesMade(cfg, files, outs) && i < |files|
    ensures files[i].name.base == cfg.first.base
    decreases |files|
  {
    hide Shaped;
    var n := |files| - 1;
    if i < n {
      MadeNames(cfg, files[..n], outs[..n], i);
    } else if n > 0 {
      MadeNames(cfg, files[..n], outs[..n], n - 1);
    }
  }

  lemma StorableNames(cfg: Config, past: seq<FileLog>, files: seq<FileLog>, outs: seq<Output>)
    requires Storable(cfg, past + files, outs) && SingleLine(cfg.first)
    ensures R.NewlineFree(files)
  {
    hide FilesMade, Shaped;
    var all := past + files;
    forall i | 0 <= i < |all| ensures all[i].name.base == cfg.first.base {
      var n := |all| - 1;
      if i < n {
        MadeNames(cfg, all[..n], outs[..n], i);
      } else if n > 0 {
        MadeNames(cfg, all[..n], outs[..n], n - 1);
      }
    }
    assert forall i :: 0 <= i < |files| ==> all[|past| + i] == files[i];
  }

  lemma ExitsTurn(cfg: Config, s: State, a: Shelf, log: Log, outs: seq<Output>, plain: Log, at: seq<nat>, t: Turn)
    returns (b: Shelf, lt: RewriteTurn, log': Log)
    requires Holds(cfg, s, a, log) && Shadowed(cfg, log, outs, plain, t.src, at) && Sound(GtidBased, cfg.base, t.src)
    requires Answer(s, cfg.base, t.src).Some? && Possible(cfg, s, t) && t.doing.Exits?
    ensures After(cfg, s, t).Ok? && Holds(cfg, After(cfg, s, t).value, b, log') && Follows(cfg, log, t, lt, log')
    ensures b.past == a.past
  {
    hide SM.Inv, SR.Abs, Answer, Allowed, AppAllowed, RewriteFeed, AppRewriteFeed, FreshReader, FreshContext, Shadowed,
      Sound, Storable, SM.AllGtids, ServeGtids, Taken, R.Load, SM.DiskOf, SM.DistinctNames, SM.WholeTransactions,
      Trimmed, Restart, SR.Apply, SR.LogApply, SR.HistApply, SM.HistFlush, R.NewlineFree, SingleLine;
    var arrival := t.doing.a;
    var h1, outs1 := ArrivalLinked(cfg, s, a, log, outs, plain, at, t.src, arrival);
    var (s1, c1) := Taken(cfg, s, t.src, arrival).value;
    SR.FailsIff(s1, h1, SR.FlushNow, 0);
    var h' := SR.StepRefines(s1, h1, SR.FlushNow, 0);
    Flushed(h1, h');
    SR.BaseKept(h1, SR.FlushNow);
    ApplyMode(s1, SR.FlushNow, 0);
    var s2 := SR.Apply(s1, SR.FlushNow, 0).value;
    FlushKeepsTidy(s1, h1, h');
    FlushedTrim(s2, h1, h');
    TrimmedUnpurged(a.past, SR.Abs(h1), h'.files);
    ExitDisk(s2, h');
    StorableNames(cfg, a.past, h'.files, outs1);
    Reopens(GtidBased, h1.base, h'.files, SM.Streaming);
    b := RestartHolds(cfg, a.past, h'.files, s2.backend.disk, t.doing.again);
    lt := RewriteTurn(t.src, arrival.received, arrival.gens, Crashed(a.past + h'.files));
    log' := SR.Log(a.past + h'.files, [], false);
  }

  lemma FlushKeepsTidy(s: State, h: Hist, h': Hist)
    requires Tidy(s, h) && SR.Apply(s, SR.FlushNow, 0).Ok? && SM.Inv(SR.Apply(s, SR.FlushNow, 0).value, h')
    requires h' == SR.HistApply(h, SR.FlushNow) || h' == SM.HistFlush(SR.HistApply(h, SR.FlushNow))
    ensures Tidy(SR.Apply(s, SR.FlushNow, 0).value, h')
  {
    hide SM.Inv, SR.Apply;
    FlushTs(s);
  }

  lemma ExitDisk(s: State, h: Hist)
    requires SM.Inv(s, h)
    ensures s.backend.disk == SM.DiskOf(s.mode, h.base, h.files) && SM.DistinctNames(h.files)
    ensures SM.WholeTransactions(h.files)
  {
  }

  lemma CrashesInTurn(cfg: Config, s: State, a: Shelf, log: Log, outs: seq<Output>, plain: Log, at: seq<nat>, t: Turn)
    returns (b: Shelf, lt: RewriteTurn, log': Log)
    requires Holds(cfg, s, a, log) && Shadowed(cfg, log, outs, plain, t.src, at) && Sound(GtidBased, cfg.base, t.src)
    requires Answer(s, cfg.base, t.src).Some? && Possible(cfg, s, t) && t.doing.CrashesIn?
    ensures After(cfg, s, t).Ok? && Holds(cfg, After(cfg, s, t).value, b, log') && Follows(cfg, log, t, lt, log')
    ensures b.past == a.past
  {
    hide Behind, View, Answer, Allowed, AppAllowed, RewriteFeed, AppRewriteFeed, FreshReader, FreshContext, Shadowed,
      Sound, Storable, SM.AllGtids, ServeGtids, Taken, CrashIn, CallsFor, R.Load, SM.DiskOf, SM.DistinctNames,
      SM.WholeTransactions, Restart, PartLeaves, AppPart, AtEase, RewriteEvent;
    var d := t.doing;
    var h1, outs1 := ArrivalLinked(cfg, s, a, log, outs, plain, at, t.src, d.a);
    var h2, outs2 := ArrivalLinked(cfg, s, a, log, outs, plain, at, t.src, One(d.a, d.g, d.clocks));
    var (s1, c1) := Taken(cfg, s, t.src, d.a).value;
    var stream, n := Answer(s, cfg.base, t.src).value, d.a.received;
    NextAccepted(cfg, log, FreshContext(log, GtidBased), stream, n, d.a.gens, d.g);
    NextSubstantial(cfg, s, t.src, d.a, d.g, d.clocks);
    var files := PartCrash(cfg, s1, a.past, h1, c1, stream[n], d.g, d.clocks, d.part, d.i, d.snap, d.img);
    b := RestartHolds(cfg, a.past, files, d.img, d.again);
    lt := RewriteTurn(t.src, n, d.a.gens, CrashedIn(d.g, d.part, a.past + files));
    log' := SR.Log(a.past + files, [], false);
  }

  lemma NextAccepted(cfg: Config, log: Log, c: Ctx, stream: seq<Event>, n: nat, gens: seq<Generated>, g: Generated)
    requires n < |stream| && |gens| == n && RewriteFeed(cfg, log, c, stream[..n + 1], gens + [g]).Ok?
    ensures RewriteFeed(cfg, log, c, stream[..n], gens).Ok?
    ensures var (log1, c1) := RewriteFeed(cfg, log, c, stream[..n], gens).value;
      RewriteEvent(cfg, log1, c1, stream[n], g).Ok?
  {
    hide RewriteEvent;
    assert stream[..n + 1] == stream[..n] + [stream[n]];
    assert (gens + [g])[..n] == gens && (gens + [g])[n..] == [g];
    RewriteFeedConcat(cfg, log, c, stream[..n], [stream[n]], gens + [g]);
  }

  lemma {:induction false} LastSubstantial(cfg: Config, s: State, c: Ctx, events: seq<Event>, gens: seq<Generated>,
                                           clocks: seq<seq<seq<nat>>>)
    requires events != [] && |gens| == |events| && AllClocked(clocks, |events|)
    requires AppAllowed(cfg, s, c, events, gens, clocks)
    requires AppRewriteFeed(cfg, s, c, events[..|events| - 1], gens[..|events| - 1], clocks[..|events| - 1]).Ok?
    ensures Substantial(cfg, gens[|events| - 1]) && Clocked(clocks[|events| - 1])
    decreases |events|
  {
    hide AppRewrite, AppFits, Substantial, Clocked;
    var n := |events| - 1;
    if n > 0 {
      var (s1, c1) := AppRewrite(cfg, s, c, events[0], gens[0], clocks[0]).value;
      assert events[..n][1..] == events[1..][..n - 1] && gens[..n][1..] == gens[1..][..n - 1];
      assert clocks[..n][1..] == clocks[1..][..n - 1];
      LastSubstantial(cfg, s1, c1, events[1..], gens[1..], clocks[1..]);
    }
  }

  lemma NextSubstantial(cfg: Config, s: State, src: seq<SrcFile>, a: Arrival, g: Generated, clocks: seq<seq<nat>>)
    requires Arrives(cfg, s, src, a) && Arrives(cfg, s, src, One(a, g, clocks)) && Taken(cfg, s, src, a).Ok?
    ensures Substantial(cfg, g) && Clocked(clocks)
  {
    hide AppRewrite, AppFits, Substantial, Clocked, Answer, FreshReader, AppAllowed, AppRewriteFeed;
    var n, b, stream := a.received, One(a, g, clocks), Answer(s, cfg.base, src).value;
    assert stream[..n + 1][..n] == stream[..n] && b.gens[..n] == a.gens && b.clocks[..n] == a.clocks;
    LastSubstantial(cfg, s, FreshReader(s), stream[..n + 1], b.gens, b.clocks);
  }

  // ----- purges ------------------------------------------------------------------------

  lemma PausedTrim(cfg: Config, log: Log, outs: seq<Output>)
    requires Paused(cfg, log, outs)
    ensures Trimmed(log, log.files)
  {
    hide FilesMade, Fits, PhaseOf;
  }

  /** Files that stay as they are: a connection in which nothing arrives. */
  lemma StillTurn(cfg: Config, log: Log, outs: seq<Output>, plain: Log, at: seq<nat>, src: seq<SrcFile>)
    returns (lt: RewriteTurn)
    requires Shadowed(cfg, log, outs, plain, src, at) && Sound(GtidBased, cfg.base, src)
    ensures RewriteLeads(cfg, log, lt, SR.Log(log.files, [], false))
    ensures lt == RewriteTurn(src, 0, [], Crashed(log.files))
  {
    hide Paused, AtRest, Order, Sound, ServeGtids, Serve, Resumes, SM.AllGtids;
    var j := SameAnswer(cfg, log, plain, src, at);
    PausedTrim(cfg, log, outs);
    lt := RewriteTurn(src, 0, [], Crashed(log.files));
    assert Offered(cfg, log, src).value[..0] == [];
  }

  lemma PurgesTurn(cfg: Config, s: State, a: Shelf, log: Log, outs: seq<Output>, plain: Log, at: seq<nat>, t: Turn)
    returns (b: Shelf, lt: RewriteTurn, log': Log)
    requires Holds(cfg, s, a, log) && Shadowed(cfg, log, outs, plain, t.src, at) && Sound(GtidBased, cfg.base, t.src)
    requires Possible(cfg, s, t) && (t.doing.Purges? || t.doing.PurgeCrashes?)
    ensures After(cfg, s, t).Ok? && Holds(cfg, After(cfg, s, t).value, b, log') && Follows(cfg, log, t, lt, log')
    ensures PurgedIn(t, a, b)
  {
    hide AtEase, Behind, Sound, PurgeWorks, PurgeDisk, PurgeCrash, Restart, Loads, Paused, AtRest, Order, SingleLine,
      R.NewlineFree, Storable, P.WillRefuse, P.Purgeable, Same, Shortened, RewriteLeads, SM.AllGtids;
    HoldsBasics(cfg, s, a, log);
    PausedStorable(cfg, log, outs);
    lt := StillTurn(cfg, log, outs, plain, at, t.src);
    log' := SR.Log(log.files, [], false);
    if t.doing.Purges? {
      StorableNames(cfg, a.past, a.h.files, outs);
      b := PurgeLeaves(s, cfg.base, a, t.doing.target, t.doing.refusing, t.doing.again);
    } else {
      var d := t.doing;
      b := PurgeCrashLeaves(s, cfg.base, a, d.target, d.refusing, d.snap, d.img, d.again);
    }
    EaseLog(After(cfg, s, t).value, cfg.base, b);
  }

  lemma EaseLog(s: State, base: set<Gtid>, b: Shelf)
    requires AtEase(s, base, b)
    ensures View(b.past, b.h) == SR.Log(b.past + b.h.files, [], b.h.open)
  {
    hide SM.Inv;
    FlushedLog(b.h);
  }

  /** Whatever happens next succeeds, and is a turn of the log. */
  lemma TurnLinked(cfg: Config, s: State, a: Shelf, log: Log, outs: seq<Output>, plain: Log, at: seq<nat>, t: Turn)
    returns (b: Shelf, lt: RewriteTurn, log': Log)
    requires Holds(cfg, s, a, log) && Shadowed(cfg, log, outs, plain, t.src, at) && Sound(GtidBased, cfg.base, t.src)
    requires Possible(cfg, s, t)
    ensures After(cfg, s, t).Ok? && Holds(cfg, After(cfg, s, t).value, b, log') && Follows(cfg, log, t, lt, log')
    ensures PurgedIn(t, a, b)
  {
    hide Holds, Sound, Possible, After, Follows, Paused, AtRest, Order, Offered, Answer, Serve, ServeGtids, Resumes;
    SameRequest(cfg, s, a, log, t.src);
    var j := SameAnswer(cfg, log, plain, t.src, at);
    OfferedIs(cfg, log, t.src);
    match t.doing
    case TimesOut(_) => b, lt, log' := TimesOutTurn(cfg, s, a, log, outs, plain, at, t);
    case Exits(_, _) => b, lt, log' := ExitsTurn(cfg, s, a, log, outs, plain, at, t);
    case CrashesAfter(_, _, _, _, _, _, _) => b, lt, log' := CrashesAfterTurn(cfg, s, a, log, outs, plain, at, t);
    case CrashesIn(_, _, _, _, _, _, _, _) => b, lt, log' := CrashesInTurn(cfg, s, a, log, outs, plain, at, t);
    case _ => b, lt, log' := PurgesTurn(cfg, s, a, log, outs, plain, at, t);
  }

  lemma OfferedIs(cfg: Config, log: Log, src: seq<SrcFile>)
    ensures Offered(cfg, log, src) == ServeGtids(src, cfg.base, SM.AllGtids(cfg.base, log.files))
  {
  }

  // ----- every history -----------------------------------------------------------------

  ghost function Lives(cfg: Config, s: State, turns: seq<Turn>): Result<State>
    decreases |turns|
  {
    if turns == [] then Ok(s)
    else
      var n := |turns| - 1;
      var r := Lives(cfg, s, turns[..n]);
      if r.Err? then Err else After(cfg, r.value, turns[n])
  }

  ghost predicate AllPossible(cfg: Config, s: State, turns: seq<Turn>)
    decreases |turns|
  {
    turns == [] ||
    var n := |turns| - 1;
    && AllPossible(cfg, s, turns[..n])
    && (Lives(cfg, s, turns[..n]).Ok? ==> Possible(cfg, Lives(cfg, s, turns[..n]).value, turns[n]))
  }

  /** The source is well formed at every turn and grows from turn to turn, up to src. */
  ghost predicate Timeline(cfg: Config, turns: seq<Turn>, src: seq<SrcFile>)
    decreases |turns|
  {
    turns == [] ||
    var n := |turns| - 1;
    && Sound(GtidBased, cfg.base, turns[n].src) && Grown(turns[n].src, src) && Timeline(cfg, turns[..n], turns[n].src)
  }

  /** The storage stands at every moment for a log of a history of the log. */
  ghost predicate Chronicle(cfg: Config, s: State, turns: seq<Turn>, shelves: seq<Shelf>, lts: seq<RewriteTurn>,
                            logs: seq<Log>) {
    && |shelves| == |logs| == |turns| + 1 && |lts| == |turns| && RewriteSessions.RewriteHistory(cfg, lts, logs)
    && (forall i :: 0 <= i <= |turns| ==>
          Lives(cfg, s, turns[..i]).Ok? && Holds(cfg, Lives(cfg, s, turns[..i]).value, shelves[i], logs[i]))
    && (forall i :: 0 <= i < |turns| ==>
          && Follows(cfg, logs[i], turns[i], lts[i], logs[i + 1]) && PurgedIn(turns[i], shelves[i], shelves[i + 1]))
  }

  lemma HistorySnoc(cfg: Config, lts: seq<RewriteTurn>, logs: seq<Log>, lt: RewriteTurn, log': Log)
    requires RewriteSessions.RewriteHistory(cfg, lts, logs) && Sound(GtidBased, cfg.base, lt.src)
    requires RewriteLeads(cfg, logs[|lts|], lt, log') && (lts == [] || Grown(lts[|lts| - 1].src, lt.src))
    ensures RewriteSessions.RewriteHistory(cfg, lts + [lt], logs + [log'])
  {
    hide Sound, RewriteLeads, Grown;
  }

  lemma {:induction false} HistoryLinked(cfg: Config, s: State, h: Hist, turns: seq<Turn>, src: seq<SrcFile>)
    returns (shelves: seq<Shelf>, lts: seq<RewriteTurn>, logs: seq<Log>)
    requires Holds(cfg, s, Shelf([], h), SR.Log([], [], false)) && AllPossible(cfg, s, turns)
    requires Timeline(cfg, turns, src)
    ensures Chronicle(cfg, s, turns, shelves, lts, logs)
    ensures turns != [] ==> lts[|turns| - 1].src == turns[|turns| - 1].src
    decreases |turns|
  {
    hide Holds, Possible, After, Sound, Grown, RewriteSessions.RewriteHistory, Follows, PurgedIn;
    if turns == [] {
      shelves, lts, logs := [Shelf([], h)], [], [SR.Log([], [], false)];
      EmptyHistory(cfg, logs);
      assert turns[..0] == [];
    } else {
      var n := |turns| - 1;
      var t := turns[n];
      var shelves0, lts0, logs0 := HistoryLinked(cfg, s, h, turns[..n], t.src);
      assert turns[..n][..n] == turns[..n];
      var s1 := Lives(cfg, s, turns[..n]).value;
      TimelineLast(cfg, turns, src);
      var outs, plain, at := RewriteShadow(cfg, lts0, logs0, t.src);
      var b, lt, log' := TurnLinked(cfg, s1, shelves0[n], logs0[n], outs, plain, at, t);
      FollowsLeads(cfg, logs0[n], t, lt, log');
      HistorySnoc(cfg, lts0, logs0, lt, log');
      shelves, lts, logs := shelves0 + [b], lts0 + [lt], logs0 + [log'];
      ChronicleSnoc(cfg, s, turns, shelves0, lts0, logs0, b, lt, log');
    }
  }

  lemma TimelineLast(cfg: Config, turns: seq<Turn>, src: seq<SrcFile>)
    requires turns != [] && Timeline(cfg, turns, src)
    ensures var n := |turns| - 1; n > 0 ==> Grown(turns[n - 1].src, turns[n].src)
  {
    hide Grown, Sound;
  }

  lemma FollowsLeads(cfg: Config, log: Log, t: Turn, lt: RewriteTurn, log': Log)
    requires Follows(cfg, log, t, lt, log')
    ensures RewriteLeads(cfg, log, lt, log') && lt.src == t.src
  {
    hide RewriteLeads;
  }

  lemma EmptyHistory(cfg: Config, logs: seq<Log>)
    requires logs == [SR.Log([], [], false)]
    ensures RewriteSessions.RewriteHistory(cfg, [], logs)
  {
  }

  lemma ChronicleSnoc(cfg: Config, s: State, turns: seq<Turn>, shelves: seq<Shelf>, lts: seq<RewriteTurn>,
                      logs: seq<Log>, b: Shelf, lt: RewriteTurn, log': Log)
    requires turns != [] && var n := |turns| - 1;
      && Chronicle(cfg, s, turns[..n], shelves, lts, logs) && Lives(cfg, s, turns).Ok?
      && Holds(cfg, Lives(cfg, s, turns).value, b, log') && Follows(cfg, logs[n], turns[n], lt, log')
      && PurgedIn(turns[n], shelves[n], b)
    requires RewriteSessions.RewriteHistory(cfg, lts + [lt], logs + [log'])
    ensures Chronicle(cfg, s, turns, shelves + [b], lts + [lt], logs + [log'])
  {
    hide Holds, Lives, RewriteSessions.RewriteHistory, Follows, PurgedIn;
    var n := |turns| - 1;
    var all, shelf := logs + [log'], shelves + [b];
    assert turns[..n + 1] == turns;
    forall i | 0 <= i <= n + 1
      ensures Lives(cfg, s, turns[..i]).Ok? && Holds(cfg, Lives(cfg, s, turns[..i]).value, shelf[i], all[i])
    {
      if i <= n {
        assert turns[..n][..i] == turns[..i];
        assert all[i] == logs[i] && shelf[i] == shelves[i];
      }
    }
    forall i | 0 <= i < n + 1
      ensures Follows(cfg, all[i], turns[i], (lts + [lt])[i], all[i + 1]) && PurgedIn(turns[i], shelf[i], shelf[i + 1])
    {
      if i < n {
        assert Follows(cfg, logs[i], turns[..n][i], lts[i], logs[i + 1]);
        assert PurgedIn(turns[..n][i], shelves[i], shelves[i + 1]);
      }
    }
  }

  /** The storage a first start finds in an empty directory. */
  ghost function First(cfg: Config, settings: Settings): Result<State> {
    Restart(map[], GtidBased, cfg.base, settings)
  }

  lemma FirstHolds(cfg: Config, settings: Settings) returns (h: Hist)
    ensures First(cfg, settings).Ok? && Holds(cfg, First(cfg, settings).value, Shelf([], h), SR.Log([], [], false))
  {
    hide R.Load, Tidy, SM.AllGtids, Aligned, Started;
    h := SM.Hist(cfg.base, [], [], [], false);
    FirstIsStored(GtidBased, cfg.base, [], settings.ckptSize, settings.ckptInterval);
    FirstMode(cfg, settings);
    FlushedLog(h);
    NothingPurged(SR.Abs(h));
  }

  lemma FirstMode(cfg: Config, settings: Settings)
    requires First(cfg, settings).Ok?
    ensures First(cfg, settings).value.mode == GtidBased
  {
  }

  /**
   * Exactly once in rewrite mode, on disk.  From an empty directory, after any history of connections that time out,
   * exits, crashes in any part of the handling of any event, purges and crashes in purges: nothing was ever refused,
   * the disk is exactly the disk of a list of files, and with what has been purged those files hold first transactions
   * of the source, in order and once, every file well made of the events that were handed over to be written.
   */
  lemma RewriteOnDisk(cfg: Config, settings: Settings, turns: seq<Turn>, src: seq<SrcFile>)
    returns (shelves: seq<Shelf>, lts: seq<RewriteTurn>, logs: seq<Log>)
    requires First(cfg, settings).Ok? ==> AllPossible(cfg, First(cfg, settings).value, turns)
    requires Timeline(cfg, turns, src)
    ensures First(cfg, settings).Ok? && Chronicle(cfg, First(cfg, settings).value, turns, shelves, lts, logs)
    ensures var s := Lives(cfg, First(cfg, settings).value, turns);
      var (past, files) := (shelves[|turns|].past, shelves[|turns|].h.files);
      && s.Ok? && s.value.backend.disk == SM.DiskOf(GtidBased, SM.AllGtids(cfg.base, past), files)
      && Order(past + files) <= SourceOrder(src)
      && var notes := Notes(cfg, lts, logs);
         && |notes| == |past + files|
         && forall i :: 0 <= i < |notes| ==> WellMade(cfg, logs[..|turns|], past + files, i, notes[i])
  {
    hide Possible, After, Sound, Grown, First, Timeline, AllPossible, Order, SourceOrder, WellMade, SM.DiskOf,
      SM.AllGtids, Lives, AtEase, RewriteSessions.RewriteHistory, View, Notes;
    var h := FirstHolds(cfg, settings);
    var s := First(cfg, settings).value;
    shelves, lts, logs := HistoryLinked(cfg, s, h, turns, src);
    assert turns[..|turns|] == turns;
    if turns != [] { TimelineGrown(cfg, turns, src); }
    RewriteExactlyOnce(cfg, lts, logs, src);
    var b := shelves[|turns|];
    HoldsBasics(cfg, Lives(cfg, s, turns).value, b, logs[|turns|]);
    OnDisk(Lives(cfg, s, turns).value, cfg.base, b);
  }

  lemma TimelineGrown(cfg: Config, turns: seq<Turn>, src: seq<SrcFile>)
    requires turns != [] && Timeline(cfg, turns, src)
    ensures Grown(turns[|turns| - 1].src, src)
  {
    hide Grown, Sound;
  }

  /** After any history a connection that delivers everything leaves nothing missing. */
  lemma RewriteCatchesUpOnDisk(cfg: Config, settings: Settings, turns: seq<Turn>, t: Turn)
    returns (past: seq<FileLog>, files: seq<FileLog>)
    requires First(cfg, settings).Ok? && AllPossible(cfg, First(cfg, settings).value, turns + [t])
    requires Timeline(cfg, turns + [t], t.src) && t.doing.TimesOut?
    ensures var s := First(cfg, settings).value;
      && Lives(cfg, s, turns).Ok? && Answer(Lives(cfg, s, turns).value, cfg.base, t.src).Some?
      && Lives(cfg, s, turns + [t]).Ok?
      && Lives(cfg, s, turns + [t]).value.backend.disk == SM.DiskOf(GtidBased, SM.AllGtids(cfg.base, past), files)
      && (t.doing.a.received == |Answer(Lives(cfg, s, turns).value, cfg.base, t.src).value| ==>
            Order(past + files) == SourceOrder(t.src))
  {
    hide Possible, After, Sound, Grown, First, Order, SourceOrder, SM.DiskOf, SM.AllGtids, Lives, AtEase, RewriteLeads,
      View, Answer, Offered, AllPossible, Timeline;
    var all, n := turns + [t], |turns|;
    assert all[..n] == turns && all[..n + 1] == all;
    var h := FirstHolds(cfg, settings);
    var s := First(cfg, settings).value;
    var shelves, lts, logs := HistoryLinked(cfg, s, h, all, t.src);
    var b := shelves[n + 1];
    past, files := b.past, b.h.files;
    OnDisk(Lives(cfg, s, all).value, cfg.base, b);
    HoldsBasics(cfg, Lives(cfg, s, all).value, b, logs[n + 1]);
    SameRequest(cfg, Lives(cfg, s, turns).value, shelves[n], logs[n], t.src);
    assert Follows(cfg, logs[n], all[n], lts[n], logs[n + 1]);
    LeadsOffered(cfg, logs[n], lts[n], logs[n + 1]);
    HistoryFront(cfg, lts, logs);
    if t.doing.a.received == |Answer(Lives(cfg, s, turns).value, cfg.base, t.src).value| {
      RewriteCatchesUp(cfg, lts[..n], logs[..n + 1], lts[n], logs[n + 1]);
    }
  }

  lemma LeadsOffered(cfg: Config, log: Log, lt: RewriteTurn, log': Log)
    requires RewriteLeads(cfg, log, lt, log')
    ensures Offered(cfg, log, lt.src).Some?
  {
    hide Offered;
  }

  lemma HistoryFront(cfg: Config, lts: seq<RewriteTurn>, logs: seq<Log>)
    requires RewriteSessions.RewriteHistory(cfg, lts, logs) && lts != []
    ensures var n := |lts| - 1;
      && RewriteSessions.RewriteHistory(cfg, lts[..n], logs[..n + 1])
      && Sound(GtidBased, cfg.base, lts[n].src) && (n > 0 ==> Grown(lts[n - 1].src, lts[n].src))
  {
    hide Sound, RewriteLeads, Grown;
  }
}
