/** From the source to the disk: connections and crashes together, on the storage itself. */
module EndToEnd {
  import opened Prelude
  import opened BinlogNames
  import opened ReaderContext
  import opened Streaming
  import opened Alignment
  import opened Connections
  import opened GtidResume
  import opened Sessions
  import opened PurgedPast
  import opened Application
  import SM = StorageModel
  import SR = StorageRuns
  import R = Recovery
  import CS = CrashSafety
  import P = Purge

  // ----- the end of a connection -------------------------------------------------------

  /** discard_incomplete_transaction_events and flush_event_buffer after a timeout. */
  ghost function TimeOut(s: State): Result<State> {
    SR.Run(s, [SR.Discard, SR.FlushNow], [0, 0])
  }

  lemma DiscardTidies(s: State, h: Hist)
    requires SM.Inv(s, h) && SR.Apply(s, SR.Discard, 0).Ok?
    ensures SR.Apply(s, SR.Discard, 0).value.incTs.IsEmpty()
  {
  }

  lemma FlushTs(s: State)
    requires SR.Apply(s, SR.FlushNow, 0).Ok?
    ensures SR.Apply(s, SR.FlushNow, 0).value.incTs == s.incTs
  {
  }

  /** After a timeout everything complete is on disk and nothing is left in the buffer. */
  lemma FinishFlushes(s: State, h: Hist) returns (h': Hist)
    requires Tidy(s, h)
    ensures TimeOut(s).Ok? && Tidy(TimeOut(s).value, h') && h'.base == h.base
    ensures SR.Abs(h') == SR.LogApply(SR.LogApply(SR.Abs(h), SR.Discard), SR.FlushNow)
    ensures h'.files == SR.Abs(h).files && h'.ready == [] && h'.tail == []
  {
    hide SM.Inv, SR.Abs, SR.Apply, SR.LogApply, SR.Run, SM.HistFlush, SR.HistApply;
    RunTwo(s, SR.Discard, SR.FlushNow, [0, 0]);
    var h1 := Application.Call(s, h, SR.Discard, 0);
    DiscardTidies(s, h);
    var s1 := SR.Apply(s, SR.Discard, 0).value;
    SR.FailsIff(s1, h1, SR.FlushNow, 0);
    h' := SR.StepRefines(s1, h1, SR.FlushNow, 0);
    FlushTs(s1);
    Discarded(SR.Abs(h));
    Open(h1);
    Flushed(h1, h');
    SR.BaseKept(h1, SR.FlushNow);
    assert h'.tail == SR.Abs(h').tail by { Open(h'); }
    if h'.files == [] { NothingWithoutAFile(TimeOut(s).value, h'); }
  }

  lemma NothingWithoutAFile(s: State, h: Hist)
    requires SM.Inv(s, h) && h.files == []
    ensures h.ready == []
  {
  }

  lemma Discarded(log: Log)
    ensures SR.LogApply(log, SR.Discard) == log.(tail := [])
    ensures SR.LogApply(log.(tail := []), SR.FlushNow) == log.(tail := [])
  {
  }

  lemma Flushed(h: Hist, h': Hist)
    requires h' == SR.HistApply(h, SR.FlushNow) || h' == SM.HistFlush(SR.HistApply(h, SR.FlushNow))
    ensures h'.files != [] ==> h'.ready == []
    ensures h'.files == SR.Abs(h').files && SR.Abs(h').files == SR.Abs(h).files
  {
    SR.FlushIsInvisible(h);
    SR.FlushIsInvisible(SM.HistFlush(h));
    if h.files != [] {
      assert SM.HistFlush(h).Last().evs + [] == SM.HistFlush(h).Last().evs;
      assert SM.HistFlush(SM.HistFlush(h)).files == SM.HistFlush(h).files;
    }
  }

  lemma ApplyMode(s: State, op: SR.Op, now: nat)
    requires SR.Apply(s, op, now).Ok?
    ensures SR.Apply(s, op, now).value.mode == s.mode
  {
  }

  lemma {:induction false} RunMode(s: State, ops: seq<SR.Op>, clock: seq<nat>)
    requires |clock| == |ops| && SR.Run(s, ops, clock).Ok?
    ensures SR.Run(s, ops, clock).value.mode == s.mode
    decreases |ops|
  {
    hide SR.Apply;
    if ops != [] {
      var k := |ops| - 1;
      RunMode(s, ops[..k], clock[..k]);
      ApplyMode(SR.Run(s, ops[..k], clock[..k]).value, ops[k], clock[k]);
    }
  }

  lemma {:induction false} FeedMode(s: State, c: Ctx, events: seq<Event>, clocks: seq<seq<nat>>)
    requires Timed(clocks, |events|) && AppFeed(s, c, events, clocks).Ok?
    ensures AppFeed(s, c, events, clocks).value.0.mode == s.mode
    decreases |events|
  {
    hide SR.Run, Process, OpsFor, SeeState;
    if events != [] {
      var r := Process(c, events[0]);
      var ops := OpsFor(SeeState(s), r.value.0, r.value.1, events[0]).value;
      RunMode(s, ops, clocks[0][..|ops|]);
      var (s1, c1) := AppEvent(s, c, events[0], clocks[0]).value;
      FeedMode(s1, c1, events[1..], clocks[1..]);
    }
  }

  // ----- one connection on the storage -------------------------------------------------

  /** The answer to the request the application derives from its storage. */
  ghost function Answer(s: State, base: set<Gtid>, src: seq<SrcFile>): Option<seq<Event>> {
    if s.mode == Position then ServePosition(src, SeeState(s).name, SeeState(s).pos)
    else ServeGtids(src, base, s.GetGtids())
  }

  /** Between connections: everything is on disk and, behind what has been purged, aligned with the source. */
  ghost predicate Stored(s: State, h: Hist, base: set<Gtid>, past: seq<FileLog>, src: seq<SrcFile>, at: seq<nat>) {
    && Tidy(s, h) && h.ready == [] && h.tail == []
    && h.base == SM.AllGtids(base, past) && (past == [] || h.files != [])
    && Aligned(s.mode, past + h.files, src, at)
  }

  /** No file but the last is bare. */
  ghost predicate NoneBare(src: seq<SrcFile>) {
    forall x :: 0 <= x < |src| - 1 ==> !Bare(src[x])
  }

  lemma {:induction false} NotStuck(src: seq<SrcFile>, j: nat, k: nat, n: nat)
    requires NoneBare(src) && j < |src| && k <= |src[j].events|
    ensures !Stuck(src, j, k, n)
    decreases |src| - j
  {
    hide Bare;
    if j + 1 < |src| && n > |src[j].events| - k {
      NotStuck(src, j + 1, 0, n - (|src[j].events| - k) - 1);
    }
  }

  lemma FlushedLog(h: Hist)
    requires h.ready == [] && h.tail == []
    ensures SR.Abs(h) == SR.Log(h.files, [], h.open)
  {
    if h.files != [] {
      assert h.Last().evs + [] == h.Last().evs;
      assert SM.HistFlush(h).files == h.files;
    }
  }

  lemma AllKnown(base: set<Gtid>, past: seq<FileLog>, files: seq<FileLog>)
    ensures SM.AllGtids(base, past + files) == SM.AllGtids(SM.AllGtids(base, past), files)
  {
    P.AllGtidsSplit(base, past + files, |past|);
    assert (past + files)[..|past|] == past && (past + files)[|past|..] == files;
  }

  lemma OpenHasFile(s: State, h: Hist)
    requires Tidy(s, h) && h.open
    ensures h.files != []
  {
  }

  /** The log at rest, and the request: a purge changes neither the name and position nor the GTID set asked for. */
  lemma RestsInLog(s: State, h: Hist, base: set<Gtid>, past: seq<FileLog>, src: seq<SrcFile>, at: seq<nat>)
    requires Stored(s, h, base, past, src, at)
    ensures SR.Abs(h) == SR.Log(h.files, [], h.open) && Covers(past, SR.Abs(h))
    ensures AtRest(s.mode, Unpurged(past, SR.Abs(h)), src, at)
    ensures Answer(s, base, src) == Serve(s.mode, base, src, Unpurged(past, SR.Abs(h)))
  {
    hide Tidy, Aligned, ServePosition, ServeGtids, SM.AllGtids, See, SeeState;
    FlushedLog(h);
    if h.open { OpenHasFile(s, h); }
    SameSeen(s, h);
    SeeUnpurged(past, SR.Abs(h));
    SeenIs(Unpurged(past, SR.Abs(h)));
    if s.mode == GtidBased {
      Reported(s, h);
      AllKnown(base, past, h.files);
    }
  }

  lemma SeenIs(log: Log)
    ensures See(log).name == CurrentName(log) && See(log).pos == CurrentPosition(log)
  {
  }

  lemma SameSeen(s: State, h: Hist)
    requires Tidy(s, h)
    ensures SeeState(s) == See(SR.Abs(h))
  {
    hide SM.Inv;
    SameView(s, h);
  }

  lemma Reported(s: State, h: Hist)
    requires Tidy(s, h) && s.mode == GtidBased && h.ready == []
    ensures s.GetGtids() == SM.AllGtids(h.base, h.files)
  {
    if h.files != [] {
      assert h.Last().evs + [] == h.Last().evs;
      assert SM.HistFlush(h).files == h.files;
    }
    SM.GetGtidsTelescopes(s, h);
  }

  lemma GrowsBehind(past: seq<FileLog>, a: seq<FileLog>, b: seq<FileLog>)
    requires Grows(past + a, past + b) && (past == [] || a != [])
    ensures Grows(a, b)
  {
    var x, y, n := past + a, past + b, |past|;
    assert forall i :: 0 <= i < |a| ==> x[n + i] == a[i];
    assert forall i :: 0 <= i < |b| ==> y[n + i] == b[i];
  }

  /** The storage and the log after the first n events of an answer. */
  lemma ConnectionOnStorage(s: State, h: Hist, base: set<Gtid>, past: seq<FileLog>, src: seq<SrcFile>, at: seq<nat>,
                            n: nat, clocks: seq<seq<nat>>)
    returns (h': Hist, at': seq<nat>)
    requires Stored(s, h, base, past, src, at) && Sound(s.mode, base, src) && NoneBare(src)
    ensures Answer(s, base, src).Some?
    ensures n <= |Answer(s, base, src).value| && Timed(clocks, n) ==>
      var r := AppFeed(s, FreshReader(s), Answer(s, base, src).value[..n], clocks);
      && r.Ok? && r.value.0.mode == s.mode && Tidy(r.value.0, h') && h'.base == h.base
      && Arrived(s, h, base, src, n) == Ok((SR.Abs(h'), r.value.1))
      && Covers(past, SR.Abs(h')) && CutOff(s.mode, Unpurged(past, SR.Abs(h')), src, at')
      && Grows(h.files, SR.Abs(h').files)
      && (n == |Answer(s, base, src).value| ==> HasAll(s.mode, past + SR.Abs(h').files, src, at'))
  {
    hide Tidy, SR.Abs, AppFeed, FreshReader, Feed, Answer, Serve, AtRest, CutOff, Grows, HasAll, GoodSource, Active,
      FreshGtids, NoneBare, Resumes, LeadIn, FirstNew, Stuck, FreshContext;
    RestsInLog(s, h, base, past, src, at);
    var log := Unpurged(past, SR.Abs(h));
    var j := AnswerResumes(s.mode, base, log, src, at);
    at' := NeverRefused(s.mode, base, log, src, at, n);
    var stream := Answer(s, base, src).value;
    h' := h;
    if n <= |stream| && Timed(clocks, n) {
      ResumesBasics(s.mode, log, src, at, j, stream);
      var lead := |LeadIn(s.mode, log, at, src, j)|;
      if n > lead { NotStuck(src, j, FirstNew(log, at, j), n - lead); }
      SameContext(past, SR.Abs(h), s.mode);
      FeedUnpurged(past, SR.Abs(h), FreshContext(log, s.mode), stream[..n]);
      h' := AppConnectionIff(s, h, past, src, at, j, stream, n, clocks);
      GrowsBehind(past, h.files, SR.Abs(h').files);
      FeedMode(s, FreshReader(s), stream[..n], clocks);
    }
  }

  /** What the log makes of the first n events of the answer. */
  ghost function Arrived(s: State, h: Hist, base: set<Gtid>, src: seq<SrcFile>, n: nat): Result<(Log, Ctx)>
    requires Answer(s, base, src).Some? && n <= |Answer(s, base, src).value|
  {
    Feed(SR.Abs(h), FreshContext(SR.Abs(h), s.mode), Answer(s, base, src).value[..n])
  }

  /**
   * A whole connection on the storage, whatever has been purged before: answered, accepted however far it gets, and
   * after the timeout the disk holds exactly the complete transactions that arrived, in an aligned log.  Once all of
   * the answer has arrived nothing is missing.
   */
  lemma StorageSession(s: State, h: Hist, base: set<Gtid>, past: seq<FileLog>, src: seq<SrcFile>, at: seq<nat>,
                       n: nat, clocks: seq<seq<nat>>)
    returns (h': Hist, at': seq<nat>)
    requires Stored(s, h, base, past, src, at) && Sound(s.mode, base, src) && NoneBare(src)
    ensures Answer(s, base, src).Some?
    ensures n <= |Answer(s, base, src).value| && Timed(clocks, n) ==>
      var r := AppFeed(s, FreshReader(s), Answer(s, base, src).value[..n], clocks);
      && r.Ok? && TimeOut(r.value.0).Ok?
      && var s' := TimeOut(r.value.0).value;
         && s'.mode == s.mode && Stored(s', h', base, past, src, at')
         && s'.backend.disk == SM.DiskOf(s.mode, h.base, h'.files)
         && Arrived(s, h, base, src, n).Ok? && h'.files == Arrived(s, h, base, src, n).value.0.files
         && Grows(h.files, h'.files)
         && (n == |Answer(s, base, src).value| ==>
               StoredCommits(s.mode, past + h'.files) == SourceCommits(s.mode, src, |src|))
  {
    hide SM.Inv, SR.Abs, AppFeed, FreshReader, Answer, Aligned, Grows, HasAll, Sound, NoneBare, TimeOut, SM.DiskOf,
      SR.LogApply, StoredCommits, SourceCommits, Feed, FreshContext, SM.AllGtids;
    h', at' := ConnectionOnStorage(s, h, base, past, src, at, n, clocks);
    if n <= |Answer(s, base, src).value| && Timed(clocks, n) {
      var s1 := AppFeed(s, FreshReader(s), Answer(s, base, src).value[..n], clocks).value.0;
      h' := FinishFlushes(s1, h');
      FinishMode(s1);
      CS.RestFiles(TimeOut(s1).value, h');
      if n == |Answer(s, base, src).value| {
        StoredIsAll(s.mode, past + h'.files, src, at');
      }
    }
  }

  /**
   * The other ends of a connection, EOF and a signal, end the program; the destructor flushes.  The disk then holds
   * exactly the complete transactions that have arrived, in files that are aligned with the source.
   */
  lemma ExitFlushes(s: State, h: Hist, base: set<Gtid>, past: seq<FileLog>, src: seq<SrcFile>, at: seq<nat>,
                    n: nat, clocks: seq<seq<nat>>)
    returns (h': Hist, at': seq<nat>)
    requires Stored(s, h, base, past, src, at) && Sound(s.mode, base, src) && NoneBare(src)
    requires Answer(s, base, src).Some? && n <= |Answer(s, base, src).value| && Timed(clocks, n)
    ensures var r := AppFeed(s, FreshReader(s), Answer(s, base, src).value[..n], clocks);
      && r.Ok? && SR.Apply(r.value.0, SR.FlushNow, 0).Ok?
      && SR.Apply(r.value.0, SR.FlushNow, 0).value.backend.disk == SM.DiskOf(s.mode, h.base, h'.files)
      && Arrived(s, h, base, src, n).Ok? && h'.files == Arrived(s, h, base, src, n).value.0.files
      && Aligned(s.mode, past + h'.files, src, at') && Grows(h.files, h'.files) && (past == [] || h'.files != [])
      && SM.DistinctNames(h'.files) && SM.WholeTransactions(h'.files)
      && (n == |Answer(s, base, src).value| ==>
            StoredCommits(s.mode, past + h'.files) == SourceCommits(s.mode, src, |src|))
  {
    hide SM.Inv, SR.Abs, AppFeed, FreshReader, Answer, Aligned, Grows, HasAll, Sound, NoneBare, SM.DiskOf, SR.Apply,
      SR.LogApply, StoredCommits, SourceCommits, SM.HistFlush, SR.HistApply, Feed, FreshContext, SM.AllGtids;
    var h1, at1 := ConnectionOnStorage(s, h, base, past, src, at, n, clocks);
    at' := at1;
    var s1 := AppFeed(s, FreshReader(s), Answer(s, base, src).value[..n], clocks).value.0;
    SR.FailsIff(s1, h1, SR.FlushNow, 0);
    h' := SR.StepRefines(s1, h1, SR.FlushNow, 0);
    Flushed(h1, h');
    SR.BaseKept(h1, SR.FlushNow);
    ApplyMode(s1, SR.FlushNow, 0);
    CS.RestFiles(SR.Apply(s1, SR.FlushNow, 0).value, h');
    if n == |Answer(s, base, src).value| {
      StoredIsAll(s.mode, past + h'.files, src, at');
    }
  }

  lemma FinishMode(s: State)
    requires TimeOut(s).Ok?
    ensures TimeOut(s).value.mode == s.mode
  {
    RunMode(s, [SR.Discard, SR.FlushNow], [0, 0]);
  }

  // ----- a crash in the middle of a connection -----------------------------------------

  ghost function CallsFor(s: State, c: Ctx, e: Event): seq<SR.Op> {
    var r := Process(c, e);
    if r.Err? then []
    else
      var ops := OpsFor(SeeState(s), r.value.0, r.value.1, e);
      if ops.Err? then [] else ops.value
  }

  /** What the application is doing: handling an event, finishing after a timeout, or leaving. */
  datatype Stage = InEvent(e: Event) | InTimeout | InExit

  ghost function CallsIn(s: State, c: Ctx, stage: Stage): seq<SR.Op> {
    match stage
    case InEvent(e) => CallsFor(s, c, e)
    case InTimeout => [SR.Discard, SR.FlushNow]
    case InExit => [SR.FlushNow]
  }

  /** A crash leaves img, in call i of these. */
  ghost predicate CrashIn(s: State, ops: seq<SR.Op>, clock: seq<nat>, i: nat, snap: SM.Snap, img: SM.Disk) {
    && |clock| == 3 && i < |ops| <= 3 && SR.Run(s, ops[..i], clock[..i]).Ok?
    && var s1 := SR.Run(s, ops[..i], clock[..i]).value;
       && SR.Effect(s1, ops[i], clock[i]).Ok?
       && CS.CrashPoint(s1, SR.Effect(s1, ops[i], clock[i]).value, snap) && R.CrashImage(snap, img)
  }

  lemma TrimmedOnDisk(s: State, h: Hist)
    requires SM.Inv(s, h)
    ensures Trimmed(SR.Abs(h), h.files)
  {
    if h.files != [] {
      var n := |h.files| - 1;
      assert SR.Abs(h).files[..n] == h.files[..n];
      assert h.files[n].evs <= h.files[n].evs + h.ready;
    }
  }

  lemma {:induction false} RunPrefix(s: State, ops: seq<SR.Op>, clock: seq<nat>, i: nat)
    requires |clock| == |ops| && i <= |ops| && SR.Run(s, ops, clock).Ok?
    ensures SR.Run(s, ops[..i], clock[..i]).Ok?
    decreases |ops|
  {
    hide SR.Apply;
    if i == |ops| {
      assert ops[..i] == ops && clock[..i] == clock;
    } else {
      var k := |ops| - 1;
      RunPrefix(s, ops[..k], clock[..k], i);
      assert ops[..k][..i] == ops[..i] && clock[..k][..i] == clock[..i];
    }
  }

  lemma RunStep(s: State, ops: seq<SR.Op>, clock: seq<nat>, i: nat)
    requires |clock| == |ops| && i < |ops| && SR.Run(s, ops, clock).Ok?
    ensures SR.Run(s, ops[..i], clock[..i]).Ok?
    ensures SR.Apply(SR.Run(s, ops[..i], clock[..i]).value, ops[i], clock[i]) == SR.Run(s, ops[..i + 1], clock[..i + 1])
    ensures SR.Run(s, ops[..i + 1], clock[..i + 1]).Ok?
  {
    hide SR.Apply;
    RunPrefix(s, ops, clock, i);
    RunPrefix(s, ops, clock, i + 1);
    assert ops[..i + 1][..i] == ops[..i] && clock[..i + 1][..i] == clock[..i];
  }

  /** Inside one event the files are those of before it or those of after it. */
  lemma CallsFiles(log: Log, seen: Seen, c: Ctx, e: Event, i: nat)
    requires Process(c, e).Ok?
    requires var r := Process(c, e).value; OpsFor(seen, r.0, r.1, e).Ok? && i <= |OpsFor(seen, r.0, r.1, e).value|
    ensures var r := Process(c, e).value;
      var ops := OpsFor(seen, r.0, r.1, e).value;
      SR.LogRun(log, ops[..i]).files == log.files || SR.LogRun(log, ops[..i]).files == SR.LogRun(log, ops).files
  {
    hide Process, Written, SM.HasFile;
    var (c', info) := Process(c, e).value;
    var ops := OpsFor(seen, c', info, e).value;
    if e.IsArtificialRotate() { RotateIsInfo(c, e); }
    if i == 0 {
      assert ops[..0] == [];
    } else if i == |ops| {
      assert ops[..i] == ops;
    } else {
      assert i == 1 && |ops| == 2 && ops == [ops[0], ops[1]] && ops[..1] == [ops[0]];
      AcceptedOne(log, ops[0]);
      AcceptedTwo(log, ops[0], ops[1]);
    }
  }

  lemma EventCallsOk(s: State, c: Ctx, e: Event, clock: seq<nat>)
    requires |clock| == 3 && AppEvent(s, c, e, clock).Ok?
    ensures var ops := CallsFor(s, c, e); |ops| <= 3 && SR.Run(s, ops, clock[..|ops|]).Ok?
  {
    hide SR.Run, Process, SeeState;
  }

  lemma RealCalls(s: State, c: Ctx, e: Event)
    requires Process(c, e).Ok? && !Process(c, e).value.1 ==> e.data != []
    ensures SR.RealEvents(CallsFor(s, c, e))
  {
    hide Process, SeeState;
  }

  lemma LogCalls(s: State, h: Hist, c: Ctx, e: Event, i: nat)
    requires SM.Inv(s, h) && ProcessEvent(SR.Abs(h), c, e).Ok? && i <= |CallsFor(s, c, e)|
    ensures var log := SR.Abs(h);
      var mid := SR.LogRun(log, CallsFor(s, c, e)[..i]);
      mid.files == log.files || mid.files == ProcessEvent(log, c, e).value.0.files
  {
    hide Process, SM.Inv, SR.Abs, SR.LogRun;
    SameView(s, h);
    CallsFiles(SR.Abs(h), SeeState(s), c, e, i);
  }

  lemma TrimmedFiles(a: Log, b: Log, files: seq<FileLog>)
    requires Trimmed(a, files) && a.files == b.files
    ensures Trimmed(b, files)
  {
  }

  /** A crash inside any of some calls leaves the disk of a log that lacks nothing but unflushed transactions. */
  lemma CrashInCalls(s: State, h: Hist, ops: seq<SR.Op>, clock: seq<nat>, i: nat, snap: SM.Snap, img: SM.Disk)
    returns (files: seq<FileLog>, m: nat)
    requires SM.Inv(s, h) && |clock| == 3 && |ops| <= 3 && SR.RealEvents(ops) && SR.Run(s, ops, clock[..|ops|]).Ok?
    requires CrashIn(s, ops, clock, i, snap, img) && !R.Load(img, s.mode, SM.Streaming).Refused?
    ensures img == SM.DiskOf(s.mode, h.base, files) && SM.DistinctNames(files) && SM.WholeTransactions(files)
    ensures m <= |ops| && Trimmed(SR.LogRun(SR.Abs(h), ops[..m]), files)
  {
    hide SM.Inv, SR.Abs, SR.LogRun, SR.Run, SR.Apply, R.Load, R.CrashImage, CS.CrashPoint, SM.DiskOf,
      SM.DistinctNames, SM.WholeTransactions, Trimmed, SR.RealEvents;
    var used := clock[..|ops|];
    RunStep(s, ops, used, i);
    assert used[..i] == clock[..i] && used[..i + 1] == clock[..i + 1] && used[i] == clock[i];
    RealPrefix(ops, i);
    RealPrefix(ops, i + 1);
    var s1, s2 := SR.Run(s, ops[..i], clock[..i]).value, SR.Run(s, ops[..i + 1], clock[..i + 1]).value;
    var h1 := SR.RunRefines(s, h, ops[..i], clock[..i]);
    var h2 := SR.RunRefines(s, h, ops[..i + 1], clock[..i + 1]);
    RunMode(s, ops[..i], clock[..i]);
    RunMode(s, ops[..i + 1], clock[..i + 1]);
    ApplyIsEffect(s1, ops[i], clock[i]);
    RealOne(ops, i);
    CS.CrashRecovery(s1, h1, ops[i], clock[i], snap, img, SM.Streaming);
    var (sx, hx) := if img == s1.backend.disk then (s1, h1) else (s2, h2);
    m := if img == s1.backend.disk then i else i + 1;
    CS.RestFiles(sx, hx);
    TrimmedOnDisk(sx, hx);
    files := hx.files;
  }

  /** A crash inside any call of an event leaves what the log of before or of after the event had on disk. */
  lemma CrashInEvent(s: State, h: Hist, c: Ctx, e: Event, clock: seq<nat>, i: nat, snap: SM.Snap, img: SM.Disk)
    returns (files: seq<FileLog>)
    requires Tidy(s, h) && |clock| == 3 && (Process(c, e).Ok? && !Process(c, e).value.1 ==> e.data != [])
    requires AppEvent(s, c, e, clock).Ok? && CrashIn(s, CallsFor(s, c, e), clock, i, snap, img)
    requires !R.Load(img, s.mode, SM.Streaming).Refused?
    ensures img == SM.DiskOf(s.mode, h.base, files) && SM.DistinctNames(files) && SM.WholeTransactions(files)
    ensures ProcessEvent(SR.Abs(h), c, e).Ok?
    ensures Trimmed(SR.Abs(h), files) || Trimmed(ProcessEvent(SR.Abs(h), c, e).value.0, files)
  {
    hide SM.Inv, SR.Abs, SR.LogRun, SR.Run, SR.Apply, R.Load, R.CrashImage, CS.CrashPoint, SM.DiskOf, Process,
      ProcessEvent, SM.DistinctNames, SM.WholeTransactions, Trimmed, CallsFor, SR.RealEvents, CrashIn;
    var ops := CallsFor(s, c, e);
    EventCallsOk(s, c, e, clock);
    RealCalls(s, c, e);
    var m;
    files, m := CrashInCalls(s, h, ops, clock, i, snap, img);
    var h' := AppEventIff(s, h, c, e, clock);
    LogCalls(s, h, c, e, m);
    var mid := SR.LogRun(SR.Abs(h), ops[..m]);
    if mid.files == SR.Abs(h).files {
      TrimmedFiles(mid, SR.Abs(h), files);
    } else {
      TrimmedFiles(mid, ProcessEvent(SR.Abs(h), c, e).value.0, files);
    }
  }

  /**
   * A crash inside the discard and the flush after a timeout, or inside the flush at exit, loses buffered
   * data only.
   */
  lemma CrashAtEnd(s: State, h: Hist, c: Ctx, stage: Stage, clock: seq<nat>, i: nat, snap: SM.Snap, img: SM.Disk)
    returns (files: seq<FileLog>)
    requires Tidy(s, h) && !stage.InEvent? && CrashIn(s, CallsIn(s, c, stage), clock, i, snap, img)
    requires !R.Load(img, s.mode, SM.Streaming).Refused?
    ensures img == SM.DiskOf(s.mode, h.base, files) && SM.DistinctNames(files) && SM.WholeTransactions(files)
    ensures Trimmed(SR.Abs(h), files)
  {
    hide SM.Inv, SR.Abs, SR.Run, SR.Apply, R.Load, R.CrashImage, CS.CrashPoint, SM.DiskOf, SM.DistinctNames,
      SM.WholeTransactions, Trimmed, SR.LogRun;
    var ops := CallsIn(s, c, stage);
    EndCallsOk(s, h, c, stage, clock);
    var m;
    files, m := CrashInCalls(s, h, ops, clock, i, snap, img);
    EndCallsFiles(SR.Abs(h), s, c, stage, m);
    TrimmedFiles(SR.LogRun(SR.Abs(h), ops[..m]), SR.Abs(h), files);
  }

  lemma EndCallsOk(s: State, h: Hist, c: Ctx, stage: Stage, clock: seq<nat>)
    requires Tidy(s, h) && !stage.InEvent? && |clock| == 3
    ensures var ops := CallsIn(s, c, stage); |ops| <= 3 && SR.Run(s, ops, clock[..|ops|]).Ok?
  {
    hide SM.Inv, SR.Apply, SR.Run, SR.Abs;
    if stage.InTimeout? {
      RunTwo(s, SR.Discard, SR.FlushNow, clock[..2]);
      SR.FailsIff(s, h, SR.Discard, clock[0]);
      var h1 := SR.StepRefines(s, h, SR.Discard, clock[0]);
      SR.FailsIff(SR.Apply(s, SR.Discard, clock[0]).value, h1, SR.FlushNow, clock[1]);
    } else {
      RunOne(s, SR.FlushNow, clock[..1]);
      SR.FailsIff(s, h, SR.FlushNow, clock[0]);
    }
  }

  lemma EndCallsFiles(log: Log, s: State, c: Ctx, stage: Stage, m: nat)
    requires !stage.InEvent? && m <= |CallsIn(s, c, stage)|
    ensures SR.LogRun(log, CallsIn(s, c, stage)[..m]).files == log.files
  {
    var ops := CallsIn(s, c, stage);
    if m == 0 {
      assert ops[..0] == [];
    } else if m == 1 {
      assert ops[..1] == [ops[0]];
      AcceptedOne(log, ops[0]);
    } else {
      assert ops[..2] == [ops[0], ops[1]];
      AcceptedTwo(log, ops[0], ops[1]);
    }
  }

  lemma ApplyIsEffect(s: State, op: SR.Op, now: nat)
    requires SR.Apply(s, op, now).Ok?
    ensures SR.Effect(s, op, now) == SR.Apply(s, op, now)
  {
    hide SM.OpenAsserts, SR.Effect;
  }

  lemma RealPrefix(ops: seq<SR.Op>, i: nat)
    requires i <= |ops| && SR.RealEvents(ops)
    ensures SR.RealEvents(ops[..i])
  {
  }

  lemma RealOne(ops: seq<SR.Op>, i: nat)
    requires i < |ops| && SR.RealEvents(ops)
    ensures ops[i].Write? ==> ops[i].e.bytes != []
  {
  }

  lemma {:induction false} RestIsReal(mode: ReplicationMode, src: seq<SrcFile>, j: nat)
    requires GoodSource(mode, src) && j <= |src|
    ensures forall i :: 0 <= i < |Rest(src, j)| ==> Real(Rest(src, j)[i])
    decreases |src| - j
  {
    if j < |src| {
      FileIsReal(mode, src[j]);
      RestIsReal(mode, src, j + 1);
    }
  }

  lemma FileIsReal(mode: ReplicationMode, f: SrcFile)
    requires GoodFile(mode, f)
    ensures forall i :: 0 <= i < |f.events| ==> Real(f.events[i])
  {
  }

  lemma StreamIsReal(mode: ReplicationMode, log: Log, src: seq<SrcFile>, at: seq<nat>, j: nat, stream: seq<Event>,
                     n: nat)
    requires GoodSource(mode, src) && Resumes(mode, log, src, at, j, stream) && n < |stream|
    ensures Real(stream[n])
  {
    hide GoodFile, LeadIn, Real;
    LeadInIsReal(mode, log, src, at, j);
    FileIsReal(mode, src[j]);
    RestIsReal(mode, src, j + 1);
  }

  lemma AnswerIsReal(s: State, h: Hist, base: set<Gtid>, past: seq<FileLog>, src: seq<SrcFile>, at: seq<nat>, n: nat)
    requires Stored(s, h, base, past, src, at) && Sound(s.mode, base, src)
    requires Answer(s, base, src).Some? && n < |Answer(s, base, src).value|
    ensures Real(Answer(s, base, src).value[n])
  {
    hide Tidy, Answer, Serve, Resumes, AtRest, GoodSource, FreshGtids, Active, Real, SM.AllGtids;
    RestsInLog(s, h, base, past, src, at);
    var log := Unpurged(past, SR.Abs(h));
    var j := AnswerResumes(s.mode, base, log, src, at);
    StreamIsReal(s.mode, log, src, at, j, Answer(s, base, src).value, n);
  }

  lemma LastOfFeed(s: State, c: Ctx, log: Log, d: Ctx, stream: seq<Event>, n: nat, clocks: seq<seq<nat>>)
    requires n < |stream| && Timed(clocks, n + 1)
    requires AppFeed(s, c, stream[..n + 1], clocks).Ok? && Feed(log, d, stream[..n + 1]).Ok?
    ensures AppFeed(s, c, stream[..n], clocks[..n]).Ok? && Feed(log, d, stream[..n]).Ok?
    ensures var (s1, c1) := AppFeed(s, c, stream[..n], clocks[..n]).value;
      AppEvent(s1, c1, stream[n], clocks[n]).Ok?
    ensures var (log1, d1) := Feed(log, d, stream[..n]).value;
      ProcessEvent(log1, d1, stream[n]) == Feed(log, d, stream[..n + 1])
  {
    hide AppEvent, ProcessEvent;
    assert stream[..n + 1] == stream[..n] + [stream[n]];
    AppFeedConcat(s, c, stream[..n], [stream[n]], clocks);
    FeedConcat(log, d, stream[..n], [stream[n]]);
    assert clocks[n..] == [clocks[n]];
    assert [stream[n]][1..] == [];
  }

  lemma TrimmedUnpurged(past: seq<FileLog>, log: Log, files: seq<FileLog>)
    requires Covers(past, log) && Trimmed(log, files)
    ensures Trimmed(Unpurged(past, log), past + files) && (past == [] || files != [])
  {
    if log.files != [] {
      var n := |log.files| - 1;
      assert (past + files)[..|past| + n] == past + files[..n];
      assert (past + log.files)[..|past| + n] == past + log.files[..n];
    }
  }

  /** The crash happens while the application is at this stage with the n events received so far. */
  ghost predicate StageAt(stage: Stage, stream: seq<Event>, n: nat) {
    n <= |stream| && (stage.InEvent? ==> n < |stream| && stage.e == stream[n])
  }

  /** The files are what the log made of the first n events had on disk, or of the first n + 1. */
  ghost predicate Leftover(s: State, h: Hist, base: set<Gtid>, src: seq<SrcFile>, n: nat, files: seq<FileLog>)
    requires Answer(s, base, src).Some? && n <= |Answer(s, base, src).value|
  {
    || (Arrived(s, h, base, src, n).Ok? && Trimmed(Arrived(s, h, base, src, n).value.0, files))
    || (&& n < |Answer(s, base, src).value| && Arrived(s, h, base, src, n + 1).Ok?
        && Trimmed(Arrived(s, h, base, src, n + 1).value.0, files))
  }

  /**
   * A crash at any step of any call, anywhere in a connection, in the discard and flush after a timeout, or in the
   * flush at exit: a restart refuses the directory, or finds the disk of a log that is still aligned with the source
   * and lacks nothing of what arrived but transactions of its last file that were not flushed.
   */
  lemma CrashInConnection(s: State, h: Hist, base: set<Gtid>, past: seq<FileLog>, src: seq<SrcFile>, at: seq<nat>,
                          n: nat, clocks: seq<seq<nat>>, stage: Stage, clock: seq<nat>, i: nat, snap: SM.Snap,
                          img: SM.Disk)
    returns (files: seq<FileLog>, at': seq<nat>)
    requires Stored(s, h, base, past, src, at) && Sound(s.mode, base, src) && NoneBare(src) && Timed(clocks, n)
    requires Answer(s, base, src).Some? && StageAt(stage, Answer(s, base, src).value, n)
    requires var r := AppFeed(s, FreshReader(s), Answer(s, base, src).value[..n], clocks);
      r.Ok? && CrashIn(r.value.0, CallsIn(r.value.0, r.value.1, stage), clock, i, snap, img)
    requires !R.Load(img, s.mode, SM.Streaming).Refused?
    ensures img == SM.DiskOf(s.mode, h.base, files) && Aligned(s.mode, past + files, src, at')
    ensures SM.DistinctNames(files) && SM.WholeTransactions(files) && (past == [] || files != [])
    ensures Leftover(s, h, base, src, n, files)
  {
    hide Tidy, SR.Abs, AppFeed, Feed, FreshReader, FreshContext, Answer, Aligned, Grows, HasAll, Sound, NoneBare,
      Trimmed, SM.DiskOf, R.Load, AppEvent, CrashIn, Process, ProcessEvent, SM.DistinctNames, SM.WholeTransactions,
      SM.AllGtids, Unpurged, Covers;
    var stream := Answer(s, base, src).value;
    var h1, at1 := ConnectionOnStorage(s, h, base, past, src, at, n, clocks);
    var (s1, c1) := AppFeed(s, FreshReader(s), stream[..n], clocks).value;
    if stage.InEvent? {
      var h2, at2;
      files, h2, at2 := CrashInNext(s, h, base, past, src, at, n, clocks, h1, clock, i, snap, img);
      if Trimmed(SR.Abs(h1), files) {
        at' := StillAligned(s.mode, past, SR.Abs(h1), src, at1, files);
      } else {
        at' := StillAligned(s.mode, past, SR.Abs(h2), src, at2, files);
      }
    } else {
      files := CrashAtEnd(s1, h1, c1, stage, clock, i, snap, img);
      at' := StillAligned(s.mode, past, SR.Abs(h1), src, at1, files);
    }
  }

  lemma StillAligned(mode: ReplicationMode, past: seq<FileLog>, log: Log, src: seq<SrcFile>, at: seq<nat>,
                     files: seq<FileLog>)
    returns (at': seq<nat>)
    requires Covers(past, log) && CutOff(mode, Unpurged(past, log), src, at) && Trimmed(log, files)
    ensures Aligned(mode, past + files, src, at') && (past == [] || files != [])
  {
    hide Aligned, Trimmed;
    TrimmedUnpurged(past, log, files);
    at' := SurvivorsAligned(mode, Unpurged(past, log), src, at, past + files);
  }

  lemma CrashInNext(s: State, h: Hist, base: set<Gtid>, past: seq<FileLog>, src: seq<SrcFile>, at: seq<nat>, n: nat,
                    clocks: seq<seq<nat>>, h1: Hist, clock: seq<nat>, i: nat, snap: SM.Snap, img: SM.Disk)
    returns (files: seq<FileLog>, h2: Hist, at2: seq<nat>)
    requires Stored(s, h, base, past, src, at) && Sound(s.mode, base, src) && NoneBare(src) && Timed(clocks, n)
    requires Answer(s, base, src).Some? && n < |Answer(s, base, src).value|
    requires var r := AppFeed(s, FreshReader(s), Answer(s, base, src).value[..n], clocks);
      && r.Ok? && Tidy(r.value.0, h1) && h1.base == h.base && r.value.0.mode == s.mode
      && Arrived(s, h, base, src, n) == Ok((SR.Abs(h1), r.value.1))
      && CrashIn(r.value.0, CallsFor(r.value.0, r.value.1, Answer(s, base, src).value[n]), clock, i, snap, img)
    requires !R.Load(img, s.mode, SM.Streaming).Refused?
    ensures img == SM.DiskOf(s.mode, h.base, files) && SM.DistinctNames(files) && SM.WholeTransactions(files)
    ensures Arrived(s, h, base, src, n + 1).Ok? && Arrived(s, h, base, src, n + 1).value.0 == SR.Abs(h2)
    ensures Covers(past, SR.Abs(h2)) && CutOff(s.mode, Unpurged(past, SR.Abs(h2)), src, at2)
    ensures Trimmed(SR.Abs(h1), files) || Trimmed(SR.Abs(h2), files)
  {
    hide Tidy, SR.Abs, AppFeed, Feed, FreshReader, FreshContext, Answer, Aligned, Grows, HasAll, Sound, NoneBare,
      Trimmed, SM.DiskOf, R.Load, AppEvent, CrashIn, Process, ProcessEvent, SM.DistinctNames, SM.WholeTransactions,
      SM.AllGtids, Unpurged, Covers, CutOff, CallsFor;
    CrashHasClock(s, h, base, src, n, clocks, clock, i, snap, img);
    var stream := Answer(s, base, src).value;
    var more := clocks + [clock];
    assert more[..n] == clocks && more[n] == clock;
    h2, at2 := ConnectionOnStorage(s, h, base, past, src, at, n + 1, more);
    var (s1, c1) := AppFeed(s, FreshReader(s), stream[..n], clocks).value;
    var e := stream[n];
    LastOfFeed(s, FreshReader(s), SR.Abs(h), FreshContext(SR.Abs(h), s.mode), stream, n, more);
    AnswerIsReal(s, h, base, past, src, at, n);
    if e.IsArtificialRotate() && Process(c1, e).Ok? { RotateIsInfo(c1, e); }
    files := CrashInEvent(s1, h1, c1, e, clock, i, snap, img);
  }

  lemma CrashHasClock(s: State, h: Hist, base: set<Gtid>, src: seq<SrcFile>, n: nat,
                      clocks: seq<seq<nat>>, clock: seq<nat>, i: nat, snap: SM.Snap, img: SM.Disk)
    requires Timed(clocks, n) && Answer(s, base, src).Some? && n < |Answer(s, base, src).value|
    requires var r := AppFeed(s, FreshReader(s), Answer(s, base, src).value[..n], clocks);
      && r.Ok? && CrashIn(r.value.0, CallsFor(r.value.0, r.value.1, Answer(s, base, src).value[n]), clock, i, snap, img)
    ensures |clock| == 3 && Timed(clocks + [clock], n + 1)
  {
  }

  // ----- restarts ----------------------------------------------------------------------

  /** set_purged_gtids: an empty storage takes over what the source has purged. */
  ghost function Started(s: State, base: set<Gtid>): State {
    if s.IsEmpty() then s.(purged := base) else s
  }

  /** A restart on the disk of a log finds everything on disk. */
  lemma RestartIsReady(mode: ReplicationMode, base: set<Gtid>, past: seq<FileLog>, files: seq<FileLog>, ckptSize: nat,
                       ckptInterval: nat)
    requires SM.DistinctNames(files) && SM.WholeTransactions(files) && (past == [] || files != [])
    requires R.Load(SM.DiskOf(mode, SM.AllGtids(base, past), files), mode, SM.Streaming).Opened?
    ensures var base' := SM.AllGtids(base, past);
      var s := CS.Restarted(R.Load(SM.DiskOf(mode, base', files), mode, SM.Streaming), mode, ckptSize, ckptInterval);
      Tidy(Started(s, base), SM.Hist(base', files, [], [], false))
  {
    hide R.Load;
    var base' := SM.AllGtids(base, past);
    CS.RestartKeeps(mode, base', files, ckptSize, ckptInterval);
    var s := CS.Restarted(R.Load(SM.DiskOf(mode, base', files), mode, SM.Streaming), mode, ckptSize, ckptInterval);
    if files == [] {
      CS.EmptyDisk(mode, base');
    } else {
      assert !s.IsEmpty();
    }
  }

  /** A restart on the disk of an aligned log is ready for the next connection. */
  lemma RestartIsStored(mode: ReplicationMode, base: set<Gtid>, past: seq<FileLog>, files: seq<FileLog>,
                        src: seq<SrcFile>, at: seq<nat>, ckptSize: nat, ckptInterval: nat)
    requires SM.DistinctNames(files) && SM.WholeTransactions(files) && Aligned(mode, past + files, src, at)
    requires past == [] || files != []
    requires R.Load(SM.DiskOf(mode, SM.AllGtids(base, past), files), mode, SM.Streaming).Opened?
    ensures var base' := SM.AllGtids(base, past);
      var s := CS.Restarted(R.Load(SM.DiskOf(mode, base', files), mode, SM.Streaming), mode, ckptSize, ckptInterval);
      Stored(Started(s, base), SM.Hist(base', files, [], [], false), base, past, src, at)
  {
    hide R.Load, Aligned, Tidy;
    RestartIsReady(mode, base, past, files, ckptSize, ckptInterval);
  }

  /** An empty directory is ready for the first connection. */
  lemma FirstIsStored(mode: ReplicationMode, base: set<Gtid>, src: seq<SrcFile>, ckptSize: nat, ckptInterval: nat)
    ensures R.Load(map[], mode, SM.Streaming).Opened?
    ensures var s := CS.Restarted(R.Load(map[], mode, SM.Streaming), mode, ckptSize, ckptInterval);
      Stored(Started(s, base), SM.Hist(base, [], [], [], false), base, [], src, [])
  {
    hide R.Load;
    CS.FirstStart(mode, ckptSize, ckptInterval);
    CS.EmptyDisk(mode, base);
    assert [] + SM.Hist(base, [], [], [], false).files == [];
    NothingAligned(mode, src);
  }

  /** What is stored stays aligned while the source grows. */
  lemma StoredWhileGrowing(s: State, h: Hist, base: set<Gtid>, past: seq<FileLog>, src: seq<SrcFile>,
                           src': seq<SrcFile>, at: seq<nat>)
    requires Stored(s, h, base, past, src, at) && Grown(src, src')
    ensures Stored(s, h, base, past, src', at)
  {
    hide Tidy, Aligned, Grown, SM.AllGtids;
    GrownAligned(s.mode, past + h.files, src, src', at);
  }

  // ----- a source that stops the application -------------------------------------------

  ghost function BareEvents(name: Name, ts: nat): seq<Event> {
    [Event(FormatDescription, false, ts, 1, MAGIC_OFFSET + 1, [0], name, 0, None, 0, 0, true),
     Event(PreviousGtids, false, ts, 1, MAGIC_OFFSET + 2, [0], name, 0, None, 0, 0, true)]
  }

  lemma BareFileIsGood(name: Name, ts: nat)
    ensures GoodFile(Position, SrcFile(name, BareEvents(name, ts)))
    ensures ts != 0 ==> Bare(SrcFile(name, BareEvents(name, ts)))
  {
    var events := BareEvents(name, ts);
    assert events[..0] == [] && events[..1] == [events[0]] && events[..2] == events;
    assert [events[0]][..0] == [];
    assert Offset([]) == MAGIC_OFFSET && Offset([events[0]]) == MAGIC_OFFSET + 1 && Offset(events) == MAGIC_OFFSET + 2;
    assert PhaseOf(Position, []).AtStart? && PhaseOf(Position, [events[0]]).Described?;
    assert PhaseOf(Position, events).Idle?;
  }

  /**
   * A well-formed source stops the application: two files without transactions and terminators.  The
   * second artificial ROTATE is refused, with any clock.
   */
  lemma BareSourceFails(a: Name, b: Name, ts: nat, ckptSize: nat, ckptInterval: nat, clocks: seq<seq<nat>>)
    requires a != b && ts != 0 && Timed(clocks, 4)
    ensures var src := [SrcFile(a, BareEvents(a, ts)), SrcFile(b, BareEvents(b, ts))];
      var s := CS.Restarted(R.Load(map[], Position, SM.Streaming), Position, ckptSize, ckptInterval);
      && Sound(Position, {}, src) && !NoneBare(src)
      && Answer(s, {}, src).Some? && |Answer(s, {}, src).value| >= 4
      && AppFeed(s, FreshReader(s), Answer(s, {}, src).value[..4], clocks).Err?
  {
    hide R.Load, GoodFile, Bare, AppFeed, FreshReader, Tidy, Aligned, Feed;
    var fa, fb := SrcFile(a, BareEvents(a, ts)), SrcFile(b, BareEvents(b, ts));
    var src := [fa, fb];
    EmptyStarted(Position, ckptSize, ckptInterval);
    var s := CS.Restarted(R.Load(map[], Position, SM.Streaming), Position, ckptSize, ckptInterval);
    var h := SM.Hist({}, [], [], [], false);
    BareFileIsGood(a, ts);
    BareFileIsGood(b, ts);
    FirstIsStored(Position, {}, src, ckptSize, ckptInterval);
    assert Bare(src[0]);
    RestsInLog(s, h, {}, [], src, []);
    NothingPurged(SR.Abs(h));
    var j := AnswerResumes(Position, {}, SR.Abs(h), src, []);
    var stream := Answer(s, {}, src).value;
    FirstAnswer(src, SR.Abs(h), j, stream);
    assert Stuck(src, 0, 0, 3);
    var h' := AppConnectionIff(s, h, [], src, [], j, stream, 4, clocks);
  }

  lemma EmptyStarted(mode: ReplicationMode, ckptSize: nat, ckptInterval: nat)
    ensures R.Load(map[], mode, SM.Streaming).Opened?
    ensures var s := CS.Restarted(R.Load(map[], mode, SM.Streaming), mode, ckptSize, ckptInterval); Started(s, {}) == s
  {
  }

  lemma FirstAnswer(src: seq<SrcFile>, log: Log, j: nat, stream: seq<Event>)
    requires |src| == 2 && log.files == [] && Resumes(Position, log, src, [], j, stream)
    requires |src[0].events| == 2 && |src[1].events| == 2
    ensures j == 0 && FirstNew(log, [], j) == 0 && |LeadIn(Position, log, [], src, j)| == 1 && |stream| >= 4
  {
  }
}
