/**
 * Connections to the source: what the server sends for a position or for a GTID set, and what is
 * stored after any number of connections, each cut off anywhere by a timeout or by a crash.
 */
module Connections {
  import opened Prelude
  import opened BinlogNames
  import opened ReaderContext
  import opened Streaming
  import opened Alignment
  import SM = StorageModel

  // ----- preambles ---------------------------------------------------------------------

  /** What the server sends before the first new event of file f when k events of it are stored. */
  ghost function Preamble(mode: ReplicationMode, f: SrcFile, k: nat, pos: nat): seq<Event>
    requires |f.events| >= 2
  {
    [ArtificialRotate(f.name, if mode == Position then pos else MAGIC_OFFSET)]
    + (if k == 0 then [] else if mode == Position then [f.events[0].(nextPos := 0)] else f.events[..2])
  }

  lemma BackConnects(mode: ReplicationMode, log: Log, f: SrcFile, c: Ctx)
    requires log.open && log.files != [] && log.tail == [] && HoldsPrefix(mode, LastFile(log), f) && GoodFile(mode, f)
    requires c.mode == mode && c.state.GtidEvent? && Clean(c) && c.cycle > 0 && c.name == Some(f.name)
    requires c.pos == CurrentPosition(log) && LastFile(log).evs != []
    ensures Conn(log, c, f, |LastFile(log).evs|)
  {
    hide GoodFile, CurrentPosition, Offset, Copy;
    StoredPosition(mode, log, f);
    StoredPhase(mode, f, |LastFile(log).evs|);
    assert LastFile(log).evs + [] == LastFile(log).evs;
  }

  lemma ReadsInfoPreamble(mode: ReplicationMode, f: SrcFile, pos: nat)
    requires GoodFile(mode, f) && pos > MAGIC_OFFSET
    ensures var back := Back(mode, f.name, pos);
      if mode == Position then
        Process(back, f.events[0].(nextPos := 0)) == Ok((back.(state := GtidEvent), true))
      else
        && Process(back, f.events[0]) == Ok((back.(state := Previous), true))
        && Process(back.(state := Previous), f.events[1]) == Ok((back.(state := GtidEvent), true))
    ensures f.events[0].code.FormatDescription? && f.events[1].code.PreviousGtids?
  {
    FirstPhases(mode, f);
  }

  lemma FeedOne(log: Log, c: Ctx, e: Event)
    requires ProcessEvent(log, c, e).Ok?
    ensures Feed(log, c, [e]) == ProcessEvent(log, c, e)
  {
    hide ProcessEvent;
    assert [e][1..] == [];
  }

  lemma FeedTwo(log: Log, c: Ctx, a: Event, b: Event)
    requires ProcessEvent(log, c, a).Ok?
    ensures Feed(log, c, [a, b]) == Feed(ProcessEvent(log, c, a).value.0, ProcessEvent(log, c, a).value.1, [b])
  {
    hide ProcessEvent;
    assert [a, b][1..] == [b];
  }

  lemma FeedThree(log: Log, c: Ctx, a: Event, b: Event, d: Event)
    requires ProcessEvent(log, c, a).Ok?
    ensures Feed(log, c, [a, b, d]) == Feed(ProcessEvent(log, c, a).value.0, ProcessEvent(log, c, a).value.1, [b, d])
  {
    hide ProcessEvent;
    assert [a, b, d][1..] == [b, d];
  }

  /** The preamble is accepted, writes nothing and leaves the reader behind the stored events. */
  lemma PreambleResumes(mode: ReplicationMode, log: Log, f: SrcFile)
    requires log.files != [] && log.tail == [] && HoldsPrefix(mode, LastFile(log), f) && GoodFile(mode, f)
    ensures var pre := Preamble(mode, f, |LastFile(log).evs|, CurrentPosition(log));
      var r := Feed(log, FreshContext(log, mode), pre);
      && r.Ok? && r.value.0 == log.(open := true) && r.value.1.mode == mode
      && Conn(r.value.0, r.value.1, f, |LastFile(log).evs|)
  {
    hide GoodFile, ProcessEvent, Process, Feed, Conn, CurrentPosition, FreshContext;
    StoredPosition(mode, log, f);
    FirstPhases(mode, f);
    ReturnToLast(log, mode);
    var pos, open, c := CurrentPosition(log), log.(open := true), FreshContext(log, mode);
    var back := Back(mode, f.name, pos);
    var e := ArtificialRotate(f.name, if mode == Position then pos else MAGIC_OFFSET);
    SamePosition(log);
    if LastFile(log).evs == [] {
      FeedOne(log, c, e);
      EmptyAtMagic(log);
      assert back == Entered(back.(cycle := 0), f.name);
      EnterConnects(open, back.(cycle := 0), f);
      assert Preamble(mode, f, 0, pos) == [e];
    } else {
      ReadsInfoPreamble(mode, f, pos);
      BackConnects(mode, open, f, back.(state := GtidEvent));
      if mode == Position {
        var fde := f.events[0].(nextPos := 0);
        InfoOnly(open, back, fde);
        FeedTwo(log, c, e, fde);
        FeedOne(open, back, fde);
        assert Preamble(mode, f, |LastFile(log).evs|, pos) == [e, fde];
      } else {
        var fde, pgl := f.events[0], f.events[1];
        InfoOnly(open, back, fde);
        InfoOnly(open, back.(state := Previous), pgl);
        FeedThree(log, c, e, fde, pgl);
        FeedTwo(open, back, fde, pgl);
        FeedOne(open, back.(state := Previous), pgl);
        assert Preamble(mode, f, |LastFile(log).evs|, pos) == [e, fde, pgl];
      }
    }
  }

  lemma SamePosition(log: Log)
    ensures CurrentPosition(log.(open := true)) == CurrentPosition(log)
  {
  }

  lemma EmptyAtMagic(log: Log)
    requires log.files != [] && LastFile(log).evs == [] && log.tail == []
    ensures CurrentPosition(log) == MAGIC_OFFSET
  {
  }

  /** Cut off inside the preamble, a connection changes nothing but that the file is open. */
  lemma PreambleCut(mode: ReplicationMode, log: Log, f: SrcFile, n: nat)
    requires log.files != [] && log.tail == [] && HoldsPrefix(mode, LastFile(log), f) && GoodFile(mode, f)
    requires |f.events| >= 2 && n < |Preamble(mode, f, |LastFile(log).evs|, CurrentPosition(log))|
    ensures var pre := Preamble(mode, f, |LastFile(log).evs|, CurrentPosition(log));
      var r := Feed(log, FreshContext(log, mode), pre[..n]);
      r.Ok? && r.value.0 == (if n == 0 then log else log.(open := true)) && r.value.1.mode == mode
  {
    hide GoodFile, ProcessEvent, Process, Conn, CurrentPosition;
    StoredPosition(mode, log, f);
    ReturnToLast(log, mode);
    var pos, open, c := CurrentPosition(log), log.(open := true), FreshContext(log, mode);
    var back := Back(mode, f.name, pos);
    var pre := Preamble(mode, f, |LastFile(log).evs|, pos);
    if n == 0 {
      assert pre[..0] == [];
    } else {
      FeedOne(log, c, pre[0]);
      assert pre[..1] == [pre[0]];
      if n == 2 {
        ReadsInfoPreamble(mode, f, pos);
        InfoOnly(open, back, pre[1]);
        FeedTwo(log, c, pre[0], pre[1]);
        FeedOne(open, back, pre[1]);
        assert pre[..2] == [pre[0], pre[1]];
      }
    }
  }

  // ----- one connection ----------------------------------------------------------------

  /** What a connection has left behind when it is cut off. */
  ghost predicate CutOff(mode: ReplicationMode, log: Log, src: seq<SrcFile>, at: seq<nat>) {
    && Aligned(mode, log.files, src, at) && SM.NoBoundary(log.tail)
    && (log.open || log.tail == []) && (log.files == [] ==> !log.open)
  }

  ghost predicate AtLast(log: Log, at: seq<nat>, j: nat)
    requires |at| == |log.files|
  {
    log.files != [] && at[|at| - 1] == j
  }

  /** The first event of source file j that is not stored. */
  ghost function FirstNew(log: Log, at: seq<nat>, j: nat): nat
    requires |at| == |log.files|
  {
    if AtLast(log, at, j) then |LastFile(log).evs| else 0
  }

  ghost function LeadIn(mode: ReplicationMode, log: Log, at: seq<nat>, src: seq<SrcFile>, j: nat): seq<Event>
    requires |at| == |log.files| && j < |src| && |src[j].events| >= 2
  {
    if AtLast(log, at, j) then Preamble(mode, src[j], FirstNew(log, at, j), CurrentPosition(log))
    else [ArtificialRotate(src[j].name, MAGIC_OFFSET)]
  }

  /** The stream continues at the stored position, or enters source file j after everything before it. */
  ghost predicate Resumes(mode: ReplicationMode, log: Log, src: seq<SrcFile>, at: seq<nat>, j: nat,
                          stream: seq<Event>) {
    && j < |src| && |at| == |log.files| && |src[j].events| >= 2
    && FirstNew(log, at, j) <= |src[j].events|
    && (AtLast(log, at, j) || TakenUpTo(mode, log.files, src, at, j))
    && stream == LeadIn(mode, log, at, src, j) + Remaining(src, j, FirstNew(log, at, j))
  }

  lemma ResumesBasics(mode: ReplicationMode, log: Log, src: seq<SrcFile>, at: seq<nat>, j: nat, stream: seq<Event>)
    requires Resumes(mode, log, src, at, j, stream)
    ensures j < |src| && |at| == |log.files| && |src[j].events| >= 2 && FirstNew(log, at, j) <= |src[j].events|
    ensures stream == LeadIn(mode, log, at, src, j) + Remaining(src, j, FirstNew(log, at, j))
  {
  }

  /** Nothing the source has is missing. */
  ghost predicate HasAll(mode: ReplicationMode, files: seq<FileLog>, src: seq<SrcFile>, at: seq<nat>) {
    |at| == |files| && TakenUpTo(mode, files, src, at, |src|)
  }

  lemma EnterFirst(mode: ReplicationMode, log: Log, src: seq<SrcFile>, at: seq<nat>, j: nat)
    requires GoodSource(mode, src) && AtRest(mode, log, src, at) && j < |src| && TakenUpTo(mode, log.files, src, at, j)
    ensures var r := ProcessEvent(log, FreshContext(log, mode), ArtificialRotate(src[j].name, MAGIC_OFFSET));
      && r.Ok? && r.value.1.mode == mode && Standing(r.value.0, r.value.1, src, at + [j], j, 0)
      && Grows(log.files, r.value.0.files) && r.value.0.files == log.files + [SM.FileLog(src[j].name, [])]
  {
    hide Aligned, GoodFile, ProcessEvent, Conn;
    var c := FreshContext(log, mode);
    AlignedLength(mode, log.files, src, at);
    NewName(mode, log.files, src, at, j);
    if log.files != [] {
      assert log.files[|log.files| - 1].name != src[j].name;
    }
    EnterNew(log, c, src[j].name);
    AddLast(mode, log.files, src, at, j);
    EnterConnects(ProcessEvent(log, c, ArtificialRotate(src[j].name, MAGIC_OFFSET)).value.0, c, src[j]);
  }

  lemma StandingIsCutOff(log: Log, c: Ctx, src: seq<SrcFile>, at: seq<nat>, j: nat, k: nat)
    requires Standing(log, c, src, at, j, k)
    ensures CutOff(c.mode, log, src, at)
  {
    hide Aligned;
  }

  /** After the lead-in the reader stands before the first event that is not stored. */
  lemma LeadInStands(mode: ReplicationMode, log: Log, src: seq<SrcFile>, at: seq<nat>, j: nat, stream: seq<Event>)
    returns (at': seq<nat>)
    requires GoodSource(mode, src) && AtRest(mode, log, src, at) && Resumes(mode, log, src, at, j, stream)
    ensures var r := Feed(log, FreshContext(log, mode), LeadIn(mode, log, at, src, j));
      && r.Ok? && r.value.1.mode == mode && Grows(log.files, r.value.0.files)
      && (r.value.0.files == log.files || r.value.0.files == log.files + [SM.FileLog(src[j].name, [])])
      && Standing(r.value.0, r.value.1, src, at', j, FirstNew(log, at, j))
  {
    hide GoodFile, Aligned, Feed, Conn, ProcessEvent, Grows, FreshContext, CurrentPosition, TakenUpTo, Remaining,
      HoldsPrefix;
    var c := FreshContext(log, mode);
    if AtLast(log, at, j) {
      at' := at;
      LastHoldsPrefix(mode, log, src, at);
      PreambleResumes(mode, log, src[j]);
      GrowsReflexive(log.files);
    } else {
      at' := at + [j];
      EnterFirst(mode, log, src, at, j);
      FeedOne(log, c, ArtificialRotate(src[j].name, MAGIC_OFFSET));
    }
  }

  /** Cut off in the lead-in, a connection has changed nothing but that a file is open. */
  lemma LeadInCut(mode: ReplicationMode, log: Log, src: seq<SrcFile>, at: seq<nat>, j: nat, stream: seq<Event>, n: nat)
    requires GoodSource(mode, src) && AtRest(mode, log, src, at) && Resumes(mode, log, src, at, j, stream)
    requires n < |LeadIn(mode, log, at, src, j)|
    ensures var r := Feed(log, FreshContext(log, mode), LeadIn(mode, log, at, src, j)[..n]);
      r.Ok? && CutOff(mode, r.value.0, src, at) && r.value.0.files == log.files
  {
    hide GoodFile, Aligned, Feed, ProcessEvent, FreshContext, CurrentPosition, TakenUpTo, Remaining, HoldsPrefix;
    if AtLast(log, at, j) {
      LastHoldsPrefix(mode, log, src, at);
      PreambleCut(mode, log, src[j], n);
    } else {
      FeedNothing(log, FreshContext(log, mode));
      assert LeadIn(mode, log, at, src, j)[..0] == [];
    }
  }

  /** A connection that resumes properly is accepted however far it gets. */
  lemma ConnectionAccepted(mode: ReplicationMode, log: Log, src: seq<SrcFile>, at: seq<nat>, j: nat, stream: seq<Event>,
                           n: nat)
    returns (at': seq<nat>)
    requires GoodSource(mode, src) && AtRest(mode, log, src, at)
    requires Resumes(mode, log, src, at, j, stream) && n <= |stream|
    ensures var r := Feed(log, FreshContext(log, mode), stream[..n]);
      && r.Ok? && CutOff(mode, r.value.0, src, at') && Grows(log.files, r.value.0.files)
      && (n == |stream| ==> HasAll(mode, r.value.0.files, src, at'))
  {
    hide GoodSource, Feed, Grows, FreshContext, Remaining, CutOff, HasAll, LeadIn, FirstNew, AtRest, Standing,
      TakenUpTo;
    var c := FreshContext(log, mode);
    var pre, k := LeadIn(mode, log, at, src, j), FirstNew(log, at, j);
    if n < |pre| {
      at' := at;
      LeadInCut(mode, log, src, at, j, stream, n);
      assert stream[..n] == pre[..n];
      GrowsReflexive(log.files);
    } else {
      var at1 := LeadInStands(mode, log, src, at, j, stream);
      var (log1, c1) := Feed(log, c, pre).value;
      var some := Remaining(src, j, k)[..n - |pre|];
      assert stream[..n] == pre + some;
      FeedConcat(log, c, pre, some);
      at' := FeedToCut(log1, c1, src, at1, j, k, n - |pre|);
      GrowsTransitive(log.files, log1.files, Feed(log, c, stream[..n]).value.0.files);
    }
  }

  lemma FeedNothing(log: Log, c: Ctx)
    ensures Feed(log, c, []) == Ok((log, c))
  {
  }

  lemma LastHoldsPrefix(mode: ReplicationMode, log: Log, src: seq<SrcFile>, at: seq<nat>)
    requires log.files != [] && Aligned(mode, log.files, src, at)
    ensures |at| == |log.files| && at[|at| - 1] < |src| && HoldsPrefix(mode, LastFile(log), src[at[|at| - 1]])
  {
  }

  lemma FeedToCut(log: Log, c: Ctx, src: seq<SrcFile>, at: seq<nat>, j: nat, k: nat, n: nat) returns (at': seq<nat>)
    requires GoodSource(c.mode, src) && Standing(log, c, src, at, j, k) && k <= |src[j].events|
    requires n <= |Remaining(src, j, k)|
    ensures var r := Feed(log, c, Remaining(src, j, k)[..n]);
      && r.Ok? && CutOff(c.mode, r.value.0, src, at') && Grows(log.files, r.value.0.files)
      && (n == |Remaining(src, j, k)| ==> HasAll(c.mode, r.value.0.files, src, at'))
  {
    hide GoodSource, Standing, Feed, Remaining, Grows;
    StandingBasics(log, c, src, at, j, k);
    var j', k';
    at', j', k' := FeedRemaining(log, c, src, at, j, k, Remaining(src, j, k), n);
    var (log', c') := Feed(log, c, Remaining(src, j, k)[..n]).value;
    StandingIsCutOff(log', c', src, at', j', k');
    if n == |Remaining(src, j, k)| {
      assert Remaining(src, j, k)[n..] == [];
      StandingAtTheEnd(log', c', src, at', j', k');
    }
  }

  lemma StandingAtTheEnd(log: Log, c: Ctx, src: seq<SrcFile>, at: seq<nat>, j: nat, k: nat)
    requires Standing(log, c, src, at, j, k) && k <= |src[j].events| && Remaining(src, j, k) == []
    ensures HasAll(c.mode, log.files, src, at)
  {
    hide Aligned, Conn, Closed;
    assert j + 1 == |src| && k == |src[j].events|;
    AlignedLength(c.mode, log.files, src, at);
    NothingLeft(log, c, src[j]);
  }

  // ----- a dump by position ------------------------------------------------------------

  ghost predicate PointsAt(src: seq<SrcFile>, name: Name, pos: nat, j: nat, k: nat) {
    j < |src| && src[j].name == name && k <= |src[j].events| && |src[j].events| >= 2
    && Offset(src[j].events[..k]) == pos
  }

  /** What a server sends for a file name and an offset; None when there is no such place. */
  ghost function ServePosition(src: seq<SrcFile>, name: Option<Name>, pos: nat): Option<seq<Event>> {
    if name.None? then Some(Rest(src, 0))
    else if exists j, k :: PointsAt(src, name.value, pos, j, k) then
      var j: nat, k: nat :| PointsAt(src, name.value, pos, j, k);
      Some(Preamble(Position, src[j], k, pos) + Remaining(src, j, k))
    else None
  }

  lemma OnePoint(src: seq<SrcFile>, name: Name, pos: nat, j: nat, k: nat, j': nat, k': nat)
    requires GoodSource(Position, src) && PointsAt(src, name, pos, j, k) && PointsAt(src, name, pos, j', k')
    ensures j == j' && k == k'
  {
    assert GoodFile(Position, src[j]);
    var events := src[j].events;
    if k < k' {
      OffsetStrict(events, k, k');
    } else if k' < k {
      OffsetStrict(events, k', k);
    }
  }

  /** The stored file name and size name the first event that is not stored. */
  lemma PositionResumes(log: Log, src: seq<SrcFile>, at: seq<nat>) returns (j: nat)
    requires GoodSource(Position, src) && AtRest(Position, log, src, at) && src != []
    ensures ServePosition(src, CurrentName(log), CurrentPosition(log)).Some?
    ensures Resumes(Position, log, src, at, j, ServePosition(src, CurrentName(log), CurrentPosition(log)).value)
  {
    hide GoodFile, CurrentPosition;
    if log.files == [] {
      j := 0;
      FirstTwo(Position, src[0]);
      assert src[0].events[0..] == src[0].events;
    } else {
      LastHoldsPrefix(Position, log, src, at);
      j := at[|at| - 1];
      var k := |LastFile(log).evs|;
      StoredPosition(Position, log, src[j]);
      FirstTwo(Position, src[j]);
      var (name, pos) := (LastFile(log).name, CurrentPosition(log));
      assert PointsAt(src, name, pos, j, k);
      forall j', k' | PointsAt(src, name, pos, j', k') ensures j' == j && k' == k {
        OnePoint(src, name, pos, j, k, j', k');
      }
    }
  }
}
